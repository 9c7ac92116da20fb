/** dashboard/api/server.py: the store-backed branch of the live event stream.

  Each connection keeps a timestamp cursor and a set of ids already sent.  A tick reads the alerts at or
  after the cursor, oldest first, and sends up to fifty of those whose id is not in the set.  The functions
  say what one tick does; the lemmas follow any interleaving of inserts and ticks.
 */
module LiveStream {
  import opened Wrappers
  import opened AlertStore
  import opened Sequences

  const BUDGET: nat := 50
  const PRUNE_ABOVE: nat := 10000
  const PRUNE_TO: nat := 5000

  /** The stored alerts, where the current replay session of this connection began, the connection's cursor
      and set of sent ids, and everything it has sent so far. */
  datatype Sys = Sys(store: seq<Alert>, start: real, lastTs: real, sent: set<string>, log: seq<Alert>)

  // ----- One tick -----

  /** The alerts a tick sends: the first `budget` of `rows` whose id has not been sent. */
  function Pick(rows: seq<Alert>, sent: set<string>, budget: nat): seq<Alert> {
    if rows == [] || budget == 0 then []
    else if rows[0].id in sent then Pick(rows[1..], sent, budget)
    else [rows[0]] + Pick(rows[1..], sent + {rows[0].id}, budget - 1)
  }

  function MaxTs(ts: real, events: seq<Alert>): real {
    if events == [] then ts
    else var m := MaxTs(ts, events[..|events| - 1]);
         if events[|events| - 1].ts > m then events[|events| - 1].ts else m
  }

  function Since(ts: real): Query { Query(Some(ts), None, None, None) }

  ghost predicate IsTickRead(s: Sys, rows: seq<Alert>) {
    IsRead(rows, s.store, Since(s.lastTs))
  }

  /** What may be left of the set after a tick: all of it, or any 5000 ids once it exceeds 10000. */
  ghost predicate IsPruned(kept: set<string>, sent: set<string>) {
    if |sent| > 10000 then kept <= sent && |kept| == 5000 else kept == sent
  }

  datatype Event =
    | Insert(alert: Alert)
    | Clear
    | Tick(rows: seq<Alert>, kept: set<string>)
    | Idle(now: real)

  ghost predicate Allowed(s: Sys, e: Event) {
    match e
    case Insert(a) => true
    case Clear => true
    case Tick(rows, kept) => IsTickRead(s, rows) && IsPruned(kept, s.sent + Ids(Pick(rows, s.sent, BUDGET)))
    case Idle(now) => true
  }

  function Next(s: Sys, e: Event): Sys {
    match e
    case Insert(a) => s.(store := InsertOrIgnore(s.store, a))
    case Clear => s.(store := [])
    case Tick(rows, kept) =>
      var events := Pick(rows, s.sent, BUDGET);
      s.(lastTs := MaxTs(s.lastTs, events), sent := kept, log := s.log + events)
    case Idle(now) => s.(start := now, lastTs := now)
  }

  function Exec(s: Sys, es: seq<Event>): Sys {
    if es == [] then s else Next(Exec(s, es[..|es| - 1]), es[|es| - 1])
  }

  ghost predicate AllAllowed(s: Sys, es: seq<Event>) {
    forall i | 0 <= i < |es| :: Allowed(Exec(s, es[..i]), es[i])
  }

  // ----- What a tick sends -----

  predicate Unsent(a: Alert, sent: set<string>) { a.id !in sent }

  function UnsentRows(rows: seq<Alert>, sent: set<string>): seq<Alert> {
    if rows == [] then [] else (if Unsent(rows[0], sent) then [rows[0]] else []) + UnsentRows(rows[1..], sent)
  }

  lemma {:induction false} UnsentRowsFrame(rows: seq<Alert>, sent: set<string>, id: string)
    requires forall i | 0 <= i < |rows| :: rows[i].id != id
    ensures UnsentRows(rows, sent + {id}) == UnsentRows(rows, sent)
  {
    if rows != [] {
      UnsentRowsFrame(rows[1..], sent, id);
    }
  }

  /** On rows with distinct ids a tick sends a prefix of the unsent ones, as long as the budget allows. */
  lemma {:induction false} PickIsPrefix(rows: seq<Alert>, sent: set<string>, budget: nat)
    requires UniqueIds(rows)
    ensures var unsent := UnsentRows(rows, sent);
            Pick(rows, sent, budget) == unsent[..if |unsent| < budget then |unsent| else budget]
  {
    if rows != [] && budget > 0 {
      if rows[0].id in sent {
        PickIsPrefix(rows[1..], sent, budget);
      } else {
        PickIsPrefix(rows[1..], sent + {rows[0].id}, budget - 1);
        UnsentRowsFrame(rows[1..], sent, rows[0].id);
      }
    }
  }

  lemma {:induction false} UnsentRowsFacts(rows: seq<Alert>, sent: set<string>)
    requires UniqueIds(rows) && OldestFirst(rows)
    ensures var unsent := UnsentRows(rows, sent); UniqueIds(unsent) && OldestFirst(unsent)
    ensures forall a :: a in UnsentRows(rows, sent) <==> a in rows && Unsent(a, sent)
  {
    if rows != [] {
      var rest := UnsentRows(rows[1..], sent);
      UnsentRowsFacts(rows[1..], sent);
      assert rows == [rows[0]] + rows[1..];
      forall i | 0 <= i < |rest|
        ensures rest[i].id != rows[0].id && rows[0].ts <= rest[i].ts
      {
        assert rest[i] in rows[1..];
      }
    }
  }

  lemma {:induction false} MaxTsBounds(ts: real, events: seq<Alert>)
    ensures MaxTs(ts, events) >= ts
    ensures forall i | 0 <= i < |events| :: events[i].ts <= MaxTs(ts, events)
    ensures || MaxTs(ts, events) == ts
            || (events != [] && exists i :: 0 <= i < |events| && events[i].ts == MaxTs(ts, events))
  {
    if events != [] {
      MaxTsBounds(ts, events[..|events| - 1]);
    }
  }

  /** The tick's events are unsent rows, and everything unsent that it leaves behind is at or after the new
      cursor: the cursor never moves past an alert that was not sent. */
  lemma TickFacts(s: Sys, rows: seq<Alert>)
    requires IsTickRead(s, rows)
    ensures var events := Pick(rows, s.sent, BUDGET);
            && (forall a | a in events :: a in rows && Unsent(a, s.sent))
            && UniqueIds(events)
            && (forall a | a in rows && Unsent(a, s.sent) && a !in events :: a.ts >= MaxTs(s.lastTs, events))
  {
    var events, unsent := Pick(rows, s.sent, BUDGET), UnsentRows(rows, s.sent);
    PickIsPrefix(rows, s.sent, BUDGET);
    UnsentRowsFacts(rows, s.sent);
    MaxTsBounds(s.lastTs, events);
    forall a | a in rows && Unsent(a, s.sent) && a !in events
      ensures a.ts >= MaxTs(s.lastTs, events)
    {
      assert a in unsent;
      var j :| 0 <= j < |unsent| && unsent[j] == a;
      assert j >= |events|;
      assert forall i | 0 <= i < |events| :: events[i] == unsent[i];
    }
  }

  /** Each tick sends exactly as many alerts as are unsent at or after the cursor, up to fifty. */
  lemma TickCount(s: Sys, rows: seq<Alert>)
    requires IsTickRead(s, rows)
    ensures var n := |UnsentRows(rows, s.sent)|;
            |Pick(rows, s.sent, BUDGET)| == if n < 50 then n else 50
    ensures forall a :: a in UnsentRows(rows, s.sent) <==> a in s.store && a.ts >= s.lastTs && Unsent(a, s.sent)
  {
    PickIsPrefix(rows, s.sent, BUDGET);
    UnsentRowsFacts(rows, s.sent);
  }

  // ----- Safety over whole runs -----

  /** No stored alert between the session's start and the cursor is still to be sent. */
  ghost predicate NothingSkipped(s: Sys) {
    forall a | a in s.store && s.start <= a.ts < s.lastTs :: a in s.log
  }

  /** No stored alert shares its id with a different alert that was sent. */
  ghost predicate Consistent(s: Sys) {
    forall a, b | a in s.store && b in s.log && a.id == b.id :: a == b
  }

  /** What every run keeps. */
  ghost predicate Inv(s: Sys) {
    && UniqueIds(s.store)
    && Consistent(s)
    && s.sent <= Ids(s.log)
    && NothingSkipped(s)
  }

  /** The id of `a` is not that of a different alert sent before. */
  predicate Names(s: Sys, a: Alert) {
    forall b | b in s.log && b.id == a.id :: b == a
  }

  /** An insert the table ignores, or one whose id no other alert was sent under. */
  predicate ReusesNoId(s: Sys, e: Event) {
    e.Insert? ==> e.alert.id in Ids(s.store) || Names(s, e.alert)
  }

  /** An insert the table ignores, or one that is not an unsent alert between the session's start and the
      cursor. */
  predicate OnTime(s: Sys, e: Event) {
    e.Insert? ==>
      e.alert.id in Ids(s.store) || e.alert in s.log || e.alert.ts >= s.lastTs || e.alert.ts < s.start
  }

  predicate Timely(s: Sys, e: Event) {
    ReusesNoId(s, e) && OnTime(s, e)
  }

  ghost predicate AllTimely(s: Sys, es: seq<Event>) {
    forall i | 0 <= i < |es| :: Timely(Exec(s, es[..i]), es[i])
  }

  lemma SameIdSameAlert(t: seq<Alert>, a: Alert, b: Alert)
    requires UniqueIds(t) && a in t && b in t && a.id == b.id
    ensures a == b
  {
    var i :| 0 <= i < |t| && t[i] == a;
    var j :| 0 <= j < |t| && t[j] == b;
  }

  /** A row whose id is in the set of sent ids has itself been sent. */
  lemma SentIsLogged(s: Sys, a: Alert)
    requires Inv(s) && a in s.store && a.id in s.sent
    ensures a in s.log
  {
    var b :| b in s.log && b.id == a.id;
  }

  lemma InsertKeepsInvIff(s: Sys, a: Alert)
    requires Inv(s)
    ensures Inv(Next(s, Insert(a))) <==> Timely(s, Insert(a))
  {
    var s' := Next(s, Insert(a));
    if a.id !in Ids(s.store) {
      UniqueIdsSnoc(s.store, a);
      assert a in s'.store;
      if Inv(s') {
        assert Names(s, a);
      }
    }
  }

  lemma TickKeepsConsistent(s: Sys, rows: seq<Alert>, kept: set<string>)
    requires UniqueIds(s.store) && Consistent(s) && Allowed(s, Tick(rows, kept))
    ensures Consistent(Next(s, Tick(rows, kept)))
  {
    var events := Pick(rows, s.sent, BUDGET);
    TickFacts(s, rows);
    forall a, b | a in s.store && b in s.log + events && a.id == b.id
      ensures a == b
    {
      if b in events {
        SameIdSameAlert(s.store, a, b);
      }
    }
  }

  lemma TickKeepsInv(s: Sys, rows: seq<Alert>, kept: set<string>)
    requires Inv(s) && Allowed(s, Tick(rows, kept))
    ensures Inv(Next(s, Tick(rows, kept)))
  {
    var events, s' := Pick(rows, s.sent, BUDGET), Next(s, Tick(rows, kept));
    TickFacts(s, rows);
    TickKeepsConsistent(s, rows, kept);
    IdsConcat(s.log, events);
    forall a | a in s'.store && s'.start <= a.ts < s'.lastTs
      ensures a in s'.log
    {
      if a.ts >= s.lastTs {
        assert a in rows;
        if a.id in s.sent {
          SentIsLogged(s, a);
        }
      }
    }
  }

  /** A new connection, looking back one hour, on whatever is stored. */
  lemma StartsInvariant(log: seq<Alert>, now: real)
    ensures var s := Sys(FirstWins(log), now - 3600.0, now - 3600.0, {}, []);
            Inv(s) && Behind(s) && Unpruned(s) && |s.sent| <= 10000
  {
    FirstWinsMeaning(log);
  }

  /** Over every run of inserts, clears, ticks and idle periods in which inserts are timely, each stored alert from
      the session's start up to the cursor has been sent.  Pruning the set of ids loses nothing. */
  lemma {:induction false} NothingIsMissed(s: Sys, es: seq<Event>)
    requires Inv(s) && AllAllowed(s, es) && AllTimely(s, es)
    ensures Inv(Exec(s, es))
  {
    if es != [] {
      var past, e := es[..|es| - 1], es[|es| - 1];
      assert forall i | 0 <= i < |past| :: past[..i] == es[..i];
      NothingIsMissed(s, past);
      var before := Exec(s, past);
      assert Allowed(before, e) && Timely(before, e);
      match e
      case Insert(a) => InsertKeepsInvIff(before, a);
      case Clear =>
      case Tick(rows, kept) => TickKeepsInv(before, rows, kept);
      case Idle(now) =>
    }
  }

  lemma PrefixAllowed(s: Sys, es: seq<Event>, n: nat)
    requires AllAllowed(s, es) && n <= |es|
    ensures AllAllowed(s, es[..n])
  {
    forall i | 0 <= i < n
      ensures Allowed(Exec(s, es[..n][..i]), es[..n][i])
    {
      assert es[..n][..i] == es[..i];
    }
  }

  lemma PrefixTimely(s: Sys, es: seq<Event>, n: nat)
    requires AllTimely(s, es) && n <= |es|
    ensures AllTimely(s, es[..n])
  {
    forall i | 0 <= i < n
      ensures Timely(Exec(s, es[..n][..i]), es[..n][i])
    {
      assert es[..n][..i] == es[..i];
    }
  }

  lemma SkipsUnlessOnTime(s: Sys, e: Event)
    requires NothingSkipped(Next(s, e))
    ensures OnTime(s, e)
  {
    if e.Insert? && e.alert.id !in Ids(s.store) {
      assert e.alert in Next(s, e).store;
    }
  }

  ghost predicate NeverSkips(s: Sys, es: seq<Event>) {
    forall n | 0 <= n <= |es| :: NothingSkipped(Exec(s, es[..n]))
  }

  ghost predicate AllOnTime(s: Sys, es: seq<Event>) {
    forall i | 0 <= i < |es| :: OnTime(Exec(s, es[..i]), es[i])
  }

  ghost predicate NoIdReused(s: Sys, es: seq<Event>) {
    forall i | 0 <= i < |es| :: ReusesNoId(Exec(s, es[..i]), es[i])
  }

  /** As long as no new alert reuses the id of another one sent, timeliness is exactly what it takes: nothing is
      skipped at any point of a run if and only if no new alert of the run falls between the session's start
      and the cursor. */
  lemma NothingIsMissedIff(s: Sys, es: seq<Event>)
    requires Inv(s) && AllAllowed(s, es) && NoIdReused(s, es)
    ensures NeverSkips(s, es) <==> AllOnTime(s, es)
  {
    if AllOnTime(s, es) {
      assert AllTimely(s, es);
      forall n | 0 <= n <= |es|
        ensures NothingSkipped(Exec(s, es[..n]))
      {
        PrefixAllowed(s, es, n);
        PrefixTimely(s, es, n);
        NothingIsMissed(s, es[..n]);
      }
    }
    if NeverSkips(s, es) {
      forall i | 0 <= i < |es|
        ensures OnTime(Exec(s, es[..i]), es[i])
      {
        assert es[..i + 1][..i] == es[..i];
        assert NothingSkipped(Exec(s, es[..i + 1]));
        SkipsUnlessOnTime(Exec(s, es[..i]), es[i]);
      }
    }
  }

  /** An alert stored behind the cursor is not sent, however long the replay runs. */
  lemma {:induction false} LateInsertIsNeverSent(s: Sys, a: Alert, es: seq<Event>)
    requires AllAllowed(s, es) && (forall i | 0 <= i < |es| :: !es[i].Idle?)
    requires a.ts < s.lastTs && a !in s.log
    ensures a !in Exec(s, es).log && a.ts < Exec(s, es).lastTs
  {
    if es != [] {
      var past, e := es[..|es| - 1], es[|es| - 1];
      assert forall i | 0 <= i < |past| :: past[..i] == es[..i];
      LateInsertIsNeverSent(s, a, past);
      var before := Exec(s, past);
      assert Allowed(before, e);
      if e.Tick? {
        TickFacts(before, e.rows);
        MaxTsBounds(before.lastTs, Pick(e.rows, before.sent, BUDGET));
      }
    }
  }

  // ----- No duplicates -----

  /** Nothing sent lies beyond the cursor. */
  ghost predicate Behind(s: Sys) {
    forall a | a in s.log :: a.ts <= s.lastTs
  }

  /** Before any prune the set holds the id of everything sent. */
  ghost predicate Unpruned(s: Sys) {
    s.sent == Ids(s.log) && UniqueIds(s.log)
  }

  lemma UniqueIdsConcat(xs: seq<Alert>, ys: seq<Alert>)
    requires UniqueIds(xs) && UniqueIds(ys) && forall a | a in ys :: a.id !in Ids(xs)
    ensures UniqueIds(xs + ys)
  {
    forall i, j | 0 <= i < |xs| && 0 <= j < |ys|
      ensures xs[i].id != ys[j].id
    {
      assert xs[i] in xs && ys[j] in ys;
    }
  }

  /** Even after a prune, a tick behind which everything was sent repeats only alerts at its cursor. */
  lemma TickKeepsBehind(s: Sys, rows: seq<Alert>, kept: set<string>)
    requires Behind(s) && Allowed(s, Tick(rows, kept))
    ensures forall a | a in Pick(rows, s.sent, BUDGET) && a in s.log :: a.ts == s.lastTs
    ensures Behind(Next(s, Tick(rows, kept)))
  {
    var events := Pick(rows, s.sent, BUDGET);
    TickFacts(s, rows);
    MaxTsBounds(s.lastTs, events);
    forall a | a in s.log + events
      ensures a.ts <= MaxTs(s.lastTs, events)
    {
      if a in events {
        var i :| 0 <= i < |events| && events[i] == a;
      }
    }
  }

  /** The tick makes the set of ids large enough to be pruned. */
  predicate Overflows(s: Sys, rows: seq<Alert>) {
    |s.sent + Ids(Pick(rows, s.sent, BUDGET))| > 10000
  }

  ghost predicate NeverPrunes(s: Sys, es: seq<Event>) {
    forall i | 0 <= i < |es| && es[i].Tick? :: !Overflows(Exec(s, es[..i]), es[i].rows)
  }

  /** While the set has not been pruned, a tick sends only alerts never sent before. */
  lemma TickSendsOnlyNew(s: Sys, rows: seq<Alert>, kept: set<string>)
    requires Unpruned(s) && Allowed(s, Tick(rows, kept)) && !Overflows(s, rows)
    ensures Unpruned(Next(s, Tick(rows, kept)))
    ensures forall a | a in Pick(rows, s.sent, BUDGET) :: a !in s.log
  {
    var events := Pick(rows, s.sent, BUDGET);
    TickFacts(s, rows);
    UniqueIdsConcat(s.log, events);
    IdsConcat(s.log, events);
  }

  /** A nonempty run is a shorter run followed by one event. */
  lemma RunInit(s: Sys, es: seq<Event>)
    requires es != [] && AllAllowed(s, es)
    ensures AllAllowed(s, es[..|es| - 1]) && Allowed(Exec(s, es[..|es| - 1]), es[|es| - 1])
  {
    PrefixAllowed(s, es, |es| - 1);
    assert Allowed(Exec(s, es[..|es| - 1]), es[|es| - 1]);
  }

  lemma NeverPrunesInit(s: Sys, es: seq<Event>)
    requires es != [] && NeverPrunes(s, es)
    ensures NeverPrunes(s, es[..|es| - 1])
    ensures es[|es| - 1].Tick? ==> !Overflows(Exec(s, es[..|es| - 1]), es[|es| - 1].rows)
  {
    var n := |es| - 1;
    forall i | 0 <= i < n && es[..n][i].Tick?
      ensures !Overflows(Exec(s, es[..n][..i]), es[..n][i].rows)
    {
      assert es[..n][..i] == es[..i];
    }
  }

  /** Over every run without a prune, late inserts, clears and idle turns included, no id is sent twice. */
  lemma {:induction false} NothingSentTwice(s: Sys, es: seq<Event>)
    requires Unpruned(s) && AllAllowed(s, es) && NeverPrunes(s, es)
    ensures Unpruned(Exec(s, es))
  {
    if es != [] {
      var past, e := es[..|es| - 1], es[|es| - 1];
      RunInit(s, es);
      NeverPrunesInit(s, es);
      NothingSentTwice(s, past);
      if e.Tick? {
        TickSendsOnlyNew(Exec(s, past), e.rows, e.kept);
      }
    }
  }

  /** So a new connection sends no id twice until its first prune. */
  lemma NewConnectionSendsOnce(stored: seq<Alert>, now: real, es: seq<Event>)
    requires var s := Sys(FirstWins(stored), now - 3600.0, now - 3600.0, {}, []);
             AllAllowed(s, es) && NeverPrunes(s, es)
    ensures UniqueIds(Exec(Sys(FirstWins(stored), now - 3600.0, now - 3600.0, {}, []), es).log)
  {
    StartsInvariant(stored, now);
    NothingSentTwice(Sys(FirstWins(stored), now - 3600.0, now - 3600.0, {}, []), es);
  }

  // ----- Draining a backlog -----

  /** The stored alerts at or after the cursor that are still to be sent. */
  function Backlog(s: Sys): set<Alert> {
    set a | a in s.store && a.ts >= s.lastTs && Unsent(a, s.sent)
  }

  lemma {:induction false} UniqueCount(xs: seq<Alert>)
    requires UniqueIds(xs)
    ensures |set a | a in xs| == |xs|
  {
    if xs != [] {
      UniqueCount(xs[1..]);
      assert xs == [xs[0]] + xs[1..];
      assert (set a | a in xs) == {xs[0]} + set a | a in xs[1..];
    }
  }

  /** Only the event itself carries an event's id. */
  lemma EventIds(s: Sys, rows: seq<Alert>, a: Alert)
    requires UniqueIds(s.store) && IsTickRead(s, rows) && a in s.store
    ensures a.id in Ids(Pick(rows, s.sent, BUDGET)) <==> a in Pick(rows, s.sent, BUDGET)
  {
    var events := Pick(rows, s.sent, BUDGET);
    TickFacts(s, rows);
    forall b | b in events && b.id == a.id
      ensures a == b
    {
      SameIdSameAlert(s.store, a, b);
    }
  }

  /** A tick without pruning takes exactly its events off the backlog. */
  lemma BacklogAfterTick(s: Sys, rows: seq<Alert>, kept: set<string>)
    requires UniqueIds(s.store) && Allowed(s, Tick(rows, kept)) && !Overflows(s, rows)
    ensures var sentNow := set a | a in Pick(rows, s.sent, BUDGET);
            sentNow <= Backlog(s) && Backlog(Next(s, Tick(rows, kept))) == Backlog(s) - sentNow
  {
    var events, s' := Pick(rows, s.sent, BUDGET), Next(s, Tick(rows, kept));
    TickFacts(s, rows);
    MaxTsBounds(s.lastTs, events);
    forall a | a in s.store
      ensures a in Backlog(s') <==> a in Backlog(s) && a !in events
    {
      EventIds(s, rows, a);
    }
  }

  lemma BacklogSize(s: Sys, rows: seq<Alert>)
    requires IsTickRead(s, rows)
    ensures |Backlog(s)| == |UnsentRows(rows, s.sent)|
  {
    var unsent := UnsentRows(rows, s.sent);
    TickCount(s, rows);
    UnsentRowsFacts(rows, s.sent);
    UniqueCount(unsent);
    assert Backlog(s) == set a | a in unsent;
  }

  /** One tick without pruning takes min(50, n) alerts off a backlog of n. */
  lemma TickDrains(s: Sys, rows: seq<Alert>, kept: set<string>)
    requires UniqueIds(s.store) && Allowed(s, Tick(rows, kept)) && !Overflows(s, rows)
    ensures var n := |Backlog(s)|;
            |Backlog(Next(s, Tick(rows, kept)))| == n - if n < 50 then n else 50
  {
    var events := Pick(rows, s.sent, BUDGET);
    BacklogAfterTick(s, rows, kept);
    BacklogSize(s, rows);
    TickCount(s, rows);
    TickFacts(s, rows);
    UniqueCount(events);
  }

  ghost predicate OnlyTicks(es: seq<Event>) {
    forall i | 0 <= i < |es| :: es[i].Tick?
  }

  /** A backlog of `n` after `ticks` ticks of fifty. */
  function Left(n: nat, ticks: nat): nat {
    if n <= 50 * ticks then 0 else n - 50 * ticks
  }

  lemma {:induction false} TicksDrain(s: Sys, es: seq<Event>)
    requires UniqueIds(s.store) && AllAllowed(s, es) && OnlyTicks(es) && NeverPrunes(s, es)
    ensures Exec(s, es).store == s.store
    ensures |Backlog(Exec(s, es))| == Left(|Backlog(s)|, |es|)
  {
    if es != [] {
      var past, e := es[..|es| - 1], es[|es| - 1];
      assert e == Tick(e.rows, e.kept);
      RunInit(s, es);
      NeverPrunesInit(s, es);
      TicksDrain(s, past);
      TickDrains(Exec(s, past), e.rows, e.kept);
    }
  }

  /** With no inserts and no prune, a backlog of n is drained after ceil(n / 50) ticks, and not before. */
  lemma BacklogDrains(s: Sys, es: seq<Event>)
    requires UniqueIds(s.store) && AllAllowed(s, es) && OnlyTicks(es) && NeverPrunes(s, es)
    ensures Backlog(Exec(s, es)) == {} <==> |es| >= (|Backlog(s)| + 49) / 50
  {
    TicksDrain(s, es);
    assert Backlog(Exec(s, es)) == {} <==> |Backlog(Exec(s, es))| == 0;
  }

  // ----- Draining a backlog, prunes included -----

  /** The stored alerts of one timestamp. */
  function TiedAt(store: seq<Alert>, ts: real): set<Alert> {
    set a | a in store && a.ts == ts
  }

  /** No timestamp from the cursor on is shared by more alerts than a prune keeps ids. */
  ghost predicate FewTies(s: Sys) {
    forall ts | ts >= s.lastTs :: |TiedAt(s.store, ts)| <= 5000
  }

  /** The stored alerts a tick may still come to: those after the cursor, and the unsent ones at the cursor. */
  function Reach(s: Sys): set<Alert> {
    set a | a in s.store && (a.ts > s.lastTs || (a.ts == s.lastTs && Unsent(a, s.sent)))
  }

  /** Decreases with every tick that sends or prunes: ids forgotten by a prune weigh more than the alerts at the
      cursor that come back for it. */
  function Potential(s: Sys): nat {
    5002 * |Reach(s)| + 5001 * |s.sent|
  }

  lemma {:induction false} IdCount(xs: seq<Alert>)
    requires UniqueIds(xs)
    ensures |Ids(xs)| == |xs|
  {
    if xs != [] {
      IdCount(xs[1..]);
      assert xs == [xs[0]] + xs[1..];
      IdsConcat([xs[0]], xs[1..]);
      assert Ids([xs[0]]) == {xs[0].id};
    }
  }

  lemma SentGrows(s: Sys, rows: seq<Alert>)
    requires IsTickRead(s, rows)
    ensures var events := Pick(rows, s.sent, BUDGET); |s.sent + Ids(events)| == |s.sent| + |events|
  {
    var events := Pick(rows, s.sent, BUDGET);
    TickFacts(s, rows);
    IdCount(events);
    assert s.sent !! Ids(events);
  }

  /** A tick takes its events out of reach; a prune may bring back only alerts at exactly the cursor. */
  lemma ReachAfterTick(s: Sys, rows: seq<Alert>, kept: set<string>)
    requires UniqueIds(s.store) && Allowed(s, Tick(rows, kept))
    ensures var s', sentNow := Next(s, Tick(rows, kept)), set a | a in Pick(rows, s.sent, BUDGET);
            && sentNow <= Reach(s)
            && Reach(s') <= (Reach(s) - sentNow) + if Overflows(s, rows) then TiedAt(s.store, s'.lastTs) else {}
  {
    var events, s' := Pick(rows, s.sent, BUDGET), Next(s, Tick(rows, kept));
    TickFacts(s, rows);
    MaxTsBounds(s.lastTs, events);
    forall b | b in Reach(s')
      ensures (b in Reach(s) && b !in events) || (Overflows(s, rows) && b.ts == s'.lastTs)
    {
      EventIds(s, rows, b);
      if b in events {
        var i :| 0 <= i < |events| && events[i] == b;
      }
    }
  }

  lemma ReachSize(s: Sys, rows: seq<Alert>, kept: set<string>)
    requires UniqueIds(s.store) && Allowed(s, Tick(rows, kept)) && FewTies(s)
    ensures var s', k := Next(s, Tick(rows, kept)), |Pick(rows, s.sent, BUDGET)|;
            |Reach(s')| <= |Reach(s)| - k + if Overflows(s, rows) then 5000 else 0
  {
    var events, s' := Pick(rows, s.sent, BUDGET), Next(s, Tick(rows, kept));
    var sentNow := set a | a in events;
    var back := if Overflows(s, rows) then TiedAt(s.store, s'.lastTs) else {};
    assert |sentNow| == |events| by {
      TickFacts(s, rows);
      UniqueCount(events);
    }
    assert |back| <= 5000 by { MaxTsBounds(s.lastTs, events); }
    ReachAfterTick(s, rows, kept);
    SubsetSize(Reach(s'), Reach(s) - sentNow + back);
    UnionSize(Reach(s) - sentNow, back);
    DifferenceSize(Reach(s), sentNow);
  }

  /** From any state a tick lowers the potential, unless there is nothing to send and nothing to prune. */
  lemma TickLowersPotential(s: Sys, rows: seq<Alert>, kept: set<string>)
    requires UniqueIds(s.store) && Allowed(s, Tick(rows, kept)) && FewTies(s)
    ensures var s' := Next(s, Tick(rows, kept));
            if Backlog(s) == {} && |s.sent| <= 10000 then Backlog(s') == {} else Potential(s') < Potential(s)
  {
    SentGrows(s, rows);
    BacklogSize(s, rows);
    TickCount(s, rows);
    ReachSize(s, rows, kept);
    if !Overflows(s, rows) {
      TickDrains(s, rows, kept);
    }
  }

  /** What the draining needs of a state, and every tick keeps. */
  ghost predicate Drainable(s: Sys) {
    UniqueIds(s.store) && FewTies(s) && |s.sent| <= 10000
  }

  /** `s'` comes from `s` by ticks alone, `n` of them if the backlog is not drained. */
  ghost predicate Drains(s: Sys, s': Sys, n: nat) {
    && Drainable(s') && s'.store == s.store && s'.start == s.start
    && (Backlog(s') == {} || Potential(s') + n <= Potential(s))
  }

  lemma DrainsOn(s: Sys, s': Sys, n: nat, rows: seq<Alert>, kept: set<string>)
    requires Drains(s, s', n) && Allowed(s', Tick(rows, kept))
    ensures Drains(s, Next(s', Tick(rows, kept)), n + 1)
  {
    TickLowersPotential(s', rows, kept);
    MaxTsBounds(s'.lastTs, Pick(rows, s'.sent, BUDGET));
  }

  lemma {:induction false} TicksDrainPruned(s: Sys, es: seq<Event>)
    requires Drainable(s) && AllAllowed(s, es) && OnlyTicks(es)
    ensures Drains(s, Exec(s, es), |es|)
  {
    if es != [] {
      var past, e := es[..|es| - 1], es[|es| - 1];
      assert e == Tick(e.rows, e.kept);
      RunInit(s, es);
      TicksDrainPruned(s, past);
      DrainsOn(s, Exec(s, past), |past|, e.rows, e.kept);
    }
  }

  /** As long as no timestamp from the cursor on is shared by more than 5000 alerts, ticks alone drain every
      backlog, however often the set is pruned and wherever the cursor was set: and if nothing was skipped
      before, each stored alert from the session's start on has then been sent. */
  lemma PrunedBacklogDrains(s: Sys, es: seq<Event>)
    requires Drainable(s) && AllAllowed(s, es) && OnlyTicks(es) && |es| > Potential(s)
    ensures Backlog(Exec(s, es)) == {}
    ensures Inv(s) ==> forall a | a in s.store && a.ts >= s.start :: a in Exec(s, es).log
  {
    TicksDrainPruned(s, es);
    if Inv(s) {
      assert AllTimely(s, es);
      NothingIsMissed(s, es);
      DrainedIsSent(Exec(s, es));
    }
  }

  lemma DrainedIsSent(s: Sys)
    requires Inv(s) && Backlog(s) == {}
    ensures forall a | a in s.store && a.ts >= s.start :: a in s.log
  {
    forall a | a in s.store && a.ts >= s.start
      ensures a in s.log
    {
      if a.ts >= s.lastTs {
        assert a !in Backlog(s);
        SentIsLogged(s, a);
      }
    }
  }

  // ----- Repeats after a prune -----

  /** No idle turn moves the cursor back. */
  ghost predicate ClockForward(s: Sys, es: seq<Event>) {
    forall i | 0 <= i < |es| && es[i].Idle? :: es[i].now >= Exec(s, es[..i]).lastTs
  }

  lemma {:induction false} StaysBehind(s: Sys, es: seq<Event>)
    requires Behind(s) && AllAllowed(s, es) && ClockForward(s, es)
    ensures Behind(Exec(s, es))
  {
    if es != [] {
      var past, e := es[..|es| - 1], es[|es| - 1];
      RunInit(s, es);
      assert forall i | 0 <= i < |past| :: past[..i] == es[..i];
      StaysBehind(s, past);
      if e.Tick? {
        TickKeepsBehind(Exec(s, past), e.rows, e.kept);
      }
    }
  }

  /** Over every run whose idle turns do not move the cursor back, prunes included, the only alerts a tick
      can repeat are those at exactly the cursor's timestamp. */
  lemma RepeatsOnlyAtCursor(s: Sys, es: seq<Event>, rows: seq<Alert>, kept: set<string>)
    requires Behind(s) && AllAllowed(s, es) && ClockForward(s, es) && Allowed(Exec(s, es), Tick(rows, kept))
    ensures var s' := Exec(s, es);
            forall a | a in Pick(rows, s'.sent, BUDGET) && a in s'.log :: a.ts == s'.lastTs
  {
    StaysBehind(s, es);
    TickKeepsBehind(Exec(s, es), rows, kept);
  }

  /** The next tick may send again an alert already sent. */
  ghost predicate CanRepeat(s: Sys) {
    exists rows, kept :: Allowed(s, Tick(rows, kept)) && Repeats(s, rows)
  }

  ghost predicate Repeats(s: Sys, rows: seq<Alert>) {
    exists a :: a in Pick(rows, s.sent, BUDGET) && a in s.log
  }

  /** The backlog before `a`. */
  function Older(s: Sys, a: Alert): set<Alert> {
    set b | b in Backlog(s) && b.ts < a.ts
  }

  /** `a` was sent, is stored at or after the cursor, its id is forgotten, and a tick reaches that far. */
  ghost predicate Repeatable(s: Sys, a: Alert) {
    a in s.log && a in Backlog(s) && |Older(s, a)| < 50
  }

  lemma EarlierCount(xs: seq<Alert>, j: nat, earlier: set<Alert>)
    requires UniqueIds(xs) && OldestFirst(xs) && j < |xs|
    requires forall b | b in earlier :: b in xs && b.ts < xs[j].ts
    ensures |earlier| <= j
  {
    var before := xs[..j];
    forall b | b in earlier
      ensures b in before
    {
      var m :| 0 <= m < |xs| && xs[m] == b;
      assert m < j;
      assert before[m] == b;
    }
    UniqueCount(before);
    SubsetSize(earlier, set b | b in before);
  }

  lemma PickedIsRepeatable(s: Sys, rows: seq<Alert>, a: Alert)
    requires IsTickRead(s, rows) && a in Pick(rows, s.sent, BUDGET) && a in s.log
    ensures Repeatable(s, a)
  {
    var unsent := UnsentRows(rows, s.sent);
    PickIsPrefix(rows, s.sent, BUDGET);
    UnsentRowsFacts(rows, s.sent);
    TickCount(s, rows);
    var j :| 0 <= j < |Pick(rows, s.sent, BUDGET)| && unsent[j] == a;
    assert a in unsent;
    EarlierCount(unsent, j, Older(s, a));
  }

  lemma {:induction false} UnsentConcat(xs: seq<Alert>, ys: seq<Alert>, sent: set<string>)
    ensures UnsentRows(xs + ys, sent) == UnsentRows(xs, sent) + UnsentRows(ys, sent)
  {
    if xs == [] {
      assert xs + ys == ys;
    } else {
      assert (xs + ys)[1..] == xs[1..] + ys;
      UnsentConcat(xs[1..], ys, sent);
      ConcatAssoc(if Unsent(xs[0], sent) then [xs[0]] else [], UnsentRows(xs[1..], sent), UnsentRows(ys, sent));
    }
  }

  lemma UnsentIndex(rows: seq<Alert>, i: nat, sent: set<string>)
    requires i < |rows| && Unsent(rows[i], sent)
    ensures var j, unsent := |UnsentRows(rows[..i], sent)|, UnsentRows(rows, sent);
            j < |unsent| && unsent[j] == rows[i]
  {
    var a, after := rows[i], rows[i + 1..];
    assert rows == rows[..i] + ([a] + after);
    UnsentConcat(rows[..i], [a] + after, sent);
    UnsentConcat([a], after, sent);
  }

  lemma {:induction false} InsertPosition(a: Alert, rows: seq<Alert>) returns (i: nat)
    ensures i < |InsertByTime(a, rows)| && InsertByTime(a, rows)[i] == a
    ensures forall j | 0 <= j < i :: InsertByTime(a, rows)[j].ts < a.ts
  {
    if rows == [] || a.ts <= rows[0].ts {
      i := 0;
    } else {
      i := InsertPosition(a, rows[1..]);
      i := i + 1;
    }
  }

  /** A read that lists `a` first among its equals. */
  lemma ReadWithFirst(s: Sys, a: Alert) returns (rows: seq<Alert>, i: nat)
    requires UniqueIds(s.store) && a in s.store && a.ts >= s.lastTs
    ensures IsTickRead(s, rows) && i < |rows| && rows[i] == a
    ensures forall j | 0 <= j < i :: rows[j].ts < a.ts
  {
    var selected := Select(Since(s.lastTs), s.store);
    SelectMembers(Since(s.lastTs), s.store);
    assert a in selected;
    var m :| 0 <= m < |selected| && selected[m] == a;
    var t := [a] + (selected[..m] + selected[m + 1..]);
    assert selected == selected[..m] + [a] + selected[m + 1..];
    assert multiset(t) == multiset(selected);
    rows := SortByTime(t);
    SortByTimeSorts(t);
    SortByTimePermutes(t);
    UniqueIdsPermuted(selected, rows);
    assert t[0] == a && rows == InsertByTime(a, SortByTime(t[1..]));
    i := InsertPosition(a, SortByTime(t[1..]));
  }

  lemma RepeatableIsPicked(s: Sys, a: Alert) returns (rows: seq<Alert>)
    requires UniqueIds(s.store) && Repeatable(s, a)
    ensures IsTickRead(s, rows) && a in Pick(rows, s.sent, BUDGET)
  {
    var i;
    rows, i := ReadWithFirst(s, a);
    var before := rows[..i];
    var early := UnsentRows(before, s.sent);
    UnsentIndex(rows, i, s.sent);
    UnsentRowsFacts(before, s.sent);
    UniqueCount(early);
    forall b | b in early
      ensures b in Older(s, a)
    {
      assert b in before;
      var j :| 0 <= j < i && rows[j] == b;
      assert b in rows;
    }
    SubsetSize((set b | b in early), Older(s, a));
    PickIsPrefix(rows, s.sent, BUDGET);
  }

  lemma SomePrune(sent: set<string>) returns (kept: set<string>)
    ensures IsPruned(kept, sent)
  {
    kept := sent;
    if |sent| > 10000 {
      kept := SubsetOfSize(sent, 5000);
    }
  }

  /** When the next tick can repeat an alert: exactly when one that was sent is in the backlog, with fewer
      than fifty older alerts before it. */
  lemma CanRepeatIff(s: Sys)
    requires UniqueIds(s.store)
    ensures CanRepeat(s) <==> exists a :: Repeatable(s, a)
  {
    if CanRepeat(s) {
      var rows, kept :| Allowed(s, Tick(rows, kept)) && Repeats(s, rows);
      var a :| a in Pick(rows, s.sent, BUDGET) && a in s.log;
      PickedIsRepeatable(s, rows, a);
    }
    if a :| Repeatable(s, a) {
      var rows := RepeatableIsPicked(s, a);
      var kept := SomePrune(s.sent + Ids(Pick(rows, s.sent, BUDGET)));
      assert Allowed(s, Tick(rows, kept)) && Repeats(s, rows);
    }
  }

  /** The tick repeats an alert away from the cursor. */
  ghost predicate RepeatsBeyond(s: Sys, rows: seq<Alert>) {
    exists a :: a in Pick(rows, s.sent, BUDGET) && a in s.log && a.ts != s.lastTs
  }

  ghost predicate CanRepeatBeyond(s: Sys) {
    exists rows, kept :: Allowed(s, Tick(rows, kept)) && RepeatsBeyond(s, rows)
  }

  /** When the next tick can repeat an alert away from the cursor. */
  lemma CanRepeatBeyondIff(s: Sys)
    requires UniqueIds(s.store)
    ensures CanRepeatBeyond(s) <==> exists a :: Repeatable(s, a) && a.ts > s.lastTs
  {
    if CanRepeatBeyond(s) {
      var rows, kept :| Allowed(s, Tick(rows, kept)) && RepeatsBeyond(s, rows);
      var a :| a in Pick(rows, s.sent, BUDGET) && a in s.log && a.ts != s.lastTs;
      PickedIsRepeatable(s, rows, a);
    }
    if a :| Repeatable(s, a) && a.ts > s.lastTs {
      var rows := RepeatableIsPicked(s, a);
      var kept := SomePrune(s.sent + Ids(Pick(rows, s.sent, BUDGET)));
      assert Allowed(s, Tick(rows, kept)) && RepeatsBeyond(s, rows);
    }
  }

  /** The unsent stored alerts from `now` on that are older than `a`. */
  function UnsentBetween(s: Sys, now: real, a: Alert): set<Alert> {
    set b | b in s.store && now <= b.ts < a.ts && Unsent(b, s.sent)
  }

  /** `a` was sent from after `now`, is stored and forgotten, and a tick starting at `now` reaches it. */
  ghost predicate ComesBack(s: Sys, now: real, a: Alert) {
    && a in s.log && a in s.store && Unsent(a, s.sent) && a.ts > now
    && |UnsentBetween(s, now, a)| < 50
  }

  /** After an idle turn a tick can repeat an alert away from the cursor exactly if one sent from after the time
      of that turn is stored and forgotten, with fewer than fifty unsent ones before it: alert times may run
      ahead of the wall clock. */
  lemma IdleBackRepeatsIff(s: Sys, now: real)
    requires UniqueIds(s.store)
    ensures CanRepeatBeyond(Next(s, Idle(now))) <==> exists a :: ComesBack(s, now, a)
  {
    var s' := Next(s, Idle(now));
    CanRepeatBeyondIff(s');
    forall a
      ensures Repeatable(s', a) && a.ts > s'.lastTs <==> ComesBack(s, now, a)
    {
      assert Older(s', a) == UnsentBetween(s, now, a);
    }
  }

  // ----- Repeats whatever the order of equal timestamps -----

  /** The backlog up to the time of `a`. */
  function NotNewer(s: Sys, a: Alert): set<Alert> {
    set b | b in Backlog(s) && b.ts <= a.ts
  }

  lemma UpToCount(xs: seq<Alert>, j: nat, upTo: set<Alert>)
    requires UniqueIds(xs) && OldestFirst(xs) && j < |xs|
    requires forall b | b in xs && b.ts <= xs[j].ts :: b in upTo
    ensures j < |upTo|
  {
    var first := xs[..j + 1];
    UniqueCount(first);
    forall b | b in first
      ensures b in upTo
    {
      var m :| 0 <= m <= j && xs[m] == b;
    }
    SubsetSize((set b | b in first), upTo);
  }

  lemma AlwaysReached(s: Sys, rows: seq<Alert>, a: Alert)
    requires IsTickRead(s, rows) && a in Backlog(s) && |NotNewer(s, a)| <= 50
    ensures a in Pick(rows, s.sent, BUDGET)
  {
    var unsent := UnsentRows(rows, s.sent);
    PickIsPrefix(rows, s.sent, BUDGET);
    UnsentRowsFacts(rows, s.sent);
    TickCount(s, rows);
    assert a in unsent;
    var j :| 0 <= j < |unsent| && unsent[j] == a;
    UpToCount(unsent, j, NotNewer(s, a));
    assert Pick(rows, s.sent, BUDGET)[j] == a;
  }

  lemma {:induction false} InsertKeepsLast(x: Alert, rows: seq<Alert>, i: nat) returns (k: nat)
    requires i < |rows| && forall j | i < j < |rows| :: rows[j].ts > rows[i].ts
    ensures var sorted := InsertByTime(x, rows);
            k < |sorted| && sorted[k] == rows[i] && forall j | k < j < |sorted| :: sorted[j].ts > rows[i].ts
  {
    if x.ts <= rows[0].ts {
      k := i + 1;
    } else if i == 0 {
      k := 0;
      var rest := InsertByTime(x, rows[1..]);
      InsertByTimeAdds(x, rows[1..]);
      forall j | 0 <= j < |rest|
        ensures rest[j].ts > rows[0].ts
      {
        assert rest[j] in multiset(rest);
        assert rest[j] == x || rest[j] in rows[1..];
      }
    } else {
      k := InsertKeepsLast(x, rows[1..], i - 1);
      k := k + 1;
    }
  }

  lemma {:induction false} SortsLast(t: seq<Alert>, a: Alert) returns (k: nat)
    ensures var sorted := SortByTime(t + [a]);
            k < |sorted| && sorted[k] == a && forall j | k < j < |sorted| :: sorted[j].ts > a.ts
  {
    if t == [] {
      assert t + [a] == [a] && [a][1..] == [];
      k := 0;
    } else {
      k := SortsLast(t[1..], a);
      assert (t + [a])[1..] == t[1..] + [a];
      k := InsertKeepsLast(t[0], SortByTime(t[1..] + [a]), k);
    }
  }

  /** A read that lists `a` last among its equals. */
  lemma ReadWithLast(s: Sys, a: Alert) returns (rows: seq<Alert>, i: nat)
    requires UniqueIds(s.store) && a in s.store && a.ts >= s.lastTs
    ensures IsTickRead(s, rows) && i < |rows| && rows[i] == a
    ensures forall j | i < j < |rows| :: rows[j].ts > a.ts
  {
    var selected := Select(Since(s.lastTs), s.store);
    SelectMembers(Since(s.lastTs), s.store);
    assert a in selected;
    var m :| 0 <= m < |selected| && selected[m] == a;
    var t := selected[..m] + selected[m + 1..];
    assert selected == selected[..m] + [a] + selected[m + 1..];
    assert multiset(t + [a]) == multiset(selected);
    rows := SortByTime(t + [a]);
    SortByTimeSorts(t + [a]);
    SortByTimePermutes(t + [a]);
    UniqueIdsPermuted(selected, rows);
    i := SortsLast(t, a);
  }

  lemma NotNewerIsRead(s: Sys, rows: seq<Alert>, i: nat)
    requires IsTickRead(s, rows) && i < |rows| && forall j | i < j < |rows| :: rows[j].ts > rows[i].ts
    ensures |NotNewer(s, rows[i])| <= |UnsentRows(rows[..i], s.sent)| + 1
  {
    var before, a := rows[..i], rows[i];
    var early := UnsentRows(before, s.sent);
    UnsentRowsFacts(before, s.sent);
    UniqueCount(early);
    forall b | b in NotNewer(s, a)
      ensures b in early || b == a
    {
      assert b in rows;
      var j :| 0 <= j < |rows| && rows[j] == b;
      assert j < i ==> before[j] == b;
    }
    SubsetSize(NotNewer(s, a), (set b | b in early) + {a});
    UnionSize((set b | b in early), {a});
  }

  lemma BeyondBudget(unsent: seq<Alert>, j: nat)
    requires UniqueIds(unsent) && BUDGET <= j < |unsent|
    ensures unsent[j] !in unsent[..BUDGET]
  {
    assert forall i | 0 <= i < BUDGET :: unsent[..BUDGET][i].id != unsent[j].id;
  }

  lemma LeftBehind(s: Sys, a: Alert) returns (rows: seq<Alert>)
    requires UniqueIds(s.store) && a in Backlog(s) && |NotNewer(s, a)| > 50
    ensures IsTickRead(s, rows) && a !in Pick(rows, s.sent, BUDGET)
  {
    var i;
    rows, i := ReadWithLast(s, a);
    NotNewerIsRead(s, rows, i);
    UnsentIndex(rows, i, s.sent);
    UnsentRowsFacts(rows, s.sent);
    BeyondBudget(UnsentRows(rows, s.sent), |UnsentRows(rows[..i], s.sent)|);
    PickIsPrefix(rows, s.sent, BUDGET);
  }

  /** When the next tick sends an alert of the backlog in whatever order equal timestamps are read: exactly when
      at most fifty alerts of the backlog, itself included, are no newer. */
  lemma AlwaysSentIff(s: Sys, a: Alert)
    requires UniqueIds(s.store) && a in Backlog(s)
    ensures (forall rows | IsTickRead(s, rows) :: a in Pick(rows, s.sent, BUDGET)) <==> |NotNewer(s, a)| <= 50
  {
    if |NotNewer(s, a)| <= 50 {
      forall rows | IsTickRead(s, rows)
        ensures a in Pick(rows, s.sent, BUDGET)
      {
        AlwaysReached(s, rows, a);
      }
    } else {
      var rows := LeftBehind(s, a);
    }
  }

  /** So after an idle turn to before a forgotten alert, every next tick sends it again, away from the cursor,
      exactly if at most fifty unsent alerts lie between that turn and the alert, itself included. */
  lemma IdleBackRepeats(s: Sys, now: real, a: Alert)
    requires UniqueIds(s.store) && a in s.log && a in s.store && Unsent(a, s.sent) && now < a.ts
    ensures var s' := Next(s, Idle(now));
            && a in s'.log && a.ts > s'.lastTs
            && ((forall rows | IsTickRead(s', rows) :: a in Pick(rows, s'.sent, BUDGET)) <==>
                  |set b | b in s.store && now <= b.ts <= a.ts && Unsent(b, s.sent)| <= 50)
  {
    var s' := Next(s, Idle(now));
    AlwaysSentIff(s', a);
    assert NotNewer(s', a) == set b | b in s.store && now <= b.ts <= a.ts && Unsent(b, s.sent);
  }

  // ----- From an unpruned state to a repeat -----

  lemma UnprunedCannotRepeat(s: Sys)
    requires UniqueIds(s.store) && Unpruned(s)
    ensures !CanRepeat(s)
  {
    CanRepeatIff(s);
    forall a | a in s.log
      ensures !Repeatable(s, a)
    {
      assert a.id in Ids(s.log);
    }
  }

  /** The last alert a tick sends is at its new cursor. */
  lemma EventAtCursor(s: Sys, rows: seq<Alert>) returns (a: Alert)
    requires IsTickRead(s, rows) && Pick(rows, s.sent, BUDGET) != []
    ensures var events := Pick(rows, s.sent, BUDGET); a in events && a in s.store && a.ts == MaxTs(s.lastTs, events)
  {
    var events := Pick(rows, s.sent, BUDGET);
    TickFacts(s, rows);
    MaxTsBounds(s.lastTs, events);
    a := events[0];
    if a.ts != MaxTs(s.lastTs, events) {
      assert a in rows;
      var i :| 0 <= i < |events| && events[i].ts == MaxTs(s.lastTs, events);
      a := events[i];
    }
    assert a in rows;
  }

  /** A prune that forgets an alert at the cursor. */
  lemma PruneCanForget(s: Sys, rows: seq<Alert>) returns (kept: set<string>, a: Alert)
    requires UniqueIds(s.store) && |s.sent| <= 10000 && IsTickRead(s, rows) && Overflows(s, rows)
    ensures Allowed(s, Tick(rows, kept))
    ensures var s' := Next(s, Tick(rows, kept));
            a in s'.log && a in s'.store && Unsent(a, s'.sent) && a.ts == s'.lastTs
  {
    SentGrows(s, rows);
    var all := s.sent + Ids(Pick(rows, s.sent, BUDGET));
    a := EventAtCursor(s, rows);
    kept := SubsetOfSize(all - {a.id}, 5000);
  }

  /** It lets the next tick send that alert again. */
  lemma PruneForgets(s: Sys, rows: seq<Alert>) returns (kept: set<string>)
    requires UniqueIds(s.store) && |s.sent| <= 10000 && IsTickRead(s, rows) && Overflows(s, rows)
    ensures Allowed(s, Tick(rows, kept)) && CanRepeat(Next(s, Tick(rows, kept)))
  {
    var a;
    kept, a := PruneCanForget(s, rows);
    var s' := Next(s, Tick(rows, kept));
    assert Older(s', a) == {};
    assert Repeatable(s', a);
    CanRepeatIff(s');
  }

  /** A time before `ts`, with no alert of the store in between. */
  lemma {:induction false} JustBefore(store: seq<Alert>, ts: real) returns (now: real)
    ensures now < ts && forall b | b in store :: !(now <= b.ts < ts)
  {
    if store == [] {
      now := ts - 1.0;
    } else {
      now := JustBefore(store[1..], ts);
      assert store == [store[0]] + store[1..];
      if now <= store[0].ts < ts {
        now := (store[0].ts + ts) / 2.0;
      }
    }
  }

  /** It also lets an idle turn just before that alert bring it back away from the cursor. */
  lemma PruneThenIdleRepeatsBeyond(s: Sys, rows: seq<Alert>) returns (kept: set<string>, now: real)
    requires UniqueIds(s.store) && |s.sent| <= 10000 && IsTickRead(s, rows) && Overflows(s, rows)
    ensures Allowed(s, Tick(rows, kept))
    ensures CanRepeatBeyond(Next(Next(s, Tick(rows, kept)), Idle(now)))
  {
    var a;
    kept, a := PruneCanForget(s, rows);
    var s' := Next(s, Tick(rows, kept));
    now := JustBefore(s.store, a.ts);
    assert UnsentBetween(s', now, a) == {};
    assert ComesBack(s', now, a);
    IdleBackRepeatsIff(s', now);
  }

  /** From an unpruned state a tick can open the way to a repeat exactly if it takes the set above 10000 ids. */
  lemma PruneOpensRepeatIff(s: Sys, rows: seq<Alert>)
    requires UniqueIds(s.store) && Unpruned(s) && |s.sent| <= 10000 && IsTickRead(s, rows)
    ensures Overflows(s, rows) <==>
              exists kept :: Allowed(s, Tick(rows, kept)) && CanRepeat(Next(s, Tick(rows, kept)))
  {
    if Overflows(s, rows) {
      var kept := PruneForgets(s, rows);
    } else {
      forall kept | Allowed(s, Tick(rows, kept))
        ensures !CanRepeat(Next(s, Tick(rows, kept)))
      {
        TickSendsOnlyNew(s, rows, kept);
        UnprunedCannotRepeat(Next(s, Tick(rows, kept)));
      }
    }
  }

  lemma {:induction false} RunFacts(s: Sys, es: seq<Event>)
    requires UniqueIds(s.store) && |s.sent| <= 10000 && AllAllowed(s, es)
    ensures UniqueIds(Exec(s, es).store) && |Exec(s, es).sent| <= 10000
  {
    if es != [] {
      var past, e := es[..|es| - 1], es[|es| - 1];
      RunInit(s, es);
      RunFacts(s, past);
      if e.Insert? && e.alert.id !in Ids(Exec(s, past).store) {
        UniqueIdsSnoc(Exec(s, past).store, e.alert);
      }
    }
  }

  /** The first prune is what breaks "nothing is sent twice": after any run without one the next tick repeats
      nothing, and the tick after that can repeat something exactly if this one takes the set above 10000. */
  lemma FirstPruneOpensRepeatIff(s: Sys, es: seq<Event>, rows: seq<Alert>)
    requires UniqueIds(s.store) && Unpruned(s) && |s.sent| <= 10000
    requires AllAllowed(s, es) && NeverPrunes(s, es) && IsTickRead(Exec(s, es), rows)
    ensures !CanRepeat(Exec(s, es))
    ensures Overflows(Exec(s, es), rows) <==>
              exists kept :: && Allowed(Exec(s, es), Tick(rows, kept))
                             && CanRepeat(Next(Exec(s, es), Tick(rows, kept)))
  {
    RunFacts(s, es);
    NothingSentTwice(s, es);
    UnprunedCannotRepeat(Exec(s, es));
    PruneOpensRepeatIff(Exec(s, es), rows);
  }

  lemma {:induction false} ExecConcat(s: Sys, es: seq<Event>, fs: seq<Event>)
    ensures Exec(s, es + fs) == Exec(Exec(s, es), fs)
  {
    if fs == [] {
      assert es + fs == es;
    } else {
      assert (es + fs)[..|es + fs| - 1] == es + fs[..|fs| - 1];
      ExecConcat(s, es, fs[..|fs| - 1]);
    }
  }

  lemma AllAllowedConcat(s: Sys, es: seq<Event>, fs: seq<Event>)
    requires AllAllowed(s, es) && AllAllowed(Exec(s, es), fs)
    ensures AllAllowed(s, es + fs)
  {
    var all := es + fs;
    forall i | 0 <= i < |all|
      ensures Allowed(Exec(s, all[..i]), all[i])
    {
      if i < |es| {
        assert all[..i] == es[..i];
      } else {
        assert all[..i] == es + fs[..i - |es|];
        ExecConcat(s, es, fs[..i - |es|]);
      }
    }
  }

  lemma OneEvent(s: Sys, e: Event)
    ensures Exec(s, [e]) == Next(s, e)
    ensures Allowed(s, e) ==> AllAllowed(s, [e])
  {
    assert [e][..0] == [];
  }

  lemma SomeRead(s: Sys) returns (rows: seq<Alert>)
    requires UniqueIds(s.store)
    ensures IsTickRead(s, rows)
  {
    InsertionEngineSorts();
    rows := InsertionEngine().oldestFirst(Select(Since(s.lastTs), s.store));
    EngineReads(InsertionEngine(), s.store, Since(s.lastTs));
  }

  /** A run of ticks from `s` to `s'` that remembers every id. */
  ghost predicate Remembers(s: Sys, es: seq<Event>, s': Sys) {
    && AllAllowed(s, es) && OnlyTicks(es) && s' == Exec(s, es)
    && s'.store == s.store && s.sent <= s'.sent && |s'.sent| <= 10000 && s.lastTs <= s'.lastTs
  }

  lemma RemembersOn(s: Sys, rows: seq<Alert>, es: seq<Event>, s': Sys)
    requires UniqueIds(s.store) && IsTickRead(s, rows) && !Overflows(s, rows)
    requires var e := Tick(rows, s.sent + Ids(Pick(rows, s.sent, BUDGET))); Remembers(Next(s, e), es, s')
    ensures var e := Tick(rows, s.sent + Ids(Pick(rows, s.sent, BUDGET))); Remembers(s, [e] + es, s')
  {
    var e := Tick(rows, s.sent + Ids(Pick(rows, s.sent, BUDGET)));
    OneEvent(s, e);
    ExecConcat(s, [e], es);
    AllAllowedConcat(s, [e], es);
    MaxTsBounds(s.lastTs, Pick(rows, s.sent, BUDGET));
  }

  /** With more than 10000 alerts sent and still to send, some ticks without a prune lead to one that overflows;
      the cursor stays within the backlog, up to `top`. */
  lemma {:induction false} LongBacklogOverflows(s: Sys, top: real) returns (es: seq<Event>, s': Sys, rows: seq<Alert>)
    requires UniqueIds(s.store) && |s.sent| <= 10000 && |s.sent| + |Backlog(s)| > 10000
    requires s.lastTs <= top && forall b | b in Backlog(s) :: b.ts <= top
    ensures Remembers(s, es, s') && IsTickRead(s', rows) && Overflows(s', rows)
    ensures MaxTs(s'.lastTs, Pick(rows, s'.sent, BUDGET)) <= top
    decreases |Backlog(s)|
  {
    rows := SomeRead(s);
    SentGrows(s, rows);
    TickFacts(s, rows);
    EventsWithin(s, rows, top);
    if Overflows(s, rows) {
      es, s' := [], s;
    } else {
      var e := Tick(rows, s.sent + Ids(Pick(rows, s.sent, BUDGET)));
      BacklogSize(s, rows);
      TickCount(s, rows);
      BacklogAfterTick(s, rows, e.kept);
      TickDrains(s, rows, e.kept);
      var first := rows;
      es, s', rows := LongBacklogOverflows(Next(s, e), top);
      RemembersOn(s, first, es, s');
      es := [e] + es;
    }
  }

  lemma EventsWithin(s: Sys, rows: seq<Alert>, top: real)
    requires IsTickRead(s, rows) && s.lastTs <= top && forall b | b in Backlog(s) :: b.ts <= top
    ensures MaxTs(s.lastTs, Pick(rows, s.sent, BUDGET)) <= top
  {
    var events := Pick(rows, s.sent, BUDGET);
    TickFacts(s, rows);
    MaxTsBounds(s.lastTs, events);
    if MaxTs(s.lastTs, events) != s.lastTs {
      var i :| 0 <= i < |events| && events[i].ts == MaxTs(s.lastTs, events);
      assert events[i] in events;
      assert events[i] in Backlog(s);
    }
  }

  lemma SomeTop(s: Sys) returns (top: real)
    ensures s.lastTs <= top && forall b | b in Backlog(s) :: b.ts <= top
  {
    top := MaxTs(s.lastTs, s.store);
    MaxTsBounds(s.lastTs, s.store);
  }

  /** The code does send alerts twice: whenever a connection has more than 10000 alerts sent and still to send,
      there are ticks after which the next one can repeat an alert. */
  lemma LongBacklogRepeats(s: Sys) returns (es: seq<Event>)
    requires UniqueIds(s.store) && |s.sent| <= 10000 && |s.sent| + |Backlog(s)| > 10000
    ensures AllAllowed(s, es) && OnlyTicks(es) && CanRepeat(Exec(s, es))
  {
    var top := SomeTop(s);
    var s', rows;
    es, s', rows := LongBacklogOverflows(s, top);
    var kept := PruneForgets(s', rows);
    OneEvent(s', Tick(rows, kept));
    ExecConcat(s, es, [Tick(rows, kept)]);
    AllAllowedConcat(s, es, [Tick(rows, kept)]);
    es := es + [Tick(rows, kept)];
  }

  /** And there are ticks and one idle turn after which the next tick can repeat an alert away from the
      cursor. */
  lemma LongBacklogRepeatsBeyond(s: Sys) returns (es: seq<Event>)
    requires UniqueIds(s.store) && |s.sent| <= 10000 && |s.sent| + |Backlog(s)| > 10000
    ensures AllAllowed(s, es) && CanRepeatBeyond(Exec(s, es))
  {
    var top := SomeTop(s);
    var s', rows;
    es, s', rows := LongBacklogOverflows(s, top);
    var kept, now := PruneThenIdleRepeatsBeyond(s', rows);
    var tick, idle := Tick(rows, kept), Idle(now);
    OneEvent(s', tick);
    OneEvent(Next(s', tick), idle);
    ExecConcat(s', [tick], [idle]);
    AllAllowedConcat(s', [tick], [idle]);
    ExecConcat(s, es, [tick] + [idle]);
    AllAllowedConcat(s, es, [tick] + [idle]);
    es := es + ([tick] + [idle]);
  }

  // ----- More ties than a prune keeps ids -----

  /** 5000 other ids remembered, and more than 5000 unsent alerts at one timestamp, the last one. */
  ghost predicate ManyTies(s: Sys, ts: real) {
    && UniqueIds(s.store) && |s.sent| == 5000 && |Backlog(s)| > 5000
    && forall b | b in Backlog(s) :: b.ts == ts
  }

  /** Sending them overflows the set, and a prune that keeps the old ids brings all of them back. */
  lemma TiesComeBack(s: Sys, ts: real) returns (es: seq<Event>)
    requires ManyTies(s, ts)
    ensures es != [] && AllAllowed(s, es) && OnlyTicks(es)
    ensures ManyTies(Exec(s, es), ts) && Backlog(Exec(s, es)) == Backlog(s)
  {
    var b :| b in Backlog(s);
    var s', rows;
    es, s', rows := LongBacklogOverflows(s, ts);
    var e := Tick(rows, s.sent);
    MaxTsBounds(s'.lastTs, Pick(rows, s'.sent, BUDGET));
    OneEvent(s', e);
    ExecConcat(s, es, [e]);
    AllAllowedConcat(s, es, [e]);
    es := es + [e];
    var s'' := Next(s', e);
    assert Exec(s, es) == s'';
    assert Backlog(s'') == Backlog(s);
  }

  /** The bound of 5000 is the right one: more alerts than that at the last timestamp may never drain, with
      5000 other ids remembered. */
  lemma {:induction false} TiesNeverDrain(s: Sys, ts: real, n: nat) returns (es: seq<Event>)
    requires ManyTies(s, ts)
    ensures |es| >= n && AllAllowed(s, es) && OnlyTicks(es)
    ensures ManyTies(Exec(s, es), ts) && Backlog(Exec(s, es)) == Backlog(s) != {}
    decreases n
  {
    if n == 0 {
      es := [];
    } else {
      var cycle := TiesComeBack(s, ts);
      es := TiesNeverDrain(Exec(s, cycle), ts, n - 1);
      ExecConcat(s, cycle, es);
      AllAllowedConcat(s, cycle, es);
      es := cycle + es;
    }
  }

  lemma PickStep(rows: seq<Alert>, i: nat, sent: set<string>, budget: nat)
    requires i < |rows| && budget > 0
    ensures Pick(rows[i..], sent, budget) ==
            if rows[i].id in sent then Pick(rows[i + 1..], sent, budget)
            else [rows[i]] + Pick(rows[i + 1..], sent + {rows[i].id}, budget - 1)
  {
    assert rows[i..][1..] == rows[i + 1..];
  }

  lemma MaxTsSnoc(ts: real, events: seq<Alert>, a: Alert)
    ensures MaxTs(ts, events + [a]) == if a.ts > MaxTs(ts, events) then a.ts else MaxTs(ts, events)
  {
    assert (events + [a])[..|events|] == events;
  }

  /** The send loop after `i` rows, from the state `sent0`, `ts0`. */
  ghost predicate Sending(rows: seq<Alert>, i: nat, events: seq<Alert>, sent0: set<string>, ts0: real,
                          sent: set<string>, ts: real)
  {
    && i <= |rows| && |events| <= BUDGET
    && events + Pick(rows[i..], sent, BUDGET - |events|) == Pick(rows, sent0, BUDGET)
    && sent == sent0 + Ids(events)
    && ts == MaxTs(ts0, events)
  }

  lemma SendStep(rows: seq<Alert>, i: nat, events: seq<Alert>, sent0: set<string>, ts0: real,
                 sent: set<string>, ts: real)
    requires Sending(rows, i, events, sent0, ts0, sent, ts) && i < |rows| && |events| < BUDGET
    ensures var a := rows[i];
            if a.id in sent then Sending(rows, i + 1, events, sent0, ts0, sent, ts)
            else Sending(rows, i + 1, events + [a], sent0, ts0, sent + {a.id}, if a.ts > ts then a.ts else ts)
  {
    var a := rows[i];
    PickStep(rows, i, sent, BUDGET - |events|);
    if a.id !in sent {
      MaxTsSnoc(ts0, events, a);
      IdsSnoc(events, a);
      ConcatAssoc(events, [a], Pick(rows[i + 1..], sent + {a.id}, BUDGET - |events| - 1));
    }
  }

  // ----- The generator's state -----

  class Connection {
    var lastTs: real
    var sentAlertIds: set<string>
    const store: Store
    ghost var start: real
    ghost var log: seq<Alert>

    ghost function Abs(): Sys
      reads this, store
    {
      Sys(FirstWins(store.Log()), start, lastTs, sentAlertIds, log)
    }

    constructor (store: Store, now: real)
      requires store.Valid()
      ensures this.store == store && Abs() == Sys(FirstWins(store.Log()), now - 3600.0, now - 3600.0, {}, [])
    {
      this.store, lastTs, sentAlertIds, start, log := store, now - 3600.0, {}, now - 3600.0, [];
    }

    /** One turn of the generator: while a replay runs, reads and sends; otherwise moves the cursor to now.
        A database error ends the generator: nothing is sent and the connection's state stays as it is. */
    method Turn(replayRunning: bool, now: real, dbOk: bool) returns (events: Option<seq<Alert>>)
      requires store.Valid()
      modifies this, store
      ensures store.Valid()
      ensures events.None? ==> replayRunning && !dbOk
      ensures events.None? ==>
                lastTs == old(lastTs) && sentAlertIds == old(sentAlertIds) && start == old(start) && log == old(log)
      ensures !replayRunning ==> events == Some([]) && Abs() == Next(old(Abs()), Idle(now))
      ensures replayRunning && events.Some? ==>
                var rows := store.engine.oldestFirst(Select(Since(old(lastTs)), FirstWins(old(store.Log()))));
                var e := Tick(rows, sentAlertIds);
                && Allowed(old(Abs()), e) && Abs() == Next(old(Abs()), e)
                && events.value == Pick(rows, old(sentAlertIds), BUDGET)
    {
      if !replayRunning {
        lastTs, start := now, now;
        return Some([]);
      }
      var read := store.ReadAlerts(Since(lastTs), dbOk);
      if read.None? {
        return None;
      }
      var sent := SendRead(read.value);
      events := Some(sent);
    }

    /** One tick over the rows read. */
    method SendRead(rows: seq<Alert>) returns (events: seq<Alert>)
      requires IsTickRead(Abs(), rows)
      modifies this
      ensures var e := Tick(rows, sentAlertIds); Allowed(old(Abs()), e) && Abs() == Next(old(Abs()), e)
      ensures events == Pick(rows, old(sentAlertIds), BUDGET)
    {
      events := Send(rows);
      Prune();
      log := log + events;
    }

    /** Sends the unsent rows in order, up to the budget. */
    method Send(rows: seq<Alert>) returns (events: seq<Alert>)
      modifies this`lastTs, this`sentAlertIds
      ensures events == Pick(rows, old(sentAlertIds), BUDGET)
      ensures sentAlertIds == old(sentAlertIds) + Ids(events)
      ensures lastTs == MaxTs(old(lastTs), events)
    {
      var sent, ts, i := sentAlertIds, lastTs, 0;
      events := [];
      while i < |rows| && |events| < BUDGET
        modifies {}
        invariant Sending(rows, i, events, sentAlertIds, lastTs, sent, ts)
      {
        SendStep(rows, i, events, sentAlertIds, lastTs, sent, ts);
        if rows[i].id !in sent {
          sent := sent + {rows[i].id};
          ts := if rows[i].ts > ts then rows[i].ts else ts;
          events := events + [rows[i]];
        }
        i := i + 1;
      }
      sentAlertIds, lastTs := sent, ts;
    }

    /** `set(list(ids)[-5000:])` once there are more than 10000 ids, for an arbitrary listing. */
    method Prune()
      modifies this`sentAlertIds
      ensures IsPruned(sentAlertIds, old(sentAlertIds))
    {
      if |sentAlertIds| > PRUNE_ABOVE {
        var kept: set<string> := {};
        var rest := sentAlertIds;
        while |kept| < PRUNE_TO
          invariant kept <= old(sentAlertIds) && rest == old(sentAlertIds) - kept
          invariant |kept| <= PRUNE_TO && |kept| + |rest| == |old(sentAlertIds)|
        {
          var x :| x in rest;
          kept, rest := kept + {x}, rest - {x};
        }
        sentAlertIds := kept;
      }
    }
  }
}
