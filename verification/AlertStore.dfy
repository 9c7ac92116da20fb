/** alerting/store.py: the micro-batching alert store over an insert-or-ignore table.

  The table is the sequence of its rows in insertion order.  The order the engine returns equal timestamps
  in is arbitrary but fixed: it is a pair of functions on the selected rows.
 */
module AlertStore {
  import opened Wrappers
  import opened Sequences

  /** One alert; the columns that no query looks at are kept together. */
  datatype Alert = Alert(id: string, ts: real, detector: string, severity: string, rest: string)

  // ----- The table: first write wins, by alert id -----

  function Ids(t: seq<Alert>): set<string> {
    set a | a in t :: a.id
  }

  function InsertOrIgnore(t: seq<Alert>, a: Alert): seq<Alert> {
    if a.id in Ids(t) then t else t + [a]
  }

  /** The table after inserting the alerts of a log one by one into an empty table. */
  function FirstWins(log: seq<Alert>): seq<Alert> {
    if log == [] then [] else InsertOrIgnore(FirstWins(log[..|log| - 1]), log[|log| - 1])
  }

  function InsertAll(t: seq<Alert>, rows: seq<Alert>): seq<Alert> {
    if rows == [] then t else InsertOrIgnore(InsertAll(t, rows[..|rows| - 1]), rows[|rows| - 1])
  }

  ghost predicate UniqueIds(t: seq<Alert>) {
    forall i, j | 0 <= i < j < |t| :: t[i].id != t[j].id
  }

  /** Alert `i` of the log is the first with its id. */
  ghost predicate IsFirst(log: seq<Alert>, i: nat) {
    i < |log| && forall j | 0 <= j < i :: log[j].id != log[i].id
  }

  /** `a` is the alert that first carried its id. */
  ghost predicate IsFirstWrite(log: seq<Alert>, a: Alert) {
    exists i: nat :: IsFirst(log, i) && log[i] == a
  }

  lemma FirstWriteSnoc(past: seq<Alert>, b: Alert, a: Alert)
    ensures IsFirstWrite(past + [b], a) <==> IsFirstWrite(past, a) || (a == b && b.id !in Ids(past))
  {
    var log := past + [b];
    assert forall j | 0 <= j < |past| :: log[j] == past[j];
    if IsFirstWrite(past, a) {
      var i: nat :| IsFirst(past, i) && past[i] == a;
      assert IsFirst(log, i) && log[i] == a;
    }
    if a == b && b.id !in Ids(past) {
      assert forall j | 0 <= j < |past| :: past[j] in past;
      assert IsFirst(log, |past|);
    }
    if IsFirstWrite(log, a) {
      var i: nat :| IsFirst(log, i) && log[i] == a;
      if i < |past| {
        assert IsFirst(past, i) && past[i] == a;
      }
    }
  }

  lemma IdsSnoc(t: seq<Alert>, a: Alert)
    ensures Ids(t + [a]) == Ids(t) + {a.id}
  {
    assert forall x :: x in t + [a] <==> x in t || x == a;
  }

  lemma UniqueIdsSnoc(t: seq<Alert>, a: Alert)
    requires UniqueIds(t) && a.id !in Ids(t)
    ensures UniqueIds(t + [a])
  {
    assert forall i | 0 <= i < |t| :: t[i] in t;
  }

  /** The table holds each id once: the alert that first carried it, and no other row. */
  lemma {:induction false} FirstWinsMeaning(log: seq<Alert>)
    ensures UniqueIds(FirstWins(log))
    ensures Ids(FirstWins(log)) == Ids(log)
    ensures forall a :: a in FirstWins(log) <==> IsFirstWrite(log, a)
  {
    if log != [] {
      var past, b := log[..|log| - 1], log[|log| - 1];
      assert log == past + [b];
      FirstWinsMeaning(past);
      IdsSnoc(past, b);
      IdsSnoc(FirstWins(past), b);
      if b.id !in Ids(past) {
        UniqueIdsSnoc(FirstWins(past), b);
      }
      forall a
        ensures a in FirstWins(log) <==> IsFirstWrite(log, a)
      {
        FirstWriteSnoc(past, b, a);
      }
    }
  }

  lemma {:induction false} InsertAllConcat(persisted: seq<Alert>, buffer: seq<Alert>)
    ensures InsertAll(FirstWins(persisted), buffer) == FirstWins(persisted + buffer)
  {
    if buffer == [] {
      assert persisted + [] == persisted;
    } else {
      var init, a := buffer[..|buffer| - 1], buffer[|buffer| - 1];
      InsertAllConcat(persisted, init);
      assert (persisted + buffer)[..|persisted + buffer| - 1] == persisted + init;
    }
  }

  lemma {:induction false} InsertAllPrefix(t: seq<Alert>, rows: seq<Alert>)
    ensures t <= InsertAll(t, rows)
    ensures InsertAll(t, rows) == t <==> forall a | a in rows :: a.id in Ids(t)
  {
    if rows != [] {
      var init, a := rows[..|rows| - 1], rows[|rows| - 1];
      InsertAllPrefix(t, init);
      assert rows == init + [a];
      assert a in rows;
      if InsertAll(t, rows) == t {
        assert InsertAll(t, init) == t;
      }
    }
  }

  /** A failed flush rolls back and clears the buffer.  It loses nothing exactly when every buffered id was
      already stored. */
  lemma FailedFlushLosesIff(persisted: seq<Alert>, buffer: seq<Alert>)
    ensures FirstWins(persisted + buffer) == FirstWins(persisted) <==>
              forall a | a in buffer :: a.id in Ids(FirstWins(persisted))
  {
    InsertAllConcat(persisted, buffer);
    InsertAllPrefix(FirstWins(persisted), buffer);
  }

  // ----- Queries -----

  datatype Query = Query(start: Option<real>, end: Option<real>, detector: Option<string>, severity: Option<string>)

  predicate Matches(q: Query, a: Alert) {
    && (q.start.Some? ==> a.ts >= q.start.value)
    && (q.end.Some? ==> a.ts <= q.end.value)
    && (q.detector.Some? ==> a.detector == q.detector.value)
    && (q.severity.Some? ==> a.severity == q.severity.value)
  }

  function Select(q: Query, t: seq<Alert>): seq<Alert> {
    if t == [] then []
    else Select(q, t[..|t| - 1]) + if Matches(q, t[|t| - 1]) then [t[|t| - 1]] else []
  }

  lemma {:induction false} SelectMembers(q: Query, t: seq<Alert>)
    requires UniqueIds(t)
    ensures UniqueIds(Select(q, t))
    ensures forall a :: a in Select(q, t) <==> a in t && Matches(q, a)
  {
    if t != [] {
      var init, a := t[..|t| - 1], t[|t| - 1];
      SelectMembers(q, init);
      assert t == init + [a];
      forall b | b in Select(q, init)
        ensures b.id != a.id
      {
        assert b in init;
      }
    }
  }

  /** The order the database engine puts rows in, oldest first and newest first. */
  datatype Engine = Engine(oldestFirst: seq<Alert> -> seq<Alert>, newestFirst: seq<Alert> -> seq<Alert>)

  ghost predicate OldestFirst(rows: seq<Alert>) {
    forall i, j | 0 <= i < j < |rows| :: rows[i].ts <= rows[j].ts
  }

  ghost predicate NewestFirst(rows: seq<Alert>) {
    forall i, j | 0 <= i < j < |rows| :: rows[i].ts >= rows[j].ts
  }

  ghost predicate Sorts(e: Engine) {
    && (forall t :: OldestFirst(e.oldestFirst(t)) && multiset(e.oldestFirst(t)) == multiset(t))
    && (forall t :: NewestFirst(e.newestFirst(t)) && multiset(e.newestFirst(t)) == multiset(t))
  }

  function InsertByTime(a: Alert, rows: seq<Alert>): seq<Alert> {
    if rows == [] || a.ts <= rows[0].ts then [a] + rows else [rows[0]] + InsertByTime(a, rows[1..])
  }

  function SortByTime(t: seq<Alert>): seq<Alert> {
    if t == [] then [] else InsertByTime(t[0], SortByTime(t[1..]))
  }

  function Reversed(rows: seq<Alert>): seq<Alert> {
    if rows == [] then [] else Reversed(rows[1..]) + [rows[0]]
  }

  lemma OldestFirstCons(a: Alert, rows: seq<Alert>)
    requires OldestFirst(rows) && (rows == [] || a.ts <= rows[0].ts)
    ensures OldestFirst([a] + rows)
  {
  }

  lemma {:induction false} InsertByTimeAdds(a: Alert, rows: seq<Alert>)
    ensures multiset(InsertByTime(a, rows)) == multiset(rows) + multiset{a}
  {
    if rows != [] && a.ts > rows[0].ts {
      InsertByTimeAdds(a, rows[1..]);
      assert rows == [rows[0]] + rows[1..];
    }
  }

  lemma {:induction false} InsertByTimeSorts(a: Alert, rows: seq<Alert>)
    requires OldestFirst(rows)
    ensures OldestFirst(InsertByTime(a, rows))
    ensures InsertByTime(a, rows)[0] == if rows == [] || a.ts <= rows[0].ts then a else rows[0]
  {
    if rows == [] || a.ts <= rows[0].ts {
      OldestFirstCons(a, rows);
    } else {
      InsertByTimeSorts(a, rows[1..]);
      OldestFirstCons(rows[0], InsertByTime(a, rows[1..]));
    }
  }

  lemma {:induction false} SortByTimePermutes(t: seq<Alert>)
    ensures multiset(SortByTime(t)) == multiset(t)
  {
    if t != [] {
      SortByTimePermutes(t[1..]);
      InsertByTimeAdds(t[0], SortByTime(t[1..]));
      assert t == [t[0]] + t[1..];
    }
  }

  lemma {:induction false} SortByTimeSorts(t: seq<Alert>)
    ensures OldestFirst(SortByTime(t))
  {
    if t != [] {
      SortByTimeSorts(t[1..]);
      InsertByTimeSorts(t[0], SortByTime(t[1..]));
    }
  }

  lemma {:induction false} ReversedTurnsOrder(rows: seq<Alert>)
    requires OldestFirst(rows)
    ensures NewestFirst(Reversed(rows)) && multiset(Reversed(rows)) == multiset(rows)
    ensures forall x :: x in Reversed(rows) <==> x in rows
  {
    if rows != [] {
      ReversedTurnsOrder(rows[1..]);
      assert rows == [rows[0]] + rows[1..];
      var rest := Reversed(rows[1..]);
      forall i | 0 <= i < |rest|
        ensures rest[i].ts >= rows[0].ts
      {
        assert rest[i] in rest;
      }
    }
  }

  function SortByTimeDescending(t: seq<Alert>): seq<Alert> {
    Reversed(SortByTime(t))
  }

  lemma SortByTimeDescendingSorts(t: seq<Alert>)
    ensures NewestFirst(SortByTimeDescending(t)) && multiset(SortByTimeDescending(t)) == multiset(t)
  {
    SortByTimeSorts(t);
    SortByTimePermutes(t);
    ReversedTurnsOrder(SortByTime(t));
  }

  /** One order the engine may use: insertion sort, and its reverse. */
  function InsertionEngine(): Engine {
    Engine(SortByTime, SortByTimeDescending)
  }

  lemma InsertionEngineSorts()
    ensures Sorts(InsertionEngine())
  {
    var e := InsertionEngine();
    forall t: seq<Alert>
      ensures OldestFirst(e.oldestFirst(t)) && multiset(e.oldestFirst(t)) == multiset(t)
    {
      SortByTimeSorts(t);
      SortByTimePermutes(t);
    }
    forall t: seq<Alert>
      ensures NewestFirst(e.newestFirst(t)) && multiset(e.newestFirst(t)) == multiset(t)
    {
      SortByTimeDescendingSorts(t);
    }
  }

  /** What a reader may rely on: the matching rows of the table, each once, oldest first. */
  ghost predicate IsRead(rows: seq<Alert>, t: seq<Alert>, q: Query) {
    && OldestFirst(rows) && UniqueIds(rows)
    && forall a :: a in rows <==>
                     && a in t
                     && (q.start.Some? ==> a.ts >= q.start.value) && (q.end.Some? ==> a.ts <= q.end.value)
                     && (q.detector.Some? ==> a.detector == q.detector.value)
                     && (q.severity.Some? ==> a.severity == q.severity.value)
  }

  /** The full list a page is cut from: the rows with the detector and severity asked for, each once, newest first. */
  ghost predicate IsNewestRead(rows: seq<Alert>, t: seq<Alert>, detector: Option<string>, severity: Option<string>) {
    && NewestFirst(rows) && UniqueIds(rows)
    && forall a :: a in rows <==>
                     && a in t
                     && (detector.Some? ==> a.detector == detector.value)
                     && (severity.Some? ==> a.severity == severity.value)
  }

  lemma UniqueIdsPermuted(t: seq<Alert>, rows: seq<Alert>)
    requires UniqueIds(t) && multiset(rows) == multiset(t)
    ensures UniqueIds(rows)
    ensures forall a :: a in rows <==> a in t
  {
    forall a
      ensures a in rows <==> a in t
    {
      assert a in rows <==> a in multiset(rows);
      assert a in t <==> a in multiset(t);
    }
    forall i, j | 0 <= i < j < |rows|
      ensures rows[i].id != rows[j].id
    {
      if rows[i] == rows[j] {
        TwiceInSeq(rows, i, j);
        OnceInSeq(t, rows[i]);
        assert false;
      }
      assert rows[i] in t && rows[j] in t;
    }
  }

  lemma TwiceInSeq(rows: seq<Alert>, i: nat, j: nat)
    requires i < j < |rows| && rows[i] == rows[j]
    ensures multiset(rows)[rows[i]] >= 2
  {
    assert rows == rows[..j] + [rows[j]] + rows[j + 1..];
    assert rows[..j][i] == rows[i];
    assert rows[i] in multiset(rows[..j]);
  }

  lemma {:induction false} OnceInSeq(t: seq<Alert>, a: Alert)
    requires UniqueIds(t)
    ensures multiset(t)[a] <= 1
  {
    if t != [] {
      var init, b := t[..|t| - 1], t[|t| - 1];
      assert t == init + [b];
      OnceInSeq(init, a);
      assert a == b ==> a !in init;
    }
  }

  lemma EngineReads(e: Engine, t: seq<Alert>, q: Query)
    requires Sorts(e) && UniqueIds(t)
    ensures IsRead(e.oldestFirst(Select(q, t)), t, q)
  {
    SelectMembers(q, t);
    UniqueIdsPermuted(Select(q, t), e.oldestFirst(Select(q, t)));
  }

  lemma EngineReadsNewest(e: Engine, t: seq<Alert>, detector: Option<string>, severity: Option<string>)
    requires Sorts(e) && UniqueIds(t)
    ensures IsNewestRead(e.newestFirst(Select(Query(None, None, detector, severity), t)), t, detector, severity)
  {
    var q := Query(None, None, detector, severity);
    SelectMembers(q, t);
    UniqueIdsPermuted(Select(q, t), e.newestFirst(Select(q, t)));
  }

  // ----- Pages -----

  /** LIMIT and OFFSET of the engine: a negative limit is no limit, a negative offset is zero. */
  function Page(rows: seq<Alert>, limit: int, offset: int): seq<Alert> {
    var from := if offset < 0 then 0 else if offset > |rows| then |rows| else offset;
    var rest := rows[from..];
    if limit < 0 || limit >= |rest| then rest else rest[..limit]
  }

  /** A page is the stretch of the list from the offset on, as long as the limit; a negative offset counts as none,
      a negative limit as no limit. */
  lemma PageMeaning(rows: seq<Alert>, limit: int, offset: int)
    ensures var page, from := Page(rows, limit, offset), if offset < 0 then 0 else offset;
            && (|page| == if from >= |rows| then 0
                          else if 0 <= limit < |rows| - from then limit else |rows| - from)
            && forall i | 0 <= i < |page| :: page[i] == rows[from + i]
  {
  }

  /** The pages of `limit` rows at offsets `from`, `from + limit`, ... up to the length, put end to end. */
  function Pages(rows: seq<Alert>, limit: int, from: nat): seq<Alert>
    requires limit > 0
    decreases |rows| - from
  {
    if from >= |rows| then [] else Page(rows, limit, from) + Pages(rows, limit, from + limit)
  }

  /** Consecutive pages concatenate to the rest of the full list: from offset 0, to all of it. */
  lemma {:induction false} PagesConcatenate(rows: seq<Alert>, limit: int, from: nat)
    requires limit > 0 && from <= |rows|
    ensures Pages(rows, limit, from) == rows[from..]
    decreases |rows| - from
  {
    if from + limit < |rows| {
      PagesConcatenate(rows, limit, from + limit);
      assert Page(rows, limit, from) == rows[from..from + limit];
    }
  }

  // ----- The reference: a store that writes every alert at once -----

  datatype Op =
    | Appending(alert: Alert)
    | AppendingBatch(alerts: seq<Alert>)
    | Flushing
    | Clearing
    | Reading(q: Query)
    | Finding(id: string)
    | Paging(limit: int, offset: int, detector: Option<string>, severity: Option<string>)

  /** What an operation returns; `Failed` is a database error. */
  datatype Output =
    | Failed
    | Done
    | Listed(rows: seq<Alert>)
    | Found(row: Option<Alert>)
    | Counted(total: nat, page: seq<Alert>)

  function Lookup(t: seq<Alert>, id: string): Option<Alert> {
    if t == [] then None else if t[0].id == id then Some(t[0]) else Lookup(t[1..], id)
  }

  /** The table after one operation, without any buffer. */
  function Unbuffered(t: seq<Alert>, op: Op): seq<Alert> {
    match op
    case Appending(a) => InsertOrIgnore(t, a)
    case AppendingBatch(alerts) => InsertAll(t, alerts)
    case Clearing => []
    case _ => t
  }

  /** What one operation returns from the table. */
  function Answer(e: Engine, t: seq<Alert>, op: Op): Output {
    match op
    case Reading(q) => Listed(e.oldestFirst(Select(q, t)))
    case Finding(id) => Found(Lookup(t, id))
    case Paging(limit, offset, detector, severity) =>
      var full := e.newestFirst(Select(Query(None, None, detector, severity), t));
      Counted(|full|, Page(full, limit, offset))
    case _ => Done
  }

  function UnbufferedRun(ops: seq<Op>): seq<Alert> {
    if ops == [] then [] else Unbuffered(UnbufferedRun(ops[..|ops| - 1]), ops[|ops| - 1])
  }

  function UnbufferedAnswers(e: Engine, ops: seq<Op>): seq<Output> {
    if ops == [] then []
    else
      var past, op := ops[..|ops| - 1], ops[|ops| - 1];
      UnbufferedAnswers(e, past) + [Answer(e, UnbufferedRun(past), op)]
  }

  /** A lookup by id finds the alert that first carried it, if any did. */
  lemma {:induction false} LookupMeaning(t: seq<Alert>, id: string)
    ensures Lookup(t, id).None? <==> id !in Ids(t)
    ensures Lookup(t, id).Some? ==> Lookup(t, id).value in t && Lookup(t, id).value.id == id
  {
    if t != [] {
      LookupMeaning(t[1..], id);
      assert t == [t[0]] + t[1..];
      IdsConcat([t[0]], t[1..]);
    }
  }

  lemma IdsConcat(t: seq<Alert>, u: seq<Alert>)
    ensures Ids(t + u) == Ids(t) + Ids(u)
  {
    assert forall x :: x in t + u <==> x in t || x in u;
  }

  // ----- Database errors: which appends are lost -----

  /** The alerts that are safe in the database and those still to be written, in the order of their appends;
      what a failed flush lost is in neither. */
  datatype Journal = Journal(safe: seq<Alert>, pending: seq<Alert>)
  {
    function Log(): seq<Alert> { safe + pending }
  }

  /** An operation and whether the database would accept a write during it. */
  datatype Attempt = Attempt(op: Op, dbOk: bool)

  function Written(j: Journal, dbOk: bool): Journal {
    Journal(if dbOk || j.pending == [] then j.Log() else j.safe, [])
  }

  function Added(j: Journal, op: Op): Journal {
    match op
    case Appending(a) => Journal(j.safe, j.pending + [a])
    case AppendingBatch(alerts) => Journal(j.safe, j.pending + alerts)
    case Clearing => Journal([], [])
    case _ => j
  }

  /** Whether the operation writes the pending alerts out, its own included. */
  predicate Flushes(batchSize: int, j: Journal, op: Op) {
    match op
    case Appending(a) => |j.pending| + 1 >= batchSize
    case AppendingBatch(alerts) => alerts != []
    case Clearing => false
    case _ => true
  }

  function Attempted(batchSize: int, j: Journal, at: Attempt): Journal {
    if Flushes(batchSize, j, at.op) then Written(Added(j, at.op), at.dbOk) else Added(j, at.op)
  }

  predicate Fails(batchSize: int, j: Journal, at: Attempt) {
    Flushes(batchSize, j, at.op) && !at.dbOk && Added(j, at.op).pending != []
  }

  /** An attempt fails, or answers as a store without a buffer that holds what was not lost. */
  function AnswerOf(e: Engine, batchSize: int, j: Journal, at: Attempt): Output {
    if Fails(batchSize, j, at) then Failed else Answer(e, FirstWins(j.Log()), at.op)
  }

  function JournalAfter(batchSize: int, attempts: seq<Attempt>): Journal {
    if attempts == [] then Journal([], [])
    else Attempted(batchSize, JournalAfter(batchSize, attempts[..|attempts| - 1]), attempts[|attempts| - 1])
  }

  function JournalAnswers(e: Engine, batchSize: int, attempts: seq<Attempt>): seq<Output> {
    if attempts == [] then []
    else
      var past := attempts[..|attempts| - 1];
      JournalAnswers(e, batchSize, past)
        + [AnswerOf(e, batchSize, JournalAfter(batchSize, past), attempts[|attempts| - 1])]
  }

  function OpsOf(attempts: seq<Attempt>): seq<Op> {
    if attempts == [] then [] else OpsOf(attempts[..|attempts| - 1]) + [attempts[|attempts| - 1].op]
  }

  function AppendedBy(appended: seq<Alert>, op: Op): seq<Alert> {
    match op
    case Appending(a) => appended + [a]
    case AppendingBatch(alerts) => appended + alerts
    case Clearing => []
    case _ => appended
  }

  /** The alerts appended since the last clear. */
  function AppendedSinceClear(ops: seq<Op>): seq<Alert> {
    if ops == [] then [] else AppendedBy(AppendedSinceClear(ops[..|ops| - 1]), ops[|ops| - 1])
  }

  ghost predicate NoErrors(attempts: seq<Attempt>) {
    forall i | 0 <= i < |attempts| :: attempts[i].dbOk
  }

  /** Without a buffer the table holds the first writes of everything appended since the last clear. */
  lemma {:induction false} UnbufferedIsFirstWins(ops: seq<Op>)
    ensures UnbufferedRun(ops) == FirstWins(AppendedSinceClear(ops))
  {
    if ops != [] {
      var past := ops[..|ops| - 1];
      UnbufferedIsFirstWins(past);
      match ops[|ops| - 1]
      case Appending(a) =>
        InsertAllConcat(AppendedSinceClear(past), [a]);
        InsertOne(UnbufferedRun(past), a);
      case AppendingBatch(alerts) => InsertAllConcat(AppendedSinceClear(past), alerts);
      case _ =>
    }
  }

  lemma InsertOne(t: seq<Alert>, a: Alert)
    ensures InsertAll(t, [a]) == InsertOrIgnore(t, a)
  {
    assert [a][..0] == [];
    assert InsertAll(t, [a][..0]) == t;
  }

  lemma OpsSnoc(attempts: seq<Attempt>)
    requires attempts != []
    ensures OpsOf(attempts)[..|OpsOf(attempts)| - 1] == OpsOf(attempts[..|attempts| - 1])
  {
  }

  lemma AddedLog(j: Journal, op: Op, appended: seq<Alert>)
    requires SubSeq(j.Log(), appended)
    ensures Added(j, op).Log() == AppendedBy(j.Log(), op)
    ensures SubSeq(Added(j, op).Log(), AppendedBy(appended, op))
  {
    match op
    case Appending(a) =>
      ConcatAssoc(j.safe, j.pending, [a]);
      SubSeqConcat(j.Log(), appended, [a]);
    case AppendingBatch(alerts) =>
      ConcatAssoc(j.safe, j.pending, alerts);
      SubSeqConcat(j.Log(), appended, alerts);
    case _ =>
  }

  lemma WrittenLog(j: Journal, dbOk: bool, appended: seq<Alert>)
    requires SubSeq(j.Log(), appended)
    ensures Written(j, dbOk).Log() == if dbOk then j.Log() else j.safe
    ensures SubSeq(Written(j, dbOk).Log(), appended)
  {
    assert j.safe + [] == j.safe;
    assert j.Log() + [] == j.Log();
    SubSeqPrefix(j.safe, j.pending, appended);
  }

  lemma AttemptedLog(batchSize: int, j: Journal, at: Attempt, appended: seq<Alert>)
    requires SubSeq(j.Log(), appended)
    ensures SubSeq(Attempted(batchSize, j, at).Log(), AppendedBy(appended, at.op))
    ensures at.dbOk ==> Attempted(batchSize, j, at).Log() == AppendedBy(j.Log(), at.op)
  {
    AddedLog(j, at.op, appended);
    WrittenLog(Added(j, at.op), at.dbOk, AppendedBy(appended, at.op));
  }

  /** What the store stands for after any attempts is what was appended since the last clear, in order, less what
      failed flushes lost; without database errors nothing is lost. */
  lemma {:induction false} JournalKeepsAppends(batchSize: int, attempts: seq<Attempt>)
    ensures SubSeq(JournalAfter(batchSize, attempts).Log(), AppendedSinceClear(OpsOf(attempts)))
    ensures NoErrors(attempts) ==> JournalAfter(batchSize, attempts).Log() == AppendedSinceClear(OpsOf(attempts))
  {
    if attempts != [] {
      var past, at := attempts[..|attempts| - 1], attempts[|attempts| - 1];
      JournalKeepsAppends(batchSize, past);
      OpsSnoc(attempts);
      AttemptedLog(batchSize, JournalAfter(batchSize, past), at, AppendedSinceClear(OpsOf(past)));
    }
  }

  /** Without database errors the answers are those of a store that writes every alert at once. */
  lemma {:induction false} NoErrorAnswers(e: Engine, batchSize: int, attempts: seq<Attempt>)
    requires NoErrors(attempts)
    ensures JournalAnswers(e, batchSize, attempts) == UnbufferedAnswers(e, OpsOf(attempts))
  {
    if attempts != [] {
      var past, at := attempts[..|attempts| - 1], attempts[|attempts| - 1];
      assert NoErrors(past) && at.dbOk;
      NoErrorAnswers(e, batchSize, past);
      OpsSnoc(attempts);
      JournalKeepsAppends(batchSize, past);
      UnbufferedIsFirstWins(OpsOf(past));
    }
  }

  // ----- The class -----

  class Store {
    const batchSize: int
    const engine: Engine
    var writeBuffer: seq<Alert>
    var table: seq<Alert>
    /** Everything appended and neither cleared nor lost in a failed flush, up to the write buffer. */
    ghost var persisted: seq<Alert>

    ghost predicate Valid()
      reads this
    {
      && Sorts(engine)
      && table == FirstWins(persisted)
      && |writeBuffer| < (if batchSize < 1 then 1 else batchSize)
    }

    /** The alerts the store stands for, in the order they were appended. */
    ghost function Log(): seq<Alert>
      reads this
    {
      persisted + writeBuffer
    }

    ghost function AsJournal(): Journal
      reads this
    {
      Journal(persisted, writeBuffer)
    }

    constructor (batchSize: int, engine: Engine)
      requires Sorts(engine)
      ensures Valid() && Log() == [] && this.batchSize == batchSize && this.engine == engine
    {
      this.batchSize, this.engine, writeBuffer, table, persisted := batchSize, engine, [], [], [];
    }

    /** Writes the buffer out; `dbOk` says whether the database accepts it.  Either way the buffer ends up
        empty: a failure rolls the table back and loses the buffered alerts. */
    method FlushLocked(dbOk: bool) returns (ok: bool)
      requires Sorts(engine) && table == FirstWins(persisted)
      modifies this
      ensures Valid() && writeBuffer == []
      ensures ok == (dbOk || old(writeBuffer) == [])
      ensures Log() == if ok then old(Log()) else old(persisted)
      ensures AsJournal() == Written(old(AsJournal()), dbOk)
    {
      if writeBuffer == [] {
        return true;
      }
      if dbOk {
        var rows := table;
        for i := 0 to |writeBuffer|
          invariant rows == InsertAll(table, writeBuffer[..i])
          invariant writeBuffer == old(writeBuffer) && table == old(table) && persisted == old(persisted)
        {
          assert writeBuffer[..i + 1][..i] == writeBuffer[..i];
          rows := InsertOrIgnore(rows, writeBuffer[i]);
        }
        assert writeBuffer[..|writeBuffer|] == writeBuffer;
        InsertAllConcat(persisted, writeBuffer);
        table, persisted := rows, persisted + writeBuffer;
      }
      writeBuffer := [];
      ok := dbOk;
    }

    method Append(alert: Alert, dbOk: bool) returns (ok: bool)
      requires Valid()
      modifies this
      ensures Valid()
      ensures ok <== dbOk
      ensures Log() == if ok then old(Log()) + [alert] else old(persisted)
      ensures AsJournal() == Attempted(batchSize, old(AsJournal()), Attempt(Appending(alert), dbOk))
      ensures ok <==> !Fails(batchSize, old(AsJournal()), Attempt(Appending(alert), dbOk))
      ensures writeBuffer == if |old(writeBuffer)| + 1 < batchSize then old(writeBuffer) + [alert] else []
    {
      writeBuffer := writeBuffer + [alert];
      ok := true;
      assert Log() == old(Log()) + [alert];
      if |writeBuffer| >= batchSize {
        ok := FlushLocked(dbOk);
      }
    }

    method AppendBatch(alerts: seq<Alert>, dbOk: bool) returns (ok: bool)
      requires Valid()
      modifies this
      ensures Valid()
      ensures ok <== dbOk
      ensures Log() == if ok then old(Log()) + alerts else old(persisted)
      ensures AsJournal() == Attempted(batchSize, old(AsJournal()), Attempt(AppendingBatch(alerts), dbOk))
      ensures ok <==> !Fails(batchSize, old(AsJournal()), Attempt(AppendingBatch(alerts), dbOk))
      ensures writeBuffer == if alerts == [] then old(writeBuffer) else []
    {
      if alerts == [] {
        assert Log() == Log() + alerts && writeBuffer == writeBuffer + alerts;
        return true;
      }
      writeBuffer := writeBuffer + alerts;
      assert Log() == old(Log()) + alerts;
      ok := FlushLocked(dbOk);
    }

    method Flush(dbOk: bool) returns (ok: bool)
      requires Valid()
      modifies this
      ensures Valid() && writeBuffer == []
      ensures ok <== dbOk
      ensures Log() == if ok then old(Log()) else old(persisted)
      ensures ok == (dbOk || old(writeBuffer) == [])
      ensures AsJournal() == Written(old(AsJournal()), dbOk)
    {
      ok := FlushLocked(dbOk);
    }

    method Clear()
      requires Valid()
      modifies this
      ensures Valid() && Log() == [] && AsJournal() == Journal([], [])
    {
      writeBuffer, table, persisted := [], [], [];
    }

    /** Reads see exactly the unbuffered first-write-wins table of everything appended. */
    method ReadAlerts(q: Query, dbOk: bool) returns (rows: Option<seq<Alert>>)
      requires Valid()
      modifies this
      ensures Valid()
      ensures dbOk ==> rows.Some?
      ensures rows.Some? ==>
                && Log() == old(Log())
                && rows.value == engine.oldestFirst(Select(q, FirstWins(Log())))
                && IsRead(rows.value, FirstWins(Log()), q)
      ensures rows.None? ==> Log() == old(persisted)
      ensures rows.Some? == (dbOk || old(writeBuffer) == []) && writeBuffer == []
      ensures AsJournal() == Written(old(AsJournal()), dbOk)
    {
      var ok := Flush(dbOk);
      if !ok {
        return None;
      }
      assert persisted + [] == persisted;
      FirstWinsMeaning(persisted);
      EngineReads(engine, table, q);
      rows := Some(engine.oldestFirst(Select(q, table)));
    }

    method GetAlertById(id: string, dbOk: bool) returns (row: Option<Option<Alert>>)
      requires Valid()
      modifies this
      ensures Valid()
      ensures dbOk ==> row.Some?
      ensures row.Some? ==> Log() == old(Log()) && row.value == Lookup(FirstWins(Log()), id)
      ensures row.Some? && row.value.None? ==> id !in Ids(Log())
      ensures row.Some? && row.value.Some? ==>
                row.value.value.id == id && IsFirstWrite(Log(), row.value.value)
      ensures row.None? ==> Log() == old(persisted)
      ensures row.Some? == (dbOk || old(writeBuffer) == []) && writeBuffer == []
      ensures AsJournal() == Written(old(AsJournal()), dbOk)
    {
      var ok := Flush(dbOk);
      if !ok {
        return None;
      }
      assert persisted + [] == persisted;
      FirstWinsMeaning(persisted);
      LookupMeaning(table, id);
      var found := FindById(id);
      row := Some(found);
    }

    method FindById(id: string) returns (row: Option<Alert>)
      ensures row == Lookup(table, id)
    {
      for i := 0 to |table|
        invariant Lookup(table, id) == Lookup(table[i..], id)
      {
        if table[i].id == id {
          return Some(table[i]);
        }
      }
      row := None;
    }

    /** The number of matching alerts and one page of them, newest first. */
    method ReadPaginated(limit: int, offset: int, detector: Option<string>, severity: Option<string>, dbOk: bool)
        returns (page: Option<(nat, seq<Alert>)>)
      requires Valid()
      modifies this
      ensures Valid()
      ensures dbOk ==> page.Some?
      ensures page.Some? ==>
                var full := engine.newestFirst(Select(Query(None, None, detector, severity), FirstWins(Log())));
                && Log() == old(Log()) && IsNewestRead(full, FirstWins(Log()), detector, severity)
                && page.value.0 == |full| && page.value.1 == Page(full, limit, offset)
      ensures page.None? ==> Log() == old(persisted)
      ensures page.Some? == (dbOk || old(writeBuffer) == []) && writeBuffer == []
      ensures AsJournal() == Written(old(AsJournal()), dbOk)
    {
      var ok := Flush(dbOk);
      if !ok {
        return None;
      }
      assert persisted + [] == persisted;
      FirstWinsMeaning(persisted);
      EngineReadsNewest(engine, table, detector, severity);
      var selected := Select(Query(None, None, detector, severity), table);
      var full := engine.newestFirst(selected);
      assert |multiset(full)| == |multiset(selected)|;
      page := Some((|selected|, Page(full, limit, offset)));
    }

    /** One attempted operation: the journal and the answer of the reference. */
    method Perform(op: Op, dbOk: bool) returns (out: Output)
      requires Valid()
      modifies this
      ensures Valid()
      ensures AsJournal() == Attempted(batchSize, old(AsJournal()), Attempt(op, dbOk))
      ensures out == AnswerOf(engine, batchSize, old(AsJournal()), Attempt(op, dbOk))
    {
      var ok := true;
      out := Done;
      match op {
        case Appending(a) =>
          ok := Append(a, dbOk);
        case AppendingBatch(alerts) =>
          ok := AppendBatch(alerts, dbOk);
        case Flushing =>
          ok := Flush(dbOk);
        case Clearing =>
          Clear();
        case Reading(q) =>
          var rows := ReadAlerts(q, dbOk);
          ok := rows.Some?;
          out := match rows case None => Failed case Some(r) => Listed(r);
        case Finding(id) =>
          var row := GetAlertById(id, dbOk);
          ok := row.Some?;
          out := match row case None => Failed case Some(r) => Found(r);
        case Paging(limit, offset, detector, severity) =>
          var page := ReadPaginated(limit, offset, detector, severity, dbOk);
          ok := page.Some?;
          out := match page case None => Failed case Some(p) => Counted(p.0, p.1);
      }
      if !ok {
        out := Failed;
      }
    }
  }

  /** Buffering is invisible: any interleaving of appends, batches, flushes, clears and reads, with database errors
      wherever they fall, returns, operation by operation, what a store without a buffer returns that holds all but
      the appends lost in failed flushes; and without errors simply what a store without a buffer returns. */
  method Session(batchSize: int, engine: Engine, attempts: seq<Attempt>) returns (outs: seq<Output>)
    requires Sorts(engine)
    ensures outs == JournalAnswers(engine, batchSize, attempts)
    ensures NoErrors(attempts) ==> outs == UnbufferedAnswers(engine, OpsOf(attempts))
  {
    var store := new Store(batchSize, engine);
    outs := [];
    for i := 0 to |attempts|
      invariant fresh(store) && store.Valid() && store.engine == engine && store.batchSize == batchSize
      invariant store.AsJournal() == JournalAfter(batchSize, attempts[..i])
      invariant outs == JournalAnswers(engine, batchSize, attempts[..i])
    {
      assert attempts[..i + 1][..i] == attempts[..i];
      var out := store.Perform(attempts[i].op, attempts[i].dbOk);
      outs := outs + [out];
    }
    assert attempts[..|attempts|] == attempts;
    if NoErrors(attempts) {
      NoErrorAnswers(engine, batchSize, attempts);
    }
  }
}
