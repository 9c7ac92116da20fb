/** alerting/clickhouse_store.py: the batched store with a background writer.

  Every access to the pending list happens under one lock, so the two threads act as an interleaving of
  three atomic operations: an append, a timed flush of the writer loop and an explicit flush.  The outcome
  of an insert is not known in advance: it succeeds, or it fails after some of its rows reached the table.
 */
module ClickHouseStore {
  import opened AlertStore
  import opened Sequences

  datatype Outcome = Inserted | Failed(written: nat)

  datatype Op = Append(alert: Alert, outcome: Outcome) | TimedFlush(outcome: Outcome) | ExplicitFlush(outcome: Outcome)

  /** `connected` is whether a client exists; `wellFormed` says which alerts convert to a row. */
  datatype Config = Config(connected: bool, batchSize: int, wellFormed: Alert -> bool)

  datatype State = State(pending: seq<Alert>, table: seq<Alert>)

  // ----- What one operation does -----

  /** The rows of a batch: malformed alerts are skipped. */
  function Rows(c: Config, batch: seq<Alert>): seq<Alert> {
    if batch == [] then []
    else Rows(c, batch[..|batch| - 1]) + if c.wellFormed(batch[|batch| - 1]) then [batch[|batch| - 1]] else []
  }

  function Take(rows: seq<Alert>, n: nat): seq<Alert> {
    if n < |rows| then rows[..n] else rows
  }

  function Flushed(c: Config, st: State, outcome: Outcome): State {
    var rows := Rows(c, st.pending);
    if !c.connected || st.pending == [] then st
    else if rows == [] then st.(pending := [])
    else match outcome
      case Inserted => State([], st.table + rows)
      case Failed(n) => st.(table := st.table + Take(rows, n))
  }

  function Step(c: Config, st: State, op: Op): State {
    match op
    case Append(a, outcome) =>
      var added := st.(pending := st.pending + [a]);
      if |added.pending| >= c.batchSize then Flushed(c, added, outcome) else added
    case TimedFlush(outcome) => Flushed(c, st, outcome)
    case ExplicitFlush(outcome) => Flushed(c, st, outcome)
  }

  function Run(c: Config, ops: seq<Op>): State {
    if ops == [] then State([], []) else Step(c, Run(c, ops[..|ops| - 1]), ops[|ops| - 1])
  }

  /** Everything appended, in order. */
  function Appended(ops: seq<Op>): seq<Alert> {
    if ops == [] then []
    else Appended(ops[..|ops| - 1]) + match ops[|ops| - 1] case Append(a, _) => [a] case _ => []
  }

  // ----- What holds of every interleaving -----

  /** Every failed insert left the table as it was. */
  ghost predicate CleanFailures(ops: seq<Op>) {
    forall i | 0 <= i < |ops| :: ops[i].outcome.Failed? ==> ops[i].outcome.written == 0
  }

  /** `handled` is done with and `st.pending` still to come: the rows of the handled alerts are in the table,
      in order, and with clean failures the table holds nothing else. */
  ghost predicate Splits(c: Config, st: State, handled: seq<Alert>, appended: seq<Alert>, clean: bool) {
    && appended == handled + st.pending
    && SubSeq(Rows(c, handled), st.table)
    && (clean ==> st.table == Rows(c, handled))
  }

  lemma {:induction false} RowsConcat(c: Config, a: seq<Alert>, b: seq<Alert>)
    ensures Rows(c, a + b) == Rows(c, a) + Rows(c, b)
  {
    if b == [] {
      assert a + b == a;
    } else {
      var init := b[..|b| - 1];
      assert (a + b)[..|a + b| - 1] == a + init;
      RowsConcat(c, a, init);
    }
  }

  lemma HandledSplits(c: Config, st: State, handled: seq<Alert>, appended: seq<Alert>, clean: bool)
    requires Splits(c, st, handled, appended, clean)
    ensures Splits(c, State([], st.table + Rows(c, st.pending)), handled + st.pending, appended, clean)
  {
    RowsConcat(c, handled, st.pending);
    SubSeqConcat(Rows(c, handled), st.table, Rows(c, st.pending));
    assert appended == appended + [];
  }

  lemma FailedSplits(c: Config, st: State, handled: seq<Alert>, appended: seq<Alert>, clean: bool, written: nat)
    requires Splits(c, st, handled, appended, clean)
    ensures Splits(c, st.(table := st.table + Take(Rows(c, st.pending), written)), handled, appended,
                   clean && written == 0)
  {
    var extra := Take(Rows(c, st.pending), written);
    SubSeqMore(Rows(c, handled), st.table, extra);
    if written == 0 {
      assert extra == [];
      assert st.table + extra == st.table;
    }
  }

  lemma FlushSplits(c: Config, st: State, handled: seq<Alert>, appended: seq<Alert>, clean: bool, outcome: Outcome)
      returns (handled': seq<Alert>)
    requires Splits(c, st, handled, appended, clean)
    ensures Splits(c, Flushed(c, st, outcome), handled', appended,
                   clean && (outcome.Failed? ==> outcome.written == 0))
  {
    var rows := Rows(c, st.pending);
    if !c.connected || st.pending == [] {
      handled' := handled;
    } else if rows == [] || outcome.Inserted? {
      handled' := handled + st.pending;
      HandledSplits(c, st, handled, appended, clean);
      assert rows == [] ==> st.table + rows == st.table;
    } else {
      handled' := handled;
      FailedSplits(c, st, handled, appended, clean, outcome.written);
    }
  }

  /** Under any interleaving of appends, timed flushes and failing inserts, the appended sequence is a handled
      prefix followed by the pending list, and each well-formed alert of the prefix is in the table, in order:
      at least once always, exactly once if no failed insert wrote anything. */
  lemma {:induction false} NothingIsLost(c: Config, ops: seq<Op>) returns (handled: seq<Alert>)
    ensures Splits(c, Run(c, ops), handled, Appended(ops), CleanFailures(ops))
  {
    if ops == [] {
      handled := [];
    } else {
      var past, op := ops[..|ops| - 1], ops[|ops| - 1];
      handled := NothingIsLost(c, past);
      var st, clean := Run(c, past), CleanFailures(past);
      assert CleanFailures(ops) ==> clean && (op.outcome.Failed? ==> op.outcome.written == 0);
      match op
      case Append(a, outcome) =>
        var added := st.(pending := st.pending + [a]);
        assert Splits(c, added, handled, Appended(ops), clean) by {
          assert handled + (st.pending + [a]) == handled + st.pending + [a];
        }
        if |added.pending| >= c.batchSize {
          handled := FlushSplits(c, added, handled, Appended(ops), clean, outcome);
        }
      case _ =>
        assert Appended(past) + [] == Appended(past);
        handled := FlushSplits(c, st, handled, Appended(ops), clean, op.outcome);
    }
  }

  lemma StepAppends(c: Config, ops: seq<Op>, op: Op)
    ensures Run(c, ops + [op]) == Step(c, Run(c, ops), op)
    ensures Appended(ops + [op]) == Appended(ops) + match op case Append(a, _) => [a] case _ => []
  {
    assert (ops + [op])[..|ops|] == ops;
  }

  lemma InsertEmptiesPending(c: Config, ops: seq<Op>, op: Op)
    requires c.connected && op.outcome.Inserted?
    requires op.Append? ==> |Run(c, ops).pending| + 1 >= c.batchSize
    ensures Run(c, ops + [op]).pending == []
  {
    StepAppends(c, ops, op);
  }

  lemma AllHandled(c: Config, ops: seq<Op>)
    requires Run(c, ops).pending == []
    ensures SubSeq(Rows(c, Appended(ops)), Run(c, ops).table)
    ensures CleanFailures(ops) ==> Run(c, ops).table == Rows(c, Appended(ops))
  {
    var handled := NothingIsLost(c, ops);
    assert handled + [] == handled;
  }

  /** A flush that goes through leaves nothing behind: while connected, after a timed or an explicit flush, or an
      append that fills the batch, that ends in an insert, the pending list is empty and everything appended
      so far is in the table, in order, malformed alerts aside; and nothing else with clean failures. */
  lemma FlushDeliversAll(c: Config, ops: seq<Op>, op: Op)
    requires c.connected && op.outcome.Inserted?
    requires op.Append? ==> |Run(c, ops).pending| + 1 >= c.batchSize
    ensures var st, appended := Run(c, ops + [op]), Appended(ops + [op]);
            && st.pending == []
            && SubSeq(Rows(c, appended), st.table)
            && (CleanFailures(ops) ==> st.table == Rows(c, appended))
  {
    InsertEmptiesPending(c, ops, op);
    AllHandled(c, ops + [op]);
    assert CleanFailures(ops) ==> CleanFailures(ops + [op]);
  }

  /** A flush that fails, or that finds no connection, keeps every pending alert. */
  lemma FailedFlushKeepsPending(c: Config, ops: seq<Op>, op: Op)
    requires !op.Append? && (!c.connected || op.outcome.Failed?)
    ensures var before, after := Run(c, ops), Run(c, ops + [op]);
            after.pending == before.pending || (Rows(c, before.pending) == [] && after.pending == [])
    ensures !c.connected ==> Run(c, ops + [op]) == Run(c, ops)
  {
    StepAppends(c, ops, op);
  }

  /** With clean failures no alert is inserted more often than it was appended. */
  lemma InsertedAtMostOnce(c: Config, ops: seq<Op>, a: Alert)
    requires CleanFailures(ops)
    ensures multiset(Run(c, ops).table)[a] <= multiset(Appended(ops))[a]
    ensures !c.wellFormed(a) ==> a !in Run(c, ops).table
  {
    var handled := NothingIsLost(c, ops);
    RowsMultiplicity(c, handled, a);
    assert multiset(handled + Run(c, ops).pending) == multiset(handled) + multiset(Run(c, ops).pending);
  }

  lemma {:induction false} RowsMultiplicity(c: Config, batch: seq<Alert>, a: Alert)
    ensures multiset(Rows(c, batch))[a] == if c.wellFormed(a) then multiset(batch)[a] else 0
  {
    if batch != [] {
      RowsMultiplicity(c, batch[..|batch| - 1], a);
      assert batch == batch[..|batch| - 1] + [batch[|batch| - 1]];
    }
  }

  /** While connected and while inserts succeed, the pending list stays below the batch size. */
  lemma {:induction false} PendingIsBounded(c: Config, ops: seq<Op>)
    requires c.connected && forall i | 0 <= i < |ops| :: ops[i].outcome.Inserted?
    ensures |Run(c, ops).pending| < if c.batchSize < 1 then 1 else c.batchSize
  {
    if ops != [] {
      PendingIsBounded(c, ops[..|ops| - 1]);
    }
  }

  // ----- The class -----

  class ClickHouseAlertStore {
    const config: Config
    var pending: seq<Alert>
    /** The remote table: the rows that reached it, in order. */
    var table: seq<Alert>
    ghost var ops: seq<Op>

    function Abs(): State
      reads this
    {
      State(pending, table)
    }

    ghost predicate Valid()
      reads this
    {
      Abs() == Run(config, ops)
    }

    constructor (config: Config)
      ensures Valid() && this.config == config && ops == []
    {
      this.config, pending, table, ops := config, [], [], [];
    }

    method Append(alert: Alert, outcome: Outcome)
      requires Valid()
      modifies this
      ensures Valid() && ops == old(ops) + [Op.Append(alert, outcome)]
    {
      pending := pending + [alert];
      if |pending| >= config.batchSize {
        FlushLocked(outcome);
      }
      ops := ops + [Op.Append(alert, outcome)];
      assert ops[..|ops| - 1] == old(ops);
    }

    /** One turn of the writer loop. */
    method WriterTurn(outcome: Outcome)
      requires Valid()
      modifies this
      ensures Valid() && ops == old(ops) + [TimedFlush(outcome)]
    {
      if pending != [] {
        FlushLocked(outcome);
      }
      ops := ops + [TimedFlush(outcome)];
      assert ops[..|ops| - 1] == old(ops);
    }

    method Flush(outcome: Outcome)
      requires Valid()
      modifies this
      ensures Valid() && ops == old(ops) + [ExplicitFlush(outcome)]
    {
      FlushLocked(outcome);
      ops := ops + [ExplicitFlush(outcome)];
      assert ops[..|ops| - 1] == old(ops);
    }

    method FlushLocked(outcome: Outcome)
      modifies this`pending, this`table
      ensures Abs() == Flushed(config, old(Abs()), outcome)
    {
      if !config.connected || pending == [] {
        return;
      }
      var rows := [];
      for i := 0 to |pending|
        modifies {}
        invariant rows == Rows(config, pending[..i])
      {
        assert pending[..i + 1][..i] == pending[..i];
        if config.wellFormed(pending[i]) {
          rows := rows + [pending[i]];
        }
      }
      assert pending[..|pending|] == pending;
      if rows == [] {
        pending := [];
        return;
      }
      match outcome
      case Inserted =>
        table, pending := table + rows, [];
      case Failed(n) =>
        table := table + Take(rows, n);
    }
  }
}
