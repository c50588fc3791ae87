/**
 Interleaved transactions on one changeset row. Each transaction fixes `now()` when it begins, checks ownership
 against the committed row, takes the row lock or is refused, writes privately, and commits or aborts. A refused or
 failed transaction that got the lock keeps it until it aborts. Every sequence of events is a run.
 */
module ChangesetProtocol {
  import opened Common
  import opened Bbox
  import opened ChangesetRules
  import opened ChangesetHistory

  datatype Phase =
    | Begun
    | Owned
    | Locked(count: nat, box: Box)
    | Written(pending: ChangesetRow)
    | Failed
    | Done

  datatype Tx = Tx(user: int, op: Op, now: int, phase: Phase) {
    /** Phases in which the transaction works under the row lock. */
    predicate Working() { phase.Locked? || phase.Written? }
  }

  datatype State = State(row: ChangesetRow, lock: Option<int>, txs: map<int, Tx>, log: seq<Entry>)

  datatype Event =
    | Begin(id: int, user: int, op: Op, now: int)
    | CheckOwner(id: int)
    | Lock(id: int)
    | Apply(id: int)
    | Commit(id: int)
    | Abort(id: int)

  function Init(cfg: Settings, user: int, now: int, tags: Tags): State {
    State(NewRow(cfg, user, now, tags), None, map[], [])
  }

  function SetPhase(s: State, id: int, phase: Phase): State
    requires id in s.txs
  {
    s.(txs := s.txs[id := s.txs[id].(phase := phase)])
  }

  /** One event; an event that is not enabled leaves the state as it is. */
  function Step(cfg: Settings, s: State, e: Event): State {
    if e.Begin? then
      if e.id in s.txs then s else s.(txs := s.txs[e.id := Tx(e.user, e.op, e.now, Begun)])
    else if e.id !in s.txs then s
    else
      var tx := s.txs[e.id];
      match e
      case CheckOwner(id) =>
        if !tx.phase.Begun? then s
        else if s.row.userId != tx.user then SetPhase(s, id, Failed)
        else SetPhase(s, id, Owned)
      case Lock(id) =>
        if !tx.phase.Owned? then s
        else if s.lock.Some? then SetPhase(s, id, Failed)
        else if LockOutcome(cfg, Some(s.row), tx.user, tx.now, false, tx.op.Upload?).Fail? then
          SetPhase(s, id, Failed).(lock := Some(id))
        else
          SetPhase(s, id, Locked(s.row.numChanges, LoadedBox(s.row, Undefined(cfg.scale)))).(lock := Some(id))
      case Apply(id) =>
        if !tx.phase.Locked? then s
        else
          var updated := WriteBack(cfg, s.row, tx.op, tx.phase.count, tx.phase.box, tx.now);
          if updated.None? then SetPhase(s, id, Failed) else SetPhase(s, id, Written(updated.value))
      case Commit(id) =>
        if !tx.phase.Written? then s
        else SetPhase(s, id, Done).(row := tx.phase.pending, lock := None, log := s.log + [Entry(tx.op, tx.now)])
      case Abort(id) =>
        if tx.phase.Done? then s
        else SetPhase(s, id, Done).(lock := if s.lock == Some(id) then None else s.lock)
  }

  /** What a transaction writes from the count and the box that it read under the lock. */
  function WriteBack(cfg: Settings, row: ChangesetRow, op: Op, count: nat, box: Box, now: int): Option<ChangesetRow> {
    match op
    case Upload(stats, newBox) =>
      UpdatedRow(cfg, row, count, box, stats.Total(), NewCounters(cfg, row, stats), newBox, now)
    case Retag(tags) => UpdatedRow(cfg, row.(tags := tags), count, box, 0, row.counters, Undefined(cfg.scale), now)
    case Close => Some(row.(closedAt := now))
  }

  function Run(cfg: Settings, s: State, events: seq<Event>): State
    decreases |events|
  {
    if events == [] then s else Run(cfg, Step(cfg, s, events[0]), events[1..])
  }

  /**
   What every reachable state keeps: a transaction that works under the lock holds it and works on the committed
   row, and the committed row is the serial replay of the committed transactions.
   */
  ghost predicate Inv(cfg: Settings, start: ChangesetRow, s: State) {
    && (forall id :: id in s.txs && s.txs[id].Working() ==> s.lock == Some(id))
    && (s.lock.Some? ==> s.lock.value in s.txs && (s.txs[s.lock.value].Working() || s.txs[s.lock.value].phase.Failed?))
    && (forall id :: id in s.txs ==> TxInv(cfg, s.row, s.txs[id]))
    && Replay(cfg, start, s.log) == Some(s.row)
  }

  ghost predicate TxInv(cfg: Settings, row: ChangesetRow, tx: Tx) {
    && (tx.Working() ==> LockOutcome(cfg, Some(row), row.userId, tx.now, false, tx.op.Upload?).Pass?)
    && (tx.phase.Locked? ==> tx.phase.count == row.numChanges && tx.phase.box == LoadedBox(row, Undefined(cfg.scale)))
    && (tx.phase.Written? ==> ApplyOp(cfg, row, tx.op, tx.now) == Some(tx.phase.pending))
  }

  lemma {:induction false} StepKeepsInv(cfg: Settings, start: ChangesetRow, s: State, e: Event)
    requires Inv(cfg, start, s)
    ensures Inv(cfg, start, Step(cfg, s, e))
  {
    var s' := Step(cfg, s, e);
    if e.Commit? && e.id in s.txs && s.txs[e.id].phase.Written? {
      assert s'.log[..|s'.log| - 1] == s.log;
      assert forall id :: id in s'.txs && id != e.id ==> !s'.txs[id].Working();
    }
  }

  lemma {:induction false} RunKeepsInv(cfg: Settings, start: ChangesetRow, s: State, events: seq<Event>)
    requires Inv(cfg, start, s)
    ensures Inv(cfg, start, Run(cfg, s, events))
    decreases |events|
  {
    if events != [] {
      StepKeepsInv(cfg, start, s, events[0]);
      RunKeepsInv(cfg, start, Step(cfg, s, events[0]), events[1..]);
    }
  }

  /**
   Serializability: in every interleaving the committed row equals the committed transactions run one after the
   other in commit order, and two transactions never work under the lock at the same time.
   */
  lemma {:induction false} Serializable(cfg: Settings, user: int, now: int, tags: Tags, events: seq<Event>)
    ensures var s := Run(cfg, Init(cfg, user, now, tags), events);
            && Replay(cfg, NewRow(cfg, user, now, tags), s.log) == Some(s.row)
            && (forall a, b :: a in s.txs && b in s.txs && s.txs[a].Working() && s.txs[b].Working() ==> a == b)
  {
    RunKeepsInv(cfg, NewRow(cfg, user, now, tags), Init(cfg, user, now, tags), events);
  }

  /**
   Conservation over every interleaving: the element limit is never exceeded, the count is the exact sum of the
   committed uploads, given that their payloads can be received at all (and in general if and only if none of them
   exceeds the limit by itself), the counters agree with the count, and the box is the join of the committed boxes.
   */
  lemma {:induction false} Conservation(cfg: Settings, user: int, now: int, tags: Tags, events: seq<Event>)
    requires cfg.Valid()
    ensures var s := Run(cfg, Init(cfg, user, now, tags), events);
            && s.row.numChanges <= cfg.maxElements
            && (SizedEvents(events) ==> s.row.numChanges == SumTotals(s.log))
            && (s.row.numChanges == SumTotals(s.log) <==> WithinLimit(cfg, s.log))
            && s.row.counters.Total() == (if cfg.enhancedStats then SumTotals(s.log) else 0)
            && var join := JoinAll(Undefined(cfg.scale), EntryBoxes(cfg, s.log));
               s.row.box == (if join == Undefined(cfg.scale) then None else Some(join))
  {
    var s := Run(cfg, Init(cfg, user, now, tags), events);
    Serializable(cfg, user, now, tags, events);
    CountCongruent(cfg, user, now, tags, s.log);
    CountExact(cfg, user, now, tags, s.log);
    CountersExact(cfg, user, now, tags, s.log);
    BoxIsJoin(cfg, user, now, tags, s.log);
    if SizedEvents(events) {
      SizedRun(cfg, Init(cfg, user, now, tags), events);
      CountIsSum(cfg, user, now, tags, s.log);
    }
  }

  /** Every upload that begins in the run has a payload that can be received. */
  predicate SizedEvents(events: seq<Event>) {
    forall i :: 0 <= i < |events| && events[i].Begin? ==> PayloadSized(events[i].op)
  }

  predicate SizedState(s: State) {
    AllPayloadSized(s.log) && forall id :: id in s.txs ==> PayloadSized(s.txs[id].op)
  }

  lemma {:induction false} SizedStep(cfg: Settings, s: State, e: Event)
    requires SizedState(s) && (e.Begin? ==> PayloadSized(e.op))
    ensures SizedState(Step(cfg, s, e))
  {
  }

  lemma {:induction false} SizedRun(cfg: Settings, s: State, events: seq<Event>)
    requires SizedState(s) && SizedEvents(events)
    ensures SizedState(Run(cfg, s, events))
    decreases |events|
  {
    if events != [] {
      SizedStep(cfg, s, events[0]);
      assert forall i :: 0 <= i < |events[1..]| ==> events[1..][i] == events[i + 1];
      SizedRun(cfg, Step(cfg, s, events[0]), events[1..]);
    }
  }

  /** The closing time never passes creation plus the maximal opening time, in any interleaving. */
  lemma {:induction false} OpenTimeBounded(cfg: Settings, user: int, now: int, tags: Tags, events: seq<Event>)
    requires cfg.Valid() && cfg.idle <= cfg.maxOpen
    ensures var s := Run(cfg, Init(cfg, user, now, tags), events);
            s.row.closedAt <= s.row.createdAt + cfg.maxOpen
  {
    var s := Run(cfg, Init(cfg, user, now, tags), events);
    Serializable(cfg, user, now, tags, events);
    ClosingTimeBounded(cfg, user, now, tags, s.log);
    IdentityKept(cfg, user, now, tags, s.log);
  }

  /** Only the commit of the lock holder changes the committed row; refused and aborted transactions leave no trace. */
  lemma {:induction false} OnlyCommitChangesRow(cfg: Settings, s: State, e: Event)
    ensures Step(cfg, s, e).row != s.row || Step(cfg, s, e).log != s.log ==>
              e.Commit? && e.id in s.txs && s.txs[e.id].phase.Written?
  {
  }

  /** Nobody works under the lock. */
  ghost predicate Idle(s: State) { forall id :: id in s.txs ==> !s.txs[id].Working() }

  /** The event is a lock attempt that succeeds: on a free lock, where ownership, time and limit pass. */
  predicate LockSucceeds(cfg: Settings, s: State, e: Event) {
    && e.Lock? && e.id in s.txs && s.txs[e.id].phase.Owned? && s.lock.None?
    && LockOutcome(cfg, Some(s.row), s.txs[e.id].user, s.txs[e.id].now, false, s.txs[e.id].op.Upload?).Pass?
  }

  predicate NoLockSucceeds(cfg: Settings, s: State, events: seq<Event>)
    decreases |events|
  {
    events != [] ==> !LockSucceeds(cfg, s, events[0]) && NoLockSucceeds(cfg, Step(cfg, s, events[0]), events[1..])
  }

  ghost predicate AlwaysIdle(cfg: Settings, s: State, events: seq<Event>)
    decreases |events|
  {
    Idle(s) && (events != [] ==> AlwaysIdle(cfg, Step(cfg, s, events[0]), events[1..]))
  }

  lemma {:induction false} IdleStep(cfg: Settings, s: State, e: Event)
    requires Idle(s)
    ensures Idle(Step(cfg, s, e)) <==> !LockSucceeds(cfg, s, e)
    ensures Step(cfg, s, e).row == s.row && Step(cfg, s, e).log == s.log
  {
    if LockSucceeds(cfg, s, e) {
      assert Step(cfg, s, e).txs[e.id].phase.Locked?;
    }
  }

  /**
   Exactly when the row is left alone: in a run from a state in which nobody works, nobody ever does if and only if
   none of its lock attempts succeeds; the row and the log are then unchanged, and nobody works at the end.
   */
  lemma {:induction false} LeftAloneExactly(cfg: Settings, s: State, events: seq<Event>)
    requires Idle(s)
    ensures AlwaysIdle(cfg, s, events) <==> NoLockSucceeds(cfg, s, events)
    ensures NoLockSucceeds(cfg, s, events) ==>
      var s' := Run(cfg, s, events); s'.row == s.row && s'.log == s.log && Idle(s')
    decreases |events|
  {
    if events != [] {
      IdleStep(cfg, s, events[0]);
      if !LockSucceeds(cfg, s, events[0]) {
        LeftAloneExactly(cfg, Step(cfg, s, events[0]), events[1..]);
      }
    }
  }

  /** Every transaction that tries the lock in this run began at time `bound` or later. */
  ghost predicate LocksFrom(cfg: Settings, s: State, events: seq<Event>, bound: int)
    decreases |events|
  {
    events != [] ==>
      && (events[0].Lock? && events[0].id in s.txs ==> s.txs[events[0].id].now >= bound)
      && LocksFrom(cfg, Step(cfg, s, events[0]), events[1..], bound)
  }

  /** The changeset is closed for every transaction from time `bound` on, and nobody is writing to it. */
  ghost predicate ClosedFrom(s: State, bound: int) { s.row.closedAt < bound && Idle(s) }

  lemma {:induction false} LateLocksFail(cfg: Settings, s: State, events: seq<Event>, bound: int)
    requires ClosedFrom(s, bound) && LocksFrom(cfg, s, events, bound)
    ensures NoLockSucceeds(cfg, s, events)
    decreases |events|
  {
    if events != [] {
      IdleStep(cfg, s, events[0]);
      LateLocksFail(cfg, Step(cfg, s, events[0]), events[1..], bound);
    }
  }

  /**
   Closed stays closed: once a transaction at time `bound` finds the changeset closed, no later transaction
   succeeds or changes the row, provided that lock attempts come in the order of their transactions' times.
   */
  lemma {:induction false} ClosedForever(cfg: Settings, s: State, events: seq<Event>, bound: int)
    requires ClosedFrom(s, bound)
    requires LocksFrom(cfg, s, events, bound)
    ensures var s' := Run(cfg, s, events);
            s'.row == s.row && s'.log == s.log && ClosedFrom(s', bound)
  {
    LateLocksFail(cfg, s, events, bound);
    LeftAloneExactly(cfg, s, events);
  }

  /** A lock attempt that finds the row closed leaves exactly the situation that `ClosedForever` starts from. */
  lemma {:induction false} SeenClosed(cfg: Settings, start: ChangesetRow, s: State, id: int)
    requires Inv(cfg, start, s)
    requires id in s.txs && s.txs[id].phase.Owned? && s.lock.None?
    requires IsClosed(s.row, s.txs[id].now)
    ensures ClosedFrom(Step(cfg, s, Lock(id)), s.txs[id].now)
    ensures Step(cfg, s, Lock(id)).txs[id].phase.Failed?
  {
  }

  /** Committing a close ends the changeset at the transaction's time and leaves nobody working. */
  lemma {:induction false} CommittedCloseCloses(cfg: Settings, start: ChangesetRow, s: State, id: int)
    requires Inv(cfg, start, s) && id in s.txs && s.txs[id].phase.Written? && s.txs[id].op.Close?
    ensures var s' := Step(cfg, s, Commit(id));
      && s'.row.closedAt == s.txs[id].now && s'.row == s.row.(closedAt := s.txs[id].now)
      && s'.log == s.log + [Entry(Close, s.txs[id].now)] && s'.lock.None?
      && ClosedFrom(s', s.txs[id].now + 1)
  {
    CloseEffect(cfg, s.row, s.txs[id].now);
    var s' := Step(cfg, s, Commit(id));
    forall k | k in s'.txs
      ensures !s'.txs[k].Working()
    {
    }
  }

  /** So after a committed close, no run whose lock attempts begin later changes the row or commits anything. */
  lemma {:induction false} NothingAfterClose(cfg: Settings, start: ChangesetRow, s: State, id: int, events: seq<Event>)
    requires Inv(cfg, start, s) && id in s.txs && s.txs[id].phase.Written? && s.txs[id].op.Close?
    requires LocksFrom(cfg, Step(cfg, s, Commit(id)), events, s.txs[id].now + 1)
    ensures var end := Run(cfg, Step(cfg, s, Commit(id)), events);
      end.row == s.row.(closedAt := s.txs[id].now) && end.log == s.log + [Entry(Close, s.txs[id].now)]
  {
    CommittedCloseCloses(cfg, start, s, id);
    ClosedForever(cfg, Step(cfg, s, Commit(id)), events, s.txs[id].now + 1);
  }

  /** Commit and abort end a transaction and free the lock that it holds. */
  lemma {:induction false} EndingFreesLock(cfg: Settings, s: State, id: int)
    requires id in s.txs && !s.txs[id].phase.Done?
    ensures Step(cfg, s, Abort(id)).txs[id].phase.Done? && Step(cfg, s, Abort(id)).lock != Some(id)
    ensures s.txs[id].phase.Written? ==>
      Step(cfg, s, Commit(id)).txs[id].phase.Done? && Step(cfg, s, Commit(id)).lock.None?
  {
  }

  /** A transaction that meets nobody commits exactly what the rules say, and nothing if they refuse it. */
  lemma {:induction false} AloneCommits(cfg: Settings, s: State, id: int, op: Op, now: int)
    requires id !in s.txs && s.lock.None?
    ensures var begun := Step(cfg, Step(cfg, s, Begin(id, s.row.userId, op, now)), CheckOwner(id));
      var end := Step(cfg, Step(cfg, Step(cfg, begun, Lock(id)), Apply(id)), Commit(id));
      var r := RunAlone(cfg, s.row, Entry(op, now));
      if r.Some? then end.row == r.value && end.log == s.log + [Entry(op, now)] && end.txs[id].phase.Done?
      else end.row == s.row && end.log == s.log && end.txs[id].phase.Failed?
  {
    var begun := Step(cfg, Step(cfg, s, Begin(id, s.row.userId, op, now)), CheckOwner(id));
    assert begun.txs[id] == Tx(s.row.userId, op, now, Owned);
    var locked := Step(cfg, begun, Lock(id));
    if LockOutcome(cfg, Some(s.row), s.row.userId, now, false, op.Upload?).Pass? {
      assert locked.txs[id].phase.Locked?;
    } else {
      assert locked.txs[id].phase.Failed?;
    }
  }

  /** A transaction of another user fails at once, with the row and the lock untouched. */
  lemma {:induction false} ForeignFails(cfg: Settings, s: State, id: int, user: int, op: Op, now: int)
    requires id !in s.txs && user != s.row.userId
    ensures var end := Step(cfg, Step(cfg, s, Begin(id, user, op, now)), CheckOwner(id));
      end.txs[id].phase.Failed? && end.row == s.row && end.lock == s.lock && end.log == s.log
  {
  }

  /** The owner gets past the free lock exactly when it is not too late and, for an upload, below the element limit. */
  lemma {:induction false} LockSucceedsExactly(cfg: Settings, s: State, id: int)
    requires id in s.txs && s.txs[id].phase.Owned? && s.lock.None? && s.txs[id].user == s.row.userId
    ensures Step(cfg, s, Lock(id)).txs[id].phase.Locked?
            <==> s.txs[id].now <= s.row.closedAt && (s.txs[id].op.Upload? ==> s.row.numChanges < cfg.maxElements)
  {
  }

  lemma {:induction false} RunCons(cfg: Settings, s: State, e: Event, rest: seq<Event>)
    ensures Run(cfg, s, [e] + rest) == Run(cfg, Step(cfg, s, e), rest)
  {
  }

  lemma {:induction false} RunThree(cfg: Settings, s: State, a: Event, b: Event, c: Event)
    ensures Run(cfg, s, [a, b, c]) == Step(cfg, Step(cfg, Step(cfg, s, a), b), c)
  {
    assert [a, b, c] == [a] + [b, c] && [b, c] == [b] + [c] && [c] == [c] + [];
    RunCons(cfg, s, a, [b, c]);
    RunCons(cfg, Step(cfg, s, a), b, [c]);
    RunCons(cfg, Step(cfg, Step(cfg, s, a), b), c, []);
  }

  /**
   The state after transaction 1 has begun an upload at time 3 and transaction 2 has closed the changeset at time 5.
   */
  function AfterClose(cfg: Settings, op: Op, seen: bool): State {
    var txs := map[1 := Tx(7, op, 3, Owned), 2 := Tx(7, Close, 5, Done)];
    State(NewRow(cfg, 7, 0, map[]).(closedAt := 5), None,
          if seen then txs[3 := Tx(7, Close, 6, Done)] else txs, [Entry(Close, 5)])
  }

  lemma {:induction false} CloseRun(cfg: Settings, op: Op)
    requires cfg.idle >= 10
    ensures var begun := Run(cfg, Init(cfg, 7, 0, map[]), [Begin(1, 7, op, 3), CheckOwner(1), Begin(2, 7, Close, 5)]);
            var closing := Run(cfg, begun, [CheckOwner(2), Lock(2), Apply(2)]);
            Step(cfg, closing, Commit(2)) == AfterClose(cfg, op, false)
  {
    var row := NewRow(cfg, 7, 0, map[]);
    RunThree(cfg, Init(cfg, 7, 0, map[]), Begin(1, 7, op, 3), CheckOwner(1), Begin(2, 7, Close, 5));
    var begun := Run(cfg, Init(cfg, 7, 0, map[]), [Begin(1, 7, op, 3), CheckOwner(1), Begin(2, 7, Close, 5)]);
    assert begun == State(row, None, map[1 := Tx(7, op, 3, Owned), 2 := Tx(7, Close, 5, Begun)], []);
    RunThree(cfg, begun, CheckOwner(2), Lock(2), Apply(2));
    var closing := Run(cfg, begun, [CheckOwner(2), Lock(2), Apply(2)]);
    assert closing.txs == map[1 := Tx(7, op, 3, Owned), 2 := Tx(7, Close, 5, Written(row.(closedAt := 5)))];
  }

  lemma {:induction false} SeenRun(cfg: Settings, op: Op)
    ensures var seeing := Run(cfg, AfterClose(cfg, op, false), [Begin(3, 7, Close, 6), CheckOwner(3), Lock(3)]);
            seeing.txs[3].phase.Failed? && Step(cfg, seeing, Abort(3)) == AfterClose(cfg, op, true)
  {
    RunThree(cfg, AfterClose(cfg, op, false), Begin(3, 7, Close, 6), CheckOwner(3), Lock(3));
  }

  /**
   The order condition is needed: an upload that began at time 3, before the close at time 5, but locks after a
   transaction of time 6 has found the changeset closed, still succeeds and reopens the changeset.
   */
  lemma {:induction false} StaleTransactionReopens(cfg: Settings, stats: UploadStats, box: Box)
    requires cfg.Valid() && 10 <= cfg.idle <= cfg.maxOpen && stats.Total() <= cfg.maxElements
    ensures var op := Upload(stats, box);
            var begun := Run(cfg, Init(cfg, 7, 0, map[]), [Begin(1, 7, op, 3), CheckOwner(1), Begin(2, 7, Close, 5)]);
            var closed := Step(cfg, Run(cfg, begun, [CheckOwner(2), Lock(2), Apply(2)]), Commit(2));
            var seen := Step(cfg, Run(cfg, closed, [Begin(3, 7, Close, 6), CheckOwner(3), Lock(3)]), Abort(3));
            var reopened := Run(cfg, seen, [Lock(1), Apply(1), Commit(1)]);
            && ClosedFrom(seen, 6) && seen.row.closedAt == 5 && seen.log == [Entry(Close, 5)]
            && reopened.log == [Entry(Close, 5), Entry(op, 3)] && reopened.row.closedAt > 6
  {
    var op := Upload(stats, box);
    CloseRun(cfg, op);
    SeenRun(cfg, op);
    var seen := AfterClose(cfg, op, true);
    RunThree(cfg, seen, Lock(1), Apply(1), Commit(1));
    StaleUpload(cfg, seen, stats, box);
  }

  /** The stale upload on its own: lock, write and commit all succeed. */
  lemma {:induction false} StaleUpload(cfg: Settings, s: State, stats: UploadStats, box: Box)
    requires cfg.Valid() && 10 <= cfg.idle <= cfg.maxOpen && stats.Total() <= cfg.maxElements
    requires s.row == NewRow(cfg, 7, 0, map[]).(closedAt := 5) && s.lock == None
    requires 1 in s.txs && s.txs[1] == Tx(7, Upload(stats, box), 3, Owned)
    ensures var s' := Step(cfg, Step(cfg, Step(cfg, s, Lock(1)), Apply(1)), Commit(1));
            s'.log == s.log + [Entry(Upload(stats, box), 3)] && s'.row.closedAt > 6
  {
    assert AddChanges(0, stats.Total()) == stats.Total();
    var locked := Step(cfg, s, Lock(1));
    assert locked.txs[1].phase.Locked?;
    var written := Step(cfg, locked, Apply(1));
    assert written.txs[1].phase.Written?;
  }
}
