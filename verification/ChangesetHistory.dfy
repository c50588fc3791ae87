/**
 Serial histories of one changeset: a log of committed transactions replayed on the row that creation inserted,
 and what every such history keeps.
 */
module ChangesetHistory {
  import opened Common
  import opened Bbox
  import opened ChangesetRules

  datatype Entry = Entry(op: Op, now: int)

  /** One transaction run alone: `None` when the lock checks or the element limit reject it. */
  function RunAlone(cfg: Settings, row: ChangesetRow, entry: Entry): (r: Option<ChangesetRow>)
    ensures r.Some? ==> r.value.userId == row.userId && r.value.createdAt == row.createdAt
    ensures r.Some? ==> r.value.tags == if entry.op.Retag? then entry.op.tags else row.tags
  {
    if LockOutcome(cfg, Some(row), row.userId, entry.now, false, entry.op.Upload?).Fail? then None
    else ApplyOp(cfg, row, entry.op, entry.now)
  }

  /** The row after the whole log; `None` when some entry of the log would have been rejected. */
  function Replay(cfg: Settings, row: ChangesetRow, log: seq<Entry>): Option<ChangesetRow> {
    if log == [] then Some(row)
    else
      var before := Replay(cfg, row, log[..|log| - 1]);
      if before.None? then None else RunAlone(cfg, before.value, log[|log| - 1])
  }

  /** The closing time after every committed transaction: a close sets its own time, everything else prolongs. */
  lemma {:induction false} ClosingTimeAfter(cfg: Settings, row: ChangesetRow, entry: Entry)
    requires RunAlone(cfg, row, entry).Some?
    ensures var closedAt := RunAlone(cfg, row, entry).value.closedAt;
      && (entry.op.Close? ==> closedAt == entry.now)
      && (!entry.op.Close? ==> Prolonged(cfg, row, entry.now, closedAt))
  {
  }

  function EntryTotal(e: Entry): nat { if e.op.Upload? then e.op.stats.Total() else 0 }

  function SumTotals(log: seq<Entry>): nat {
    if log == [] then 0 else SumTotals(log[..|log| - 1]) + EntryTotal(log[|log| - 1])
  }

  function LastTags(start: Tags, log: seq<Entry>): Tags {
    if log == [] then start
    else if log[|log| - 1].op.Retag? then log[|log| - 1].op.tags
    else LastTags(start, log[..|log| - 1])
  }

  function EntryBox(cfg: Settings, e: Entry): Box { if e.op.Upload? then e.op.box else Undefined(cfg.scale) }

  function EntryBoxes(cfg: Settings, log: seq<Entry>): seq<Box> {
    seq(|log|, i requires 0 <= i < |log| => EntryBox(cfg, log[i]))
  }

  /** Arithmetic of the guarded 32-bit addition. */
  lemma {:induction false} GuardedWrap(limit: nat, num: nat, sum: nat, total: nat)
    requires num <= limit <= 50000 && num == ToUint32(sum)
    requires AddChanges(num, total) <= limit
    ensures AddChanges(num, total) == ToUint32(sum + total)
    ensures ToUint32(sum + total) == sum + total <==> num == sum && total <= limit
  {
    ToUint32OfSum(sum, ToUint32(total));
    ToUint32OfSum(total, sum);
  }

  /** What one accepted entry does to the count. */
  lemma {:induction false} EntryCount(cfg: Settings, row: ChangesetRow, entry: Entry)
    requires row.numChanges <= cfg.maxElements <= 50000
    requires RunAlone(cfg, row, entry).Some?
    ensures var count := RunAlone(cfg, row, entry).value.numChanges;
            count <= cfg.maxElements && count == AddChanges(row.numChanges, EntryTotal(entry))
  {
    assert AddChanges(row.numChanges, 0) == row.numChanges;
  }

  /** One accepted entry on a count that is congruent to `sum`. */
  lemma {:induction false} CountStep(cfg: Settings, row: ChangesetRow, sum: nat, entry: Entry)
    requires cfg.Valid() && row.numChanges <= cfg.maxElements && row.numChanges == ToUint32(sum)
    requires RunAlone(cfg, row, entry).Some?
    ensures var count := RunAlone(cfg, row, entry).value.numChanges;
            && count <= cfg.maxElements && count == ToUint32(sum + EntryTotal(entry))
            && (count == sum + EntryTotal(entry) <==> row.numChanges == sum && EntryTotal(entry) <= cfg.maxElements)
  {
    EntryCount(cfg, row, entry);
    GuardedWrap(cfg.maxElements, row.numChanges, sum, EntryTotal(entry));
  }

  /** The element limit and the 32-bit count: never above the limit, and congruent to the sum of all uploads. */
  lemma {:induction false} CountCongruent(cfg: Settings, user: int, t0: int, tags: Tags, log: seq<Entry>)
    requires cfg.Valid()
    requires Replay(cfg, NewRow(cfg, user, t0, tags), log).Some?
    ensures var row := Replay(cfg, NewRow(cfg, user, t0, tags), log).value;
            row.numChanges <= cfg.maxElements && row.numChanges == ToUint32(SumTotals(log))
  {
    if log != [] {
      var front, last := log[..|log| - 1], log[|log| - 1];
      CountCongruent(cfg, user, t0, tags, front);
      CountStep(cfg, Replay(cfg, NewRow(cfg, user, t0, tags), front).value, SumTotals(front), last);
    }
  }

  predicate WithinLimit(cfg: Settings, log: seq<Entry>) {
    forall i :: 0 <= i < |log| ==> EntryTotal(log[i]) <= cfg.maxElements
  }

  lemma {:induction false} WithinLimitSplits(cfg: Settings, log: seq<Entry>)
    requires log != []
    ensures WithinLimit(cfg, log) <==>
      WithinLimit(cfg, log[..|log| - 1]) && EntryTotal(log[|log| - 1]) <= cfg.maxElements
  {
    assert forall i :: 0 <= i < |log| - 1 ==> log[..|log| - 1][i] == log[i];
  }

  /**
   Conservation in general: the committed count is the exact sum of the committed uploads' totals if and only if no
   committed upload carried more changes than the element limit. (From 2^32 - limit changes on the 32-bit sum would
   wrap, but no payload holds as many; `CountIsSum` draws that conclusion.)
   */
  lemma {:induction false} CountExact(cfg: Settings, user: int, t0: int, tags: Tags, log: seq<Entry>)
    requires cfg.Valid()
    requires Replay(cfg, NewRow(cfg, user, t0, tags), log).Some?
    ensures Replay(cfg, NewRow(cfg, user, t0, tags), log).value.numChanges == SumTotals(log)
            <==> WithinLimit(cfg, log)
  {
    if log != [] {
      var front, last := log[..|log| - 1], log[|log| - 1];
      CountExact(cfg, user, t0, tags, front);
      CountCongruent(cfg, user, t0, tags, front);
      CountStep(cfg, Replay(cfg, NewRow(cfg, user, t0, tags), front).value, SumTotals(front), last);
      WithinLimitSplits(cfg, log);
    }
  }

  /**
   The largest total of an upload: the payload limit is an unsigned 32-bit number of bytes, and every change takes at
   least the six characters of an empty element.
   */
  const MAX_UPLOAD_CHANGES: nat := 715827882

  predicate PayloadSized(op: Op) { op.Upload? ==> op.stats.Total() <= MAX_UPLOAD_CHANGES }

  predicate AllPayloadSized(log: seq<Entry>) { forall i :: 0 <= i < |log| ==> PayloadSized(log[i].op) }

  /** The 32-bit sum cannot wrap for such an upload, so passing the limit check means being within the limit. */
  lemma {:induction false} NoWrap(limit: nat, count: nat, total: nat)
    requires count <= limit <= 50000 && total <= MAX_UPLOAD_CHANGES && AddChanges(count, total) <= limit
    ensures total <= limit
  {
  }

  lemma {:induction false} SizedWithinLimit(cfg: Settings, user: int, t0: int, tags: Tags, log: seq<Entry>)
    requires cfg.Valid() && AllPayloadSized(log)
    requires Replay(cfg, NewRow(cfg, user, t0, tags), log).Some?
    ensures WithinLimit(cfg, log)
  {
    if log != [] {
      var front, last := log[..|log| - 1], log[|log| - 1];
      SizedWithinLimit(cfg, user, t0, tags, front);
      CountCongruent(cfg, user, t0, tags, front);
      var row := Replay(cfg, NewRow(cfg, user, t0, tags), front).value;
      EntryCount(cfg, row, last);
      NoWrap(cfg.maxElements, row.numChanges, EntryTotal(last));
      WithinLimitSplits(cfg, log);
    }
  }

  /** Conservation for every history of uploads that can be received: the count is the exact sum of their totals. */
  lemma {:induction false} CountIsSum(cfg: Settings, user: int, t0: int, tags: Tags, log: seq<Entry>)
    requires cfg.Valid() && AllPayloadSized(log)
    requires Replay(cfg, NewRow(cfg, user, t0, tags), log).Some?
    ensures Replay(cfg, NewRow(cfg, user, t0, tags), log).value.numChanges == SumTotals(log)
  {
    SizedWithinLimit(cfg, user, t0, tags, log);
    CountExact(cfg, user, t0, tags, log);
  }

  /** The nine counters, numbered. */
  function Counter(s: UploadStats, k: nat): nat
    requires k < 9
  {
    var e := if k < 3 then s.node else if k < 6 then s.way else s.relation;
    if k in {0, 3, 6} then e.created else if k in {1, 4, 7} then e.modified else e.deleted
  }

  function SumCounter(log: seq<Entry>, k: nat): nat
    requires k < 9
  {
    if log == [] then 0
    else
      var last := log[|log| - 1];
      SumCounter(log[..|log| - 1], k) + if last.op.Upload? then Counter(last.op.stats, k) else 0
  }

  /** And each of them counts its own kind of change. */
  lemma {:induction false} EachCounterExact(cfg: Settings, user: int, t0: int, tags: Tags, log: seq<Entry>, k: nat)
    requires cfg.Valid() && k < 9
    requires Replay(cfg, NewRow(cfg, user, t0, tags), log).Some?
    ensures Counter(Replay(cfg, NewRow(cfg, user, t0, tags), log).value.counters, k)
            == if cfg.enhancedStats then SumCounter(log, k) else 0
  {
    if log != [] {
      var front, last := log[..|log| - 1], log[|log| - 1];
      EachCounterExact(cfg, user, t0, tags, front, k);
      CounterStep(cfg, Replay(cfg, NewRow(cfg, user, t0, tags), front).value, last, k);
    }
  }

  lemma {:induction false} CounterStep(cfg: Settings, row: ChangesetRow, entry: Entry, k: nat)
    requires k < 9 && RunAlone(cfg, row, entry).Some?
    ensures Counter(RunAlone(cfg, row, entry).value.counters, k) ==
            Counter(row.counters, k) + if cfg.enhancedStats && entry.op.Upload? then Counter(entry.op.stats, k) else 0
  {
  }

  lemma {:induction false} TotalOfCounters(s: UploadStats)
    ensures s.Total() == Counter(s, 0) + Counter(s, 1) + Counter(s, 2) + Counter(s, 3) + Counter(s, 4)
                         + Counter(s, 5) + Counter(s, 6) + Counter(s, 7) + Counter(s, 8)
  {
  }

  lemma {:induction false} SumsAgree(log: seq<Entry>)
    ensures SumTotals(log) == SumCounter(log, 0) + SumCounter(log, 1) + SumCounter(log, 2) + SumCounter(log, 3)
                              + SumCounter(log, 4) + SumCounter(log, 5) + SumCounter(log, 6) + SumCounter(log, 7)
                              + SumCounter(log, 8)
  {
    if log != [] {
      SumsAgree(log[..|log| - 1]);
      if log[|log| - 1].op.Upload? {
        TotalOfCounters(log[|log| - 1].op.stats);
      }
    }
  }

  lemma {:induction false} TotalFromCounters(s: UploadStats, counting: bool, log: seq<Entry>)
    requires forall k: nat :: k < 9 ==> Counter(s, k) == if counting then SumCounter(log, k) else 0
    ensures s.Total() == if counting then SumTotals(log) else 0
  {
    TotalOfCounters(s);
    SumsAgree(log);
  }

  /** With enhanced statistics on, the nine counters together hold the exact sum of the uploads' totals. */
  lemma {:induction false} CountersExact(cfg: Settings, user: int, t0: int, tags: Tags, log: seq<Entry>)
    requires cfg.Valid()
    requires Replay(cfg, NewRow(cfg, user, t0, tags), log).Some?
    ensures Replay(cfg, NewRow(cfg, user, t0, tags), log).value.counters.Total() ==
      if cfg.enhancedStats then SumTotals(log) else 0
  {
    var counters := Replay(cfg, NewRow(cfg, user, t0, tags), log).value.counters;
    forall k: nat | k < 9
      ensures Counter(counters, k) == if cfg.enhancedStats then SumCounter(log, k) else 0
    {
      EachCounterExact(cfg, user, t0, tags, log, k);
    }
    TotalFromCounters(counters, cfg.enhancedStats, log);
  }

  /** The committed box is the join of the committed uploads' boxes, null exactly while the join is the default box. */
  lemma {:induction false} BoxIsJoin(cfg: Settings, user: int, t0: int, tags: Tags, log: seq<Entry>)
    requires Replay(cfg, NewRow(cfg, user, t0, tags), log).Some?
    ensures var join := JoinAll(Undefined(cfg.scale), EntryBoxes(cfg, log));
            Replay(cfg, NewRow(cfg, user, t0, tags), log).value.box ==
              if join == Undefined(cfg.scale) then None else Some(join)
  {
    var boxes := EntryBoxes(cfg, log);
    if log != [] {
      var front := log[..|log| - 1];
      BoxIsJoin(cfg, user, t0, tags, front);
      assert boxes[..|boxes| - 1] == EntryBoxes(cfg, front);
      JoinAllIsLeastUpperBound(Undefined(cfg.scale), boxes[..|boxes| - 1]);
      JoinAllIsLeastUpperBound(Undefined(cfg.scale), boxes);
    }
  }

  /** The stored box is null exactly when every committed upload's box adds nothing to the default box. */
  lemma {:induction false} BoxNullExactly(cfg: Settings, user: int, t0: int, tags: Tags, log: seq<Entry>)
    requires Replay(cfg, NewRow(cfg, user, t0, tags), log).Some?
    ensures Replay(cfg, NewRow(cfg, user, t0, tags), log).value.box.None?
            <==> forall i :: 0 <= i < |log| ==> EntryBox(cfg, log[i]).Within(Undefined(cfg.scale))
  {
    BoxIsJoin(cfg, user, t0, tags, log);
    JoinAllUnchanged(Undefined(cfg.scale), EntryBoxes(cfg, log));
    forall i | 0 <= i < |log|
      ensures EntryBoxes(cfg, log)[i] == EntryBox(cfg, log[i]) && EntryBoxes(cfg, log)[i] in EntryBoxes(cfg, log)
    {
    }
  }

  /** The owner and the creation time never change; the tags are those of the last committed tag update. */
  lemma {:induction false} IdentityKept(cfg: Settings, user: int, t0: int, tags: Tags, log: seq<Entry>)
    requires cfg.Valid()
    requires Replay(cfg, NewRow(cfg, user, t0, tags), log).Some?
    ensures var row := Replay(cfg, NewRow(cfg, user, t0, tags), log).value;
            && row.userId == user && row.createdAt == t0
            && row.tags == LastTags(tags, log)
  {
    if log != [] {
      var front, last := log[..|log| - 1], log[|log| - 1];
      IdentityKept(cfg, user, t0, tags, front);
    }
  }

  /** No history keeps a changeset open beyond the maximal opening time, given a sane idle timeout. */
  lemma {:induction false} ClosingTimeBounded(cfg: Settings, user: int, t0: int, tags: Tags, log: seq<Entry>)
    requires cfg.Valid() && cfg.idle <= cfg.maxOpen
    requires Replay(cfg, NewRow(cfg, user, t0, tags), log).Some?
    ensures Replay(cfg, NewRow(cfg, user, t0, tags), log).value.closedAt <= t0 + cfg.maxOpen
  {
    IdentityKept(cfg, user, t0, tags, log);
    if log != [] {
      ClosingTimeBounded(cfg, user, t0, tags, log[..|log| - 1]);
      IdentityKept(cfg, user, t0, tags, log[..|log| - 1]);
    }
  }

  /** The idle timeout is sane exactly when the bound holds of every history. */
  lemma {:induction false} ClosingTimeBoundedExactly(cfg: Settings)
    requires cfg.Valid()
    ensures cfg.idle <= cfg.maxOpen <==>
            forall user, t0, tags, log: seq<Entry> {:trigger Replay(cfg, NewRow(cfg, user, t0, tags), log)} ::
              Replay(cfg, NewRow(cfg, user, t0, tags), log).Some? ==>
                Replay(cfg, NewRow(cfg, user, t0, tags), log).value.closedAt <= t0 + cfg.maxOpen
  {
    if cfg.idle <= cfg.maxOpen {
      forall user, t0, tags, log: seq<Entry> | Replay(cfg, NewRow(cfg, user, t0, tags), log).Some?
        ensures Replay(cfg, NewRow(cfg, user, t0, tags), log).value.closedAt <= t0 + cfg.maxOpen
      {
        ClosingTimeBounded(cfg, user, t0, tags, log);
      }
    } else {
      assert Replay(cfg, NewRow(cfg, 0, 0, map[]), []).value.closedAt == cfg.idle;
    }
  }

  /**
   A history in which the closing time is not the documented one: created at 0, edited at 90 and at 95, with an idle
   time of 100 and a maximal opening time of 240. The second upload writes 240; the documented rule gives 195.
   */
  lemma {:induction false} ClosingTimeDiffers(cfg: Settings, stats: UploadStats, box: Box, tags: Tags)
    requires cfg.Valid() && cfg.maxOpen == 240 && cfg.idle == 100 && cfg.maxElements >= 2 && stats.Total() == 1
    ensures var log := [Entry(Upload(stats, box), 90), Entry(Upload(stats, box), 95)];
      var row := Replay(cfg, NewRow(cfg, 7, 0, tags), log);
      row.Some? && row.value.closedAt == 240 && Min(95 + cfg.idle, 0 + cfg.maxOpen) == 195
  {
    var start := NewRow(cfg, 7, 0, tags);
    var first, second := Entry(Upload(stats, box), 90), Entry(Upload(stats, box), 95);
    assert [first, second][..1] == [first] && [first][..0] == [];
    assert Replay(cfg, start, []) == Some(start);
    var row := Replay(cfg, start, [first]);
    assert row == RunAlone(cfg, start, first);
    assert row.Some? && row.value.closedAt == 190 && row.value.numChanges == 1;
    assert Replay(cfg, start, [first, second]) == RunAlone(cfg, row.value, second);
  }
}
