/**
 The changeset updater over one database transaction, and the upload driver that uses it.
 The methods issue the same statements in the same order as the database code; each contract gives the outcome
 and the whole new row as functions of `ChangesetRules`, which the concurrent protocol then composes.
 */
module ChangesetUpdater {
  import opened Common
  import opened Bbox
  import opened ChangesetRules

  /** A database transaction: the rows as it sees them, the rows others hold locked, and its fixed `now()`. */
  class Transaction {
    const now: int
    const contended: set<int>
    var rows: map<int, ChangesetRow>
    var held: set<int>
    var committed: bool

    constructor (now: int, rows: map<int, ChangesetRow>, contended: set<int>)
      ensures this.now == now && this.rows == rows && this.contended == contended
      ensures held == {} && !committed
    {
      this.now, this.rows, this.contended := now, rows, contended;
      held, committed := {}, false;
    }

    function Row(id: int): Option<ChangesetRow>
      reads this
    {
      if id in rows then Some(rows[id]) else None
    }

    method Commit()
      modifies this`committed
      ensures committed
    {
      committed := true;
    }
  }

  class ApiDBChangesetUpdater {
    const cfg: Settings
    const tx: Transaction
    const user: int
    var changeset: int
    var csNumChanges: nat
    var csBox: Box

    constructor (cfg: Settings, tx: Transaction, user: int, changeset: int)
      ensures this.cfg == cfg && this.tx == tx && this.user == user && this.changeset == changeset
      ensures csNumChanges == 0 && csBox == Undefined(cfg.scale)
    {
      this.cfg, this.tx, this.user, this.changeset := cfg, tx, user, changeset;
      csNumChanges, csBox := 0, Undefined(cfg.scale);
    }

    method CheckUserOwnsChangeset() returns (r: Outcome)
      ensures r == (if tx.Row(changeset).None? then Fail(NotFound)
                    else if tx.rows[changeset].userId != user then Fail(Conflict) else Pass)
    {
      if changeset !in tx.rows {
        return Fail(NotFound);
      }
      if tx.rows[changeset].userId != user {
        return Fail(Conflict);
      }
      return Pass;
    }

    /** `SELECT … FOR UPDATE NOWAIT` on the row of this changeset and user, then load the fields. */
    method LockCs() returns (r: Outcome, isClosed: bool)
      modifies this`csNumChanges, this`csBox, tx`held
      ensures r.Pass? <==> changeset !in tx.contended && changeset in tx.rows && tx.rows[changeset].userId == user
      ensures r.Fail? ==>
        r.error == Conflict && csNumChanges == old(csNumChanges) && csBox == old(csBox) && tx.held == old(tx.held)
      ensures r.Pass? ==>
                var row := tx.rows[changeset];
                && csNumChanges == row.numChanges && csBox == LoadedBox(row, old(csBox))
                && isClosed == IsClosed(row, tx.now) && tx.held == old(tx.held) + {changeset}
    {
      isClosed := false;
      if changeset in tx.contended {
        return Fail(Conflict), isClosed;
      }
      if changeset !in tx.rows || tx.rows[changeset].userId != user {
        return Fail(Conflict), isClosed;
      }
      var row := tx.rows[changeset];
      tx.held := tx.held + {changeset};
      csNumChanges := row.numChanges;
      isClosed := tx.now > row.closedAt;
      if row.box.Some? {
        csBox := row.box.value;
      }
      r := Pass;
    }

    method LockCurrentChangeset(checkMaxElementsLimit: bool) returns (r: Outcome)
      modifies this`csNumChanges, this`csBox, tx`held
      ensures r == LockOutcome(cfg, tx.Row(changeset), user, tx.now, changeset in tx.contended, checkMaxElementsLimit)
      ensures r.Pass? ==>
                && csNumChanges == tx.rows[changeset].numChanges
                && csBox == LoadedBox(tx.rows[changeset], old(csBox))
                && tx.held == old(tx.held) + {changeset}
    {
      r := CheckUserOwnsChangeset();
      if r.Fail? { return; }
      var isClosed;
      r, isClosed := LockCs();
      if r.Fail? { return; }
      if isClosed {
        return Fail(Conflict);
      }
      if checkMaxElementsLimit && csNumChanges >= cfg.maxElements {
        return Fail(Conflict);
      }
    }

    /** Write the fields back: absolute count and box, the extended closing time, relative counters. */
    method UpdateChangeset(stats: UploadStats, box: Box) returns (r: Outcome)
      requires changeset in tx.rows
      modifies this`csNumChanges, this`csBox, tx`rows
      ensures var updated := UpdatedRow(cfg, old(tx.rows[changeset]), old(csNumChanges), old(csBox), stats.Total(),
                                        NewCounters(cfg, old(tx.rows[changeset]), stats), box, tx.now);
              && (updated.None? ==>
                    r == Fail(Conflict) && tx.rows == old(tx.rows) && csNumChanges == old(csNumChanges)
                      && csBox == old(csBox))
              && (updated.Some? ==>
                    && r == Pass && tx.rows == old(tx.rows)[changeset := updated.value]
                    && csNumChanges == updated.value.numChanges && csBox == old(csBox).Expand(box))
    {
      var numNewChanges := ToUint32(stats.Total());
      if ToUint32(csNumChanges + numNewChanges) > cfg.maxElements {
        return Fail(Conflict);
      }
      csNumChanges := ToUint32(csNumChanges + numNewChanges);
      csBox := csBox.Expand(box);
      var row := tx.rows[changeset];
      var closedAt := ExtendedClosingTime(cfg, row, tx.now);
      if csBox != Undefined(cfg.scale) {
        row := row.(numChanges := csNumChanges, box := Some(csBox), closedAt := closedAt);
      } else {
        row := row.(numChanges := csNumChanges, closedAt := closedAt);
      }
      tx.rows := tx.rows[changeset := row];
      UpdateEnhancedStats(stats);
      r := Pass;
    }

    method UpdateEnhancedStats(stats: UploadStats)
      requires changeset in tx.rows
      modifies tx`rows
      ensures var row := old(tx.rows[changeset]);
              tx.rows == old(tx.rows)[changeset := row.(counters := NewCounters(cfg, row, stats))]
    {
      if cfg.enhancedStats && stats.Total() > 0 {
        var row := tx.rows[changeset];
        tx.rows := tx.rows[changeset := row.(counters := row.counters.Plus(stats))];
      }
    }

    /** Insert the row under the id the sequence hands out, with its tags. */
    method ApiCreateChangeset(newId: int, tags: Tags) returns (id: int)
      requires newId !in tx.rows
      modifies this`changeset, tx`rows
      ensures id == newId == changeset
      ensures tx.rows == old(tx.rows)[newId := NewRow(cfg, user, tx.now, tags)]
    {
      tx.rows := tx.rows[newId := ChangesetRow(user, tx.now, tx.now + cfg.idle, 0, None, NO_STATS, map[])];
      changeset := newId;
      tx.rows := tx.rows[changeset := tx.rows[changeset].(tags := tags)];
      id := changeset;
    }

    /** Delete the tags of the changeset, then insert the new ones. */
    method ReplaceTags(tags: Tags)
      requires changeset in tx.rows
      modifies tx`rows
      ensures tx.rows == old(tx.rows)[changeset := old(tx.rows)[changeset].(tags := tags)]
    {
      tx.rows := tx.rows[changeset := tx.rows[changeset].(tags := map[])];
      tx.rows := tx.rows[changeset := tx.rows[changeset].(tags := tags)];
    }

    /** The statistics of an upload without changes. */
    static method NoStatistics() returns (stats: UploadStats)
      ensures stats.Total() == 0
    {
      stats := NO_STATS;
    }

    /** On a fresh updater a tag update is exactly `Retag` of the rules, guarded by the lock. */
    method ApiUpdateChangeset(tags: Tags) returns (r: Outcome)
      requires csBox == Undefined(cfg.scale)
      modifies this`csNumChanges, this`csBox, tx`rows, tx`held
      ensures var lock := LockOutcome(cfg, old(tx.Row(changeset)), user, tx.now, changeset in tx.contended, false);
              && (lock.Fail? ==> r == lock && tx.rows == old(tx.rows))
              && (lock.Pass? ==>
                    var updated := ApplyOp(cfg, old(tx.rows[changeset]), Retag(tags), tx.now);
                    && (r.Pass? <==> updated.Some?)
                    && (r.Pass? ==> tx.rows == old(tx.rows)[changeset := updated.value]))
    {
      r := LockCurrentChangeset(false);
      if r.Fail? { return; }
      ghost var before := tx.rows;
      ReplaceTags(tags);
      var stats := NoStatistics();
      RetagIsUpdate(cfg, before[changeset], tags, stats, tx.now);
      ghost var updated := ApplyOp(cfg, before[changeset], Retag(tags), tx.now);
      if updated.Some? {
        Overwritten(before, changeset, tx.rows[changeset], updated.value);
      }
      r := UpdateChangeset(stats, Undefined(cfg.scale));
    }

    method ApiCloseChangeset() returns (r: Outcome)
      modifies this`csNumChanges, this`csBox, tx`rows, tx`held
      ensures r == LockOutcome(cfg, old(tx.Row(changeset)), user, tx.now, changeset in tx.contended, false)
      ensures r.Fail? ==> tx.rows == old(tx.rows)
      ensures r.Pass? ==> tx.rows == old(tx.rows)[changeset := old(tx.rows)[changeset].(closedAt := tx.now)]
      ensures r.Pass? ==> Some(tx.rows[changeset]) == ApplyOp(cfg, old(tx.rows[changeset]), Close, tx.now)
    {
      r := LockCurrentChangeset(false);
      if r.Fail? { return; }
      tx.rows := tx.rows[changeset := tx.rows[changeset].(closedAt := tx.now)];
    }
  }

  /** Updating a retagged row without changes is the rules' `Retag` of the row. */
  lemma {:induction false} RetagIsUpdate(cfg: Settings, row: ChangesetRow, tags: Tags, stats: UploadStats, now: int)
    requires stats.Total() == 0
    ensures var retagged := row.(tags := tags); var box := LoadedBox(row, Undefined(cfg.scale));
      UpdatedRow(cfg, retagged, row.numChanges, box, stats.Total(), NewCounters(cfg, retagged, stats),
        Undefined(cfg.scale), now)
      == ApplyOp(cfg, row, Retag(tags), now)
  {
  }

  lemma {:induction false} Overwritten(rows: map<int, ChangesetRow>, id: int, first: ChangesetRow, second: ChangesetRow)
    ensures rows[id := first][id := second] == rows[id := second]
  {
  }

  /** What running the parser and the handler over the payload yields. */
  datatype Parsed = Parsed(stats: UploadStats, box: Box)

  /** The limits that the driver looks up; `None` where the limiter is switched off. */
  datatype Limits = Limits(maxChanges: Option<int>, maxBoxSize: Option<int>)

  /** The first check of an upload that fails, in the order of the responder. */
  function UploadOutcome(cfg: Settings, row: Option<ChangesetRow>, user: Option<int>, now: int, contended: bool,
                         payload: Result<Parsed>, limits: Limits): Outcome
  {
    if user.None? then Fail(ServerError)
    else
      var lock := LockOutcome(cfg, row, user.value, now, contended, true);
      if lock.Fail? then lock
      else if payload.Err? then Fail(payload.error)
      else if limits.maxChanges.Some? && payload.value.stats.Total() > limits.maxChanges.value then
        Fail(TooManyRequests)
      else if AddChanges(row.value.numChanges, payload.value.stats.Total()) > cfg.maxElements then Fail(Conflict)
      else
        var box := LoadedBox(row.value, Undefined(cfg.scale)).Expand(payload.value.box);
        if limits.maxBoxSize.Some? && box != Undefined(cfg.scale) && box.LinearSize() > limits.maxBoxSize.value then
          Fail(PayloadTooLarge)
        else Pass
  }

  /**
   The upload responder: lock, parse, rate limit, update, box size limit, commit.
   It commits exactly when every check passes, and then the row is the rules' `Upload` of the locked row.
   */
  method UploadChangeset(cfg: Settings, tx: Transaction, user: Option<int>, changeset: int, payload: Result<Parsed>,
                         limits: Limits)
    returns (r: Outcome)
    requires !tx.committed
    modifies tx
    ensures tx.committed == r.Pass?
    ensures r == UploadOutcome(cfg, old(tx.Row(changeset)), user, tx.now, changeset in tx.contended, payload, limits)
    ensures user.None? ==> r == Fail(ServerError)
    ensures r.Pass? <==>
              && user.Some? && payload.Ok?
              && LockOutcome(cfg, old(tx.Row(changeset)), user.value, tx.now, changeset in tx.contended, true).Pass?
              && (limits.maxChanges.Some? ==> payload.value.stats.Total() <= limits.maxChanges.value)
              && var row := ApplyOp(cfg, old(tx.rows[changeset]), Upload(payload.value.stats, payload.value.box),
                tx.now);
              && row.Some?
              && var box := LoadedBox(old(tx.rows[changeset]), Undefined(cfg.scale)).Expand(payload.value.box);
              && (limits.maxBoxSize.Some? && box != Undefined(cfg.scale) ==>
                box.LinearSize() <= limits.maxBoxSize.value)
    ensures r.Pass? ==>
              var row := ApplyOp(cfg, old(tx.rows[changeset]), Upload(payload.value.stats, payload.value.box), tx.now);
              tx.rows == old(tx.rows)[changeset := row.value]
  {
    if user.None? {
      return Fail(ServerError);
    }
    var updater := new ApiDBChangesetUpdater(cfg, tx, user.value, changeset);
    r := updater.LockCurrentChangeset(true);
    if r.Fail? { return; }
    if payload.Err? {
      return Fail(payload.error);
    }
    var newChanges := payload.value.stats.Total();
    if limits.maxChanges.Some? && newChanges > limits.maxChanges.value {
      return Fail(TooManyRequests);
    }
    r := updater.UpdateChangeset(payload.value.stats, payload.value.box);
    if r.Fail? { return; }
    if limits.maxBoxSize.Some? {
      var csBox := updater.csBox;
      if csBox != Undefined(cfg.scale) && csBox.LinearSize() > limits.maxBoxSize.value {
        return Fail(PayloadTooLarge);
      }
    }
    tx.Commit();
  }

  /** The row may be locked: it is the user's, not held by another, still open, and below the element limit. */
  predicate Lockable(cfg: Settings, row: ChangesetRow, user: int, now: int, contended: bool) {
    row.userId == user && !contended && now <= row.closedAt && row.numChanges < cfg.maxElements
  }

  /** The sum of the side lengths of the smallest box around two. */
  function JoinedSize(a: Box, b: Box): int {
    (if a.maxLon < b.maxLon then b.maxLon else a.maxLon) - (if a.minLon < b.minLon then a.minLon else b.minLon)
    + (if a.maxLat < b.maxLat then b.maxLat else a.maxLat) - (if a.minLat < b.minLat then a.minLat else b.minLat)
  }

  /** The upload with its changes added in 32 bits exceeds the element limit. */
  predicate OverLimit(cfg: Settings, row: ChangesetRow, p: Parsed) {
    (row.numChanges + p.stats.Total() % 0x1_0000_0000) % 0x1_0000_0000 > cfg.maxElements
  }

  predicate OverRate(limits: Limits, p: Parsed) {
    limits.maxChanges.Some? && p.stats.Total() > limits.maxChanges.value
  }

  /** Which error an upload ends with: each check in turn, given that those before it pass. */
  lemma {:induction false} UploadErrors(cfg: Settings, row: Option<ChangesetRow>, user: Option<int>, now: int,
                                        contended: bool, payload: Result<Parsed>, limits: Limits)
    ensures var r := UploadOutcome(cfg, row, user, now, contended, payload, limits);
      && (user.None? ==> r == Fail(ServerError))
      && (user.Some? && row.None? ==> r == Fail(NotFound))
      && (user.Some? && row.Some? && !Lockable(cfg, row.value, user.value, now, contended) ==> r == Fail(Conflict))
      && (user.Some? && row.Some? && Lockable(cfg, row.value, user.value, now, contended) ==>
            && (payload.Err? ==> r == Fail(payload.error))
            && (payload.Ok? && OverRate(limits, payload.value) ==> r == Fail(TooManyRequests))
            && (payload.Ok? && !OverRate(limits, payload.value) && OverLimit(cfg, row.value, payload.value) ==>
                  r == Fail(Conflict))
            && (payload.Ok? && !OverRate(limits, payload.value) && !OverLimit(cfg, row.value, payload.value) ==>
                  var before := if row.value.box.Some? then row.value.box.value else Undefined(cfg.scale);
                  var tooLarge := limits.maxBoxSize.Some? && before.Expand(payload.value.box) != Undefined(cfg.scale)
                    && JoinedSize(before, payload.value.box) > limits.maxBoxSize.value;
                  r == if tooLarge then Fail(PayloadTooLarge) else Pass))
  {
  }
}
