/**
 The rules of a changeset row: when it may be locked, and what an upload, a tag update and a close write to it.
 Time is counted in whole units of the database clock.
 */
module ChangesetRules {
  import opened Common
  import opened Bbox

  datatype Settings = Settings(maxElements: nat, maxOpen: nat, idle: nat, scale: nat, enhancedStats: bool) {
    /** The ranges that the option parser accepts. */
    predicate Valid() { 0 < maxElements <= 50000 && 0 < scale }
  }

  datatype ElementStats = ElementStats(created: nat, modified: nat, deleted: nat) {
    function Total(): nat { created + modified + deleted }

    function Plus(s: ElementStats): ElementStats {
      ElementStats(created + s.created, modified + s.modified, deleted + s.deleted)
    }
  }

  datatype UploadStats = UploadStats(node: ElementStats, way: ElementStats, relation: ElementStats) {
    function Total(): nat { node.Total() + way.Total() + relation.Total() }

    function Plus(s: UploadStats): UploadStats {
      UploadStats(node.Plus(s.node), way.Plus(s.way), relation.Plus(s.relation))
    }
  }

  const NO_STATS := UploadStats(ElementStats(0, 0, 0), ElementStats(0, 0, 0), ElementStats(0, 0, 0))

  type Tags = map<string, string>

  /** One row of the `changesets` table with its tags; the box columns are null together. */
  datatype ChangesetRow = ChangesetRow(
    userId: int,
    createdAt: int,
    closedAt: int,
    numChanges: nat,
    box: Option<Box>,
    counters: UploadStats,
    tags: Tags)

  /** The row that creating a changeset inserts. */
  function NewRow(cfg: Settings, user: int, now: int, tags: Tags): ChangesetRow {
    ChangesetRow(user, now, now + cfg.idle, 0, None, NO_STATS, tags)
  }

  /** The box an updater holds after reading the row: null columns leave the field as it was. */
  function LoadedBox(row: ChangesetRow, before: Box): Box {
    if row.box.Some? then row.box.value else before
  }

  predicate IsClosed(row: ChangesetRow, now: int) { now > row.closedAt }

  /** Outcome of the ownership check and of the row lock, in the order the checks are made. */
  function LockOutcome(cfg: Settings, row: Option<ChangesetRow>, user: int, now: int, contended: bool,
                       checkMax: bool): Outcome
  {
    if row.None? then Fail(NotFound)
    else if row.value.userId != user then Fail(Conflict)
    else if contended then Fail(Conflict)
    else if IsClosed(row.value, now) then Fail(Conflict)
    else if checkMax && row.value.numChanges >= cfg.maxElements then Fail(Conflict)
    else Pass
  }

  /** New closing time: `idle` from now, clipped to the maximal opening time. */
  function ExtendedClosingTime(cfg: Settings, row: ChangesetRow, now: int): int {
    if row.closedAt - row.createdAt > cfg.maxOpen - cfg.idle then row.createdAt + cfg.maxOpen else now + cfg.idle
  }

  /** The 32-bit sum of a count and an upload's total. */
  function AddChanges(count: nat, total: nat): nat { ToUint32(count + ToUint32(total)) }

  /** The counters after an upload, where they are kept. */
  function NewCounters(cfg: Settings, row: ChangesetRow, stats: UploadStats): UploadStats {
    if cfg.enhancedStats && stats.Total() > 0 then row.counters.Plus(stats) else row.counters
  }

  /**
   What updating the changeset writes for an upload of `total` changes in `newBox`, with the counters it leaves;
   `None` when the element limit is exceeded.
   */
  function UpdatedRow(cfg: Settings, row: ChangesetRow, count: nat, box: Box, total: nat, counters: UploadStats,
                      newBox: Box, now: int): (r: Option<ChangesetRow>)
    ensures r.Some? ==> r.value.userId == row.userId && r.value.createdAt == row.createdAt && r.value.tags == row.tags
  {
    if AddChanges(count, total) > cfg.maxElements then None
    else
      var joined := box.Expand(newBox);
      Some(row.(numChanges := AddChanges(count, total),
                box := if joined == Undefined(cfg.scale) then row.box else Some(joined),
                closedAt := ExtendedClosingTime(cfg, row, now),
                counters := counters))
  }

  /**
   The documented rule is the earlier of `idle` from now and the end of the maximal opening time. The code never
   closes earlier than that, and agrees with it exactly when the old closing time was not yet inside the last
   `idle` units, or now is.
   */
  lemma {:induction false} ClosingTimeVersusDocumented(cfg: Settings, row: ChangesetRow, now: int)
    requires !IsClosed(row, now) && row.closedAt <= row.createdAt + cfg.maxOpen
    ensures var documented := Min(now + cfg.idle, row.createdAt + cfg.maxOpen);
            && ExtendedClosingTime(cfg, row, now) >= documented
            && (ExtendedClosingTime(cfg, row, now) == documented <==>
                  row.closedAt - row.createdAt <= cfg.maxOpen - cfg.idle
                    || now - row.createdAt >= cfg.maxOpen - cfg.idle)
            && !IsClosed(row.(closedAt := ExtendedClosingTime(cfg, row, now)), now)
  {
  }

  datatype Op =
    | Upload(stats: UploadStats, box: Box)
    | Retag(tags: Tags)
    | Close

  /** The row after one whole transaction of the given kind, run by a fresh updater. */
  function ApplyOp(cfg: Settings, row: ChangesetRow, op: Op, now: int): (r: Option<ChangesetRow>)
    ensures r.Some? ==> r.value.userId == row.userId && r.value.createdAt == row.createdAt
    ensures r.Some? ==> r.value.tags == if op.Retag? then op.tags else row.tags
    ensures op.Close? ==> r.Some? && r.value.closedAt == now && r.value.numChanges == row.numChanges
    ensures op.Close? ==> r.Some? && r.value.box == row.box && r.value.counters == row.counters
  {
    var box := LoadedBox(row, Undefined(cfg.scale));
    match op
    case Upload(stats, newBox) =>
      UpdatedRow(cfg, row, row.numChanges, box, stats.Total(), NewCounters(cfg, row, stats), newBox, now)
    case Retag(tags) =>
      UpdatedRow(cfg, row.(tags := tags), row.numChanges, box, 0, row.counters, Undefined(cfg.scale), now)
    case Close => Some(row.(closedAt := now))
  }

  /** The closing time that an upload or a tag update writes. */
  predicate Prolonged(cfg: Settings, row: ChangesetRow, now: int, closedAt: int) {
    && (row.closedAt - row.createdAt > cfg.maxOpen - cfg.idle ==> closedAt == row.createdAt + cfg.maxOpen)
    && (row.closedAt - row.createdAt <= cfg.maxOpen - cfg.idle ==> closedAt == now + cfg.idle)
  }

  /** A close ends the changeset at its own time and changes nothing else, whatever the changeset holds. */
  lemma {:induction false} CloseEffect(cfg: Settings, row: ChangesetRow, now: int)
    ensures ApplyOp(cfg, row, Close, now).Some?
    ensures var closed := ApplyOp(cfg, row, Close, now).value;
      && closed.closedAt == now
      && closed.userId == row.userId && closed.createdAt == row.createdAt && closed.numChanges == row.numChanges
      && closed.box == row.box && closed.counters == row.counters && closed.tags == row.tags
    ensures forall later :: now < later ==> IsClosed(ApplyOp(cfg, row, Close, now).value, later)
  {
  }

  /** A tag update replaces the tags, prolongs the changeset and keeps what was counted. */
  lemma {:induction false} RetagEffect(cfg: Settings, row: ChangesetRow, tags: Tags, now: int)
    requires row.numChanges <= cfg.maxElements < 0x1_0000_0000
    requires row.box.Some? ==> Undefined(cfg.scale).Within(row.box.value)
    ensures var r := ApplyOp(cfg, row, Retag(tags), now);
      && r.Some? && r.value.tags == tags && Prolonged(cfg, row, now, r.value.closedAt)
      && r.value.userId == row.userId && r.value.createdAt == row.createdAt
      && r.value.numChanges == row.numChanges && r.value.box == row.box && r.value.counters == row.counters
  {
    assert AddChanges(row.numChanges, 0) == row.numChanges;
  }

  /** An upload is counted, joined to the box, and prolongs the changeset; it is refused exactly over the limit. */
  lemma {:induction false} UploadEffect(cfg: Settings, row: ChangesetRow, stats: UploadStats, box: Box, now: int)
    requires row.numChanges + stats.Total() < 0x1_0000_0000
    requires row.box.Some? ==> Undefined(cfg.scale).Within(row.box.value)
    ensures var r := ApplyOp(cfg, row, Upload(stats, box), now);
      && (r.None? <==> row.numChanges + stats.Total() > cfg.maxElements)
      && (r.Some? ==>
            && r.value.numChanges == row.numChanges + stats.Total() && Prolonged(cfg, row, now, r.value.closedAt)
            && r.value.userId == row.userId && r.value.createdAt == row.createdAt && r.value.tags == row.tags
            && (r.value.box.Some? ==> box.Within(r.value.box.value))
            && (r.value.box.None? ==> row.box.None? && box.Within(Undefined(cfg.scale)))
            && (row.box.Some? ==> r.value.box.Some? && row.box.value.Within(r.value.box.value)))
  {
    assert AddChanges(row.numChanges, stats.Total()) == row.numChanges + stats.Total();
  }

  /** A changeset is created empty and open for the idle time. */
  lemma {:induction false} NewRowIsEmpty(cfg: Settings, user: int, now: int, tags: Tags)
    ensures var row := NewRow(cfg, user, now, tags);
      && row.userId == user && row.createdAt == now && row.closedAt == now + cfg.idle && row.tags == tags
      && row.numChanges == 0 && row.box.None? && row.counters.Total() == 0
  {
  }
}
