/**
 Multi-resolution downsampling (internal/hub/metrics/downsampler.go) as steps over a store of rows.
 Times are milliseconds since Go's zero time, the origin time.Truncate works from. Numbers are reals.
 What the database does in one call (which rows the query returns, which lookups, saves and deletes fail,
 which ids inserts get) is part of the step.
 */
module DownsamplerModel {
  import opened Sequences
  import opened Wrappers

  const BATCH_LIMIT: nat := 500
  const SAMPLES := "_samples"

  type RowId = nat

  datatype Value = Num(n: real) | Text(s: string) | Other

  type Fields = map<string, Value>

  datatype Resolution = Raw | OneMinute | FiveMinutes | OneHour

  /** data is None when the stored JSON does not parse. */
  datatype Row = Row(agent: string, kind: string, at: int, res: Resolution, data: Option<Fields>)

  datatype Bucket = Bucket(agent: string, kind: string, at: int)

  /** The database's side of one downsample call. */
  datatype Answers = Answers(
    batch: seq<RowId>,
    lookupFails: set<Bucket>,
    saveFails: set<Bucket>,
    deleteFails: set<RowId>,
    newIds: map<RowId, Bucket>)

  /** The stored rows, plus history: every raw row ever stored, and the raw rows each row descends from. */
  datatype World = World(rows: map<RowId, Row>, raws: map<RowId, Row>, origins: map<RowId, set<RowId>>)

  datatype Event =
    | Ingested(id: RowId, row: Row)
    | Downsampled(source: Resolution, cutoff: int, db: Answers)

  const EMPTY := World(map[], map[], map[])

  function Coarser(res: Resolution): Resolution
    requires res != OneHour
  {
    match res
    case Raw => OneMinute
    case OneMinute => FiveMinutes
    case FiveMinutes => OneHour
  }

  /** The start of the bucket t falls into: time.Truncate by one minute, five minutes or one hour. A raw row
      stands for its own millisecond. */
  function BucketStart(t: int, res: Resolution): int {
    match res
    case Raw => t
    case OneMinute => t - t % 60_000
    case FiveMinutes => t - t % 300_000
    case OneHour => t - t % 3_600_000
  }

  function BucketOf(row: Row, target: Resolution): Bucket {
    Bucket(row.agent, row.kind, BucketStart(row.at, target))
  }

  // ---- averages ---------------------------------------------------------------------------------

  predicate IsNum(data: Fields, k: string) {
    k in data && data[k].Num?
  }

  function Sum(maps: seq<Fields>, k: string): real {
    if maps == [] then 0.0 else Sum(Front(maps), k) + if IsNum(Last(maps), k) then Last(maps)[k].n else 0.0
  }

  function Count(maps: seq<Fields>, k: string): nat {
    if maps == [] then 0 else Count(Front(maps), k) + if IsNum(Last(maps), k) then 1 else 0
  }

  function LastText(maps: seq<Fields>, k: string): Option<string> {
    if maps == [] then None
    else if k in Last(maps) && Last(maps)[k].Text? then Some(Last(maps)[k].s)
    else LastText(Front(maps), k)
  }

  function AllKeys(maps: seq<Fields>): set<string> {
    set i, k | 0 <= i < |maps| && k in maps[i] :: k
  }

  /** The mean of the numeric values of a field, or else its last text value. */
  function AverageField(maps: seq<Fields>, k: string): Option<Value> {
    if Count(maps, k) > 0 then Some(Num(Sum(maps, k) / Count(maps, k) as real))
    else if LastText(maps, k).Some? then Some(Text(LastText(maps, k).value))
    else None
  }

  function AverageOf(maps: seq<Fields>): Fields {
    map k | k in AllKeys(maps) && AverageField(maps, k).Some? :: AverageField(maps, k).value
  }

  function Parsed(rows: map<RowId, Row>, ids: seq<RowId>): seq<Fields>
    requires AllStored(rows, ids)
  {
    if ids == [] then []
    else
      var before := Parsed(rows, Front(ids));
      if rows[Last(ids)].data.Some? then before + [rows[Last(ids)].data.value] else before
  }

  function AverageDataOf(rows: map<RowId, Row>, ids: seq<RowId>): Fields
    requires AllStored(rows, ids)
  {
    AverageOf(Parsed(rows, ids))[SAMPLES := Num(|ids| as real)]
  }

  // ---- one downsample call ----------------------------------------------------------------------

  predicate AllStored(rows: map<RowId, Row>, ids: seq<RowId>) {
    forall i :: 0 <= i < |ids| ==> ids[i] in rows
  }

  /** The rows of the batch that fall into a bucket, in batch order. */
  function Members(rows: map<RowId, Row>, batch: seq<RowId>, target: Resolution, b: Bucket): (ids: seq<RowId>)
    requires AllStored(rows, batch)
    ensures forall id :: id in ids <==> id in batch && BucketOf(rows[id], target) == b
    ensures AllStored(rows, ids)
  {
    if batch == [] then []
    else
      var before := Members(rows, Front(batch), target, b);
      if BucketOf(rows[Last(batch)], target) == b then before + [Last(batch)] else before
  }

  function BucketsOf(rows: map<RowId, Row>, batch: seq<RowId>, target: Resolution): set<Bucket>
    requires AllStored(rows, batch)
  {
    set i | 0 <= i < |batch| :: BucketOf(rows[batch[i]], target)
  }

  predicate IsAggregateFor(row: Row, target: Resolution, b: Bucket) {
    row.res == target && row.agent == b.agent && row.kind == b.kind && row.at == b.at
  }

  predicate HasAggregate(rows: map<RowId, Row>, target: Resolution, b: Bucket) {
    exists id <- rows :: IsAggregateFor(rows[id], target, b)
  }

  /** The lookup ignores its error: a failed one looks like "no aggregate yet". */
  predicate FindsAggregate(rows: map<RowId, Row>, target: Resolution, db: Answers, b: Bucket) {
    b !in db.lookupFails && HasAggregate(rows, target, b)
  }

  predicate Aggregates(rows: map<RowId, Row>, target: Resolution, db: Answers, b: Bucket) {
    !FindsAggregate(rows, target, db, b) && b !in db.saveFails
  }

  predicate Deletes(rows: map<RowId, Row>, target: Resolution, db: Answers, id: RowId)
    requires id in rows
  {
    var b := BucketOf(rows[id], target);
    id in db.batch && id !in db.deleteFails && (FindsAggregate(rows, target, db, b) || b !in db.saveFails)
  }

  function AggregateRow(rows: map<RowId, Row>, target: Resolution, db: Answers, b: Bucket): Row
    requires AllStored(rows, db.batch)
  {
    Row(b.agent, b.kind, b.at, target, Some(AverageDataOf(rows, Members(rows, db.batch, target, b))))
  }

  /** What the query promises: distinct stored rows of the source resolution before the cutoff, oldest first,
      at most BATCH_LIMIT of them, and no row left out that is older than one returned (or left out at all
      when there is room). A failed query is an empty batch. */
  ghost predicate IsBatch(rows: map<RowId, Row>, source: Resolution, cutoff: int, batch: seq<RowId>) {
    && |batch| <= BATCH_LIMIT
    && (forall i, j :: 0 <= i < j < |batch| ==> batch[i] != batch[j])
    && (forall i :: 0 <= i < |batch| ==> batch[i] in rows && rows[batch[i]].res == source && rows[batch[i]].at < cutoff)
    && (forall i, j :: 0 <= i < j < |batch| ==> rows[batch[i]].at <= rows[batch[j]].at)
    && (batch != [] ==> forall id <- rows :: rows[id].res == source && rows[id].at < cutoff && id !in batch ==>
          |batch| == BATCH_LIMIT && rows[Last(batch)].at <= rows[id].at)
  }

  /** Every bucket of the batch has one unused id waiting for its aggregate. */
  ghost predicate FreshIds(w: World, target: Resolution, db: Answers)
    requires AllStored(w.rows, db.batch)
  {
    && Unused(w, db.newIds.Keys)
    && OneIdPerBucket(db)
    && db.newIds.Values == BucketsOf(w.rows, db.batch, target)
  }

  ghost predicate OneIdPerBucket(db: Answers) {
    forall id <- db.newIds, id' <- db.newIds :: db.newIds[id] == db.newIds[id'] ==> id == id'
  }

  ghost predicate Unused(w: World, ids: set<RowId>) {
    ids !! w.rows.Keys && ids !! w.origins.Keys
  }

  ghost predicate Enabled(w: World, ev: Event) {
    match ev
    case Ingested(id, row) => Unused(w, {id}) && row.res == Raw
    case Downsampled(source, cutoff, db) =>
      && source != OneHour
      && IsBatch(w.rows, source, cutoff, db.batch)
      && FreshIds(w, Coarser(source), db)
  }

  /** The source rows one call deletes. */
  function Removes(rows: map<RowId, Row>, target: Resolution, db: Answers): set<RowId> {
    set id <- rows | Deletes(rows, target, db, id)
  }

  /** The aggregates one call inserts. */
  function Merges(rows: map<RowId, Row>, target: Resolution, db: Answers): map<RowId, Row>
    requires AllStored(rows, db.batch)
  {
    map id | id in db.newIds && Aggregates(rows, target, db, db.newIds[id]) ::
      AggregateRow(rows, target, db, db.newIds[id])
  }

  function OriginsOf(origins: map<RowId, set<RowId>>, ids: seq<RowId>): set<RowId> {
    set i, o | 0 <= i < |ids| && ids[i] in origins && o in origins[ids[i]] :: o
  }

  function MergedOrigins(w: World, target: Resolution, db: Answers): map<RowId, set<RowId>>
    requires AllStored(w.rows, db.batch)
  {
    map id | id in Merges(w.rows, target, db) :: OriginsOf(w.origins, Members(w.rows, db.batch, target, db.newIds[id]))
  }

  /** The whole effect of one call; the order in which buckets are visited does not appear. */
  function DownsampleStep(w: World, target: Resolution, db: Answers): World
    requires AllStored(w.rows, db.batch)
  {
    World((w.rows - Removes(w.rows, target, db)) + Merges(w.rows, target, db),
          w.raws,
          w.origins + MergedOrigins(w, target, db))
  }

  ghost function Step(w: World, ev: Event): World
    requires Enabled(w, ev)
  {
    match ev
    case Ingested(id, row) => World(w.rows[id := row], w.raws[id := row], w.origins[id := {id}])
    case Downsampled(source, _, db) => DownsampleStep(w, Coarser(source), db)
  }

  ghost predicate ValidRun(w: World, evs: seq<Event>)
    decreases |evs|, 0
  {
    evs == [] || (ValidRun(w, Front(evs)) && Enabled(Run(w, Front(evs)), Last(evs)))
  }

  ghost function Run(w: World, evs: seq<Event>): World
    requires ValidRun(w, evs)
    decreases |evs|, 1
  {
    if evs == [] then w else Step(Run(w, Front(evs)), Last(evs))
  }

  /** One aggregateMetrics pass: three calls, each with its own cutoff. */
  ghost predicate PassEnabled(w: World, now: int, first: Answers, second: Answers, third: Answers) {
    var e1, e2, e3 := Downsampled(Raw, now - 5 * 60_000, first),
                      Downsampled(OneMinute, now - 30 * 60_000, second),
                      Downsampled(FiveMinutes, now - 6 * 3_600_000, third);
    Enabled(w, e1) && Enabled(Step(w, e1), e2) && Enabled(Step(Step(w, e1), e2), e3)
  }

  ghost function AfterPass(w: World, now: int, first: Answers, second: Answers, third: Answers): World
    requires PassEnabled(w, now, first, second, third)
  {
    Step(Step(Step(w, Downsampled(Raw, now - 5 * 60_000, first)),
                      Downsampled(OneMinute, now - 30 * 60_000, second)),
                      Downsampled(FiveMinutes, now - 6 * 3_600_000, third))
  }
}
