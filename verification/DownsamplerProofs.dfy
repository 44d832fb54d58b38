/** What downsampling keeps over any run of ingests and aggregation calls, whatever the database fails to do. */
module DownsamplerProofs {
  import opened Sequences
  import opened Wrappers
  import opened DownsamplerModel

  // ---- buckets nest -----------------------------------------------------------------------------

  /** One minute divides five minutes divides one hour, so truncating twice is truncating once. */
  lemma BucketsNest(t: int, res: Resolution)
    requires res != OneHour
    ensures BucketStart(BucketStart(t, res), Coarser(res)) == BucketStart(t, Coarser(res))
  {
    match res {
      case Raw =>
      case OneMinute => TruncateTwice(t, 60_000, t / 60_000, 300_000, t / 300_000);
      case FiveMinutes => TruncateTwice(t, 300_000, t / 300_000, 3_600_000, t / 3_600_000);
    }
  }

  lemma TruncateTwice(t: int, w: int, q: int, v: int, p: int)
    requires (w == 60_000 && v == 300_000) || (w == 300_000 && v == 3_600_000)
    requires q == t / w && p == t / v
    ensures (t - t % w) - (t - t % w) % v == t - t % v
  {
    var s := t - t % w;
    if w == 60_000 {
      assert s == 60_000 * q && t - t % v == 300_000 * p;
      assert 5 * p <= q < 5 * p + 5;
      assert s / 300_000 == p;
    } else {
      assert s == 300_000 * q && t - t % v == 3_600_000 * p;
      assert 12 * p <= q < 12 * p + 12;
      assert s / 3_600_000 == p;
    }
  }

  lemma BucketStartIsAligned(t: int, res: Resolution)
    ensures BucketStart(BucketStart(t, res), res) == BucketStart(t, res)
  {
    match res {
      case Raw =>
      case OneMinute => MultipleTruncates(t / 60_000, 60_000);
      case FiveMinutes => MultipleTruncates(t / 300_000, 300_000);
      case OneHour => MultipleTruncates(t / 3_600_000, 3_600_000);
    }
  }

  lemma MultipleTruncates(q: int, w: int)
    requires w == 60_000 || w == 300_000 || w == 3_600_000
    ensures q * w - (q * w) % w == q * w
  {
  }

  function Width(res: Resolution): int {
    match res
    case Raw => 1
    case OneMinute => 60_000
    case FiveMinutes => 300_000
    case OneHour => 3_600_000
  }

  /** A time lies in the bucket it truncates to, and buckets start at multiples of their length. */
  lemma BucketHoldsTime(t: int, res: Resolution)
    ensures BucketStart(t, res) <= t < BucketStart(t, res) + Width(res)
    ensures exists q: int :: BucketStart(t, res) == q * Width(res)
  {
    match res {
      case Raw => assert BucketStart(t, res) == t * 1;
      case OneMinute => assert BucketStart(t, res) == t / 60_000 * 60_000;
      case FiveMinutes => assert BucketStart(t, res) == t / 300_000 * 300_000;
      case OneHour => assert BucketStart(t, res) == t / 3_600_000 * 3_600_000;
    }
  }

  // ---- averages stay inside the hull of what they average ---------------------------------------

  lemma {:induction false} SumAbove(maps: seq<Fields>, k: string, c: real)
    requires forall i :: 0 <= i < |maps| && IsNum(maps[i], k) ==> maps[i][k].n > c
    ensures if Count(maps, k) > 0 then Sum(maps, k) > c * Count(maps, k) as real else Sum(maps, k) == 0.0
  {
    if maps != [] {
      SumAbove(Front(maps), k, c);
      CountTimes(c, Count(Front(maps), k));
      assert IsNum(Last(maps), k) ==> maps[|maps| - 1][k].n > c;
    }
  }

  lemma {:induction false} SumBelow(maps: seq<Fields>, k: string, c: real)
    requires forall i :: 0 <= i < |maps| && IsNum(maps[i], k) ==> maps[i][k].n < c
    ensures if Count(maps, k) > 0 then Sum(maps, k) < c * Count(maps, k) as real else Sum(maps, k) == 0.0
  {
    if maps != [] {
      SumBelow(Front(maps), k, c);
      CountTimes(c, Count(Front(maps), k));
      assert IsNum(Last(maps), k) ==> maps[|maps| - 1][k].n < c;
    }
  }

  lemma CountTimes(c: real, n: nat)
    ensures c * (n + 1) as real == c * n as real + c
    ensures c * 0 as real == 0.0
  {
    assert (n + 1) as real == n as real + 1.0;
  }

  /** A mean has a value of the field at or below it and one at or above it. */
  lemma MeanIsBetween(maps: seq<Fields>, k: string) returns (lo: nat, hi: nat)
    requires Count(maps, k) > 0
    ensures lo < |maps| && IsNum(maps[lo], k) && maps[lo][k].n <= Sum(maps, k) / Count(maps, k) as real
    ensures hi < |maps| && IsNum(maps[hi], k) && maps[hi][k].n >= Sum(maps, k) / Count(maps, k) as real
  {
    var n := Count(maps, k) as real;
    var mean := Sum(maps, k) / n;
    assert mean * n == Sum(maps, k);
    if forall i :: 0 <= i < |maps| && IsNum(maps[i], k) ==> maps[i][k].n > mean {
      SumAbove(maps, k, mean);
    }
    if forall i :: 0 <= i < |maps| && IsNum(maps[i], k) ==> maps[i][k].n < mean {
      SumBelow(maps, k, mean);
    }
    lo :| 0 <= lo < |maps| && IsNum(maps[lo], k) && maps[lo][k].n <= mean;
    hi :| 0 <= hi < |maps| && IsNum(maps[hi], k) && maps[hi][k].n >= mean;
  }

  lemma {:induction false} ParsedComesFrom(rows: map<RowId, Row>, ids: seq<RowId>, i: nat) returns (id: RowId)
    requires AllStored(rows, ids) && i < |Parsed(rows, ids)|
    ensures id in ids && id in rows && rows[id].data == Some(Parsed(rows, ids)[i])
  {
    if i < |Parsed(rows, Front(ids))| {
      id := ParsedComesFrom(rows, Front(ids), i);
    } else {
      id := Last(ids);
    }
  }

  // ---- the invariant ----------------------------------------------------------------------------

  predicate HasNum(row: Row, k: string) {
    row.data.Some? && IsNum(row.data.value, k)
  }

  /** The row stands for the bucket that raw's time falls into, at the row's own resolution. */
  predicate StandsFor(row: Row, raw: Row) {
    row.agent == raw.agent && row.kind == raw.kind && row.at == BucketStart(raw.at, row.res)
  }

  ghost predicate Descends(w: World, id: RowId)
    requires id in w.rows
  {
    && id in w.origins && w.origins[id] != {}
    && (forall o <- w.origins[id] :: o in w.raws && StandsFor(w.rows[id], w.raws[o]))
    && (w.rows[id].res == Raw ==> id in w.raws && w.raws[id] == w.rows[id] && w.origins[id] == {id})
  }

  ghost predicate AtMost(w: World, o: RowId, k: string, v: real) {
    o in w.raws && HasNum(w.raws[o], k) && w.raws[o].data.value[k].n <= v
  }

  ghost predicate AtLeast(w: World, o: RowId, k: string, v: real) {
    o in w.raws && HasNum(w.raws[o], k) && w.raws[o].data.value[k].n >= v
  }

  /** A numeric field lies between two raw values of the same field that the row descends from. */
  ghost predicate InHull(w: World, id: RowId, k: string)
    requires id in w.rows && id in w.origins && HasNum(w.rows[id], k)
  {
    var v := w.rows[id].data.value[k].n;
    && (exists lo <- w.origins[id] :: AtMost(w, lo, k, v))
    && (exists hi <- w.origins[id] :: AtLeast(w, hi, k, v))
  }

  ghost predicate Hulled(w: World, id: RowId)
    requires id in w.rows && id in w.origins
  {
    forall k: string :: k != SAMPLES && HasNum(w.rows[id], k) ==> InHull(w, id, k)
  }

  ghost predicate Sound(w: World) {
    && w.raws.Keys <= w.origins.Keys
    && forall id {:trigger Descends(w, id)} {:trigger Hulled(w, id)} ::
         id in w.rows ==> Descends(w, id) && Hulled(w, id)
  }

  /** The raw sample is still stored, or some stored aggregate stands for it. */
  ghost predicate Covered(w: World, r: RowId)
    requires r in w.raws
  {
    || (r in w.rows && w.rows[r].res == Raw)
    || exists id <- w.rows :: w.rows[id].res != Raw && StandsFor(w.rows[id], w.raws[r])
  }

  ghost predicate CoversAll(w: World) {
    forall r {:trigger Covered(w, r)} :: r in w.raws ==> Covered(w, r)
  }

  // ---- an ingest --------------------------------------------------------------------------------

  /** A row that stays put keeps what the invariant says of it when history only grows. */
  lemma RowKept(w: World, w': World, id: RowId)
    requires id in w.rows && id in w.origins && Descends(w, id) && Hulled(w, id)
    requires id in w'.rows && w'.rows[id] == w.rows[id] && id in w'.origins && w'.origins[id] == w.origins[id]
    requires forall r <- w.raws :: r in w'.raws && w'.raws[r] == w.raws[r]
    ensures Descends(w', id) && Hulled(w', id)
  {
  }

  lemma FreshRawRow(w: World, id: RowId)
    requires id in w.rows && id in w.raws && w.raws[id] == w.rows[id] && w.rows[id].res == Raw
    requires id in w.origins && w.origins[id] == {id}
    ensures Descends(w, id) && Hulled(w, id)
  {
  }

  lemma IngestKeeps(w: World, id: RowId, row: Row)
    requires Sound(w) && CoversAll(w) && Enabled(w, Ingested(id, row))
    ensures Sound(Step(w, Ingested(id, row))) && CoversAll(Step(w, Ingested(id, row)))
  {
    var w' := Step(w, Ingested(id, row));
    FreshRawRow(w', id);
    forall i <- w'.rows ensures Descends(w', i) && Hulled(w', i) {
      if i != id {
        assert Descends(w, i) && Hulled(w, i);
        RowKept(w, w', i);
      }
    }
    forall r <- w'.raws ensures Covered(w', r) {
      if r != id {
        assert Covered(w, r);
        if i :| i in w.rows && w.rows[i].res != Raw && StandsFor(w.rows[i], w.raws[r]) {
          assert w'.rows[i] == w.rows[i];
        }
      }
    }
  }

  // ---- one downsample call ----------------------------------------------------------------------

  ghost predicate Call(w: World, target: Resolution, db: Answers) {
    && AllStored(w.rows, db.batch) && FreshIds(w, target, db)
    && target != Raw
    && (forall id <- db.batch :: id in w.rows && w.rows[id].res != OneHour && Coarser(w.rows[id].res) == target)
  }

  lemma EnabledIsCall(w: World, source: Resolution, cutoff: int, db: Answers)
    requires Enabled(w, Downsampled(source, cutoff, db))
    ensures Call(w, Coarser(source), db)
  {
  }

  lemma BucketHasMember(w: World, target: Resolution, db: Answers, b: Bucket) returns (id: RowId)
    requires Call(w, target, db) && b in db.newIds.Values
    ensures id in Members(w.rows, db.batch, target, b)
  {
    var i :| 0 <= i < |db.batch| && BucketOf(w.rows[db.batch[i]], target) == b;
    id := db.batch[i];
  }

  /** Whatever a member of a bucket stands for, the bucket's aggregate stands for. */
  lemma MemberStandsFor(row: Row, target: Resolution, aggregate: Row, raw: Row)
    requires row.res != OneHour && Coarser(row.res) == target && StandsFor(row, raw)
    requires IsAggregateFor(aggregate, target, BucketOf(row, target))
    ensures StandsFor(aggregate, raw)
  {
    BucketsNest(raw.at, row.res);
  }

  lemma NewRowDescends(w: World, target: Resolution, db: Answers, id: RowId)
    requires Sound(w) && Call(w, target, db) && id in Merges(w.rows, target, db)
    ensures Descends(DownsampleStep(w, target, db), id)
  {
    var b := db.newIds[id];
    var ids := Members(w.rows, db.batch, target, b);
    var row := AggregateRow(w.rows, target, db, b);
    var origins := OriginsOf(w.origins, ids);
    forall o <- origins ensures o in w.raws && StandsFor(row, w.raws[o]) {
      var i :| 0 <= i < |ids| && ids[i] in w.origins && o in w.origins[ids[i]];
      assert ids[i] in ids && Descends(w, ids[i]);
      MemberStandsFor(w.rows[ids[i]], target, row, w.raws[o]);
    }
    var m := BucketHasMember(w, target, db, b);
    assert Descends(w, m);
    var i :| 0 <= i < |ids| && ids[i] == m;
    var o :| o in w.origins[m];
    assert o in origins;
  }

  lemma NewRowField(w: World, target: Resolution, db: Answers, id: RowId, k: string)
    requires Sound(w) && Call(w, target, db) && id in Merges(w.rows, target, db)
    requires k != SAMPLES && HasNum(Merges(w.rows, target, db)[id], k)
    ensures var v := Merges(w.rows, target, db)[id].data.value[k].n;
            var origins := OriginsOf(w.origins, Members(w.rows, db.batch, target, db.newIds[id]));
            (exists lo <- origins :: AtMost(w, lo, k, v)) && (exists hi <- origins :: AtLeast(w, hi, k, v))
  {
    var ids := Members(w.rows, db.batch, target, db.newIds[id]);
    var maps := Parsed(w.rows, ids);
    assert k in AverageOf(maps) && AverageField(maps, k).value.Num?;
    var lo, hi := MeanIsBetween(maps, k);
    var v := Sum(maps, k) / Count(maps, k) as real;
    var low := ParsedComesFrom(w.rows, ids, lo);
    var high := ParsedComesFrom(w.rows, ids, hi);
    var _ := OriginBelow(w, ids, low, k, v);
    var _ := OriginAbove(w, ids, high, k, v);
  }

  lemma OriginBelow(w: World, ids: seq<RowId>, id: RowId, k: string, v: real) returns (o: RowId)
    requires Sound(w) && id in ids && id in w.rows && k != SAMPLES
    requires HasNum(w.rows[id], k) && w.rows[id].data.value[k].n <= v
    ensures o in OriginsOf(w.origins, ids) && AtMost(w, o, k, v)
  {
    assert Descends(w, id) && Hulled(w, id) && InHull(w, id, k);
    o :| o in w.origins[id] && AtMost(w, o, k, w.rows[id].data.value[k].n);
    var i :| 0 <= i < |ids| && ids[i] == id;
  }

  lemma OriginAbove(w: World, ids: seq<RowId>, id: RowId, k: string, v: real) returns (o: RowId)
    requires Sound(w) && id in ids && id in w.rows && k != SAMPLES
    requires HasNum(w.rows[id], k) && w.rows[id].data.value[k].n >= v
    ensures o in OriginsOf(w.origins, ids) && AtLeast(w, o, k, v)
  {
    assert Descends(w, id) && Hulled(w, id) && InHull(w, id, k);
    o :| o in w.origins[id] && AtLeast(w, o, k, w.rows[id].data.value[k].n);
    var i :| 0 <= i < |ids| && ids[i] == id;
  }

  lemma NewRowHulled(w: World, target: Resolution, db: Answers, id: RowId)
    requires Sound(w) && Call(w, target, db) && id in Merges(w.rows, target, db)
    ensures Hulled(DownsampleStep(w, target, db), id)
  {
    var w' := DownsampleStep(w, target, db);
    forall k: string | k != SAMPLES && HasNum(w'.rows[id], k) ensures InHull(w', id, k) {
      var v := w'.rows[id].data.value[k].n;
      NewRowField(w, target, db, id, k);
      var lo :| lo in w'.origins[id] && AtMost(w, lo, k, v);
      var hi :| hi in w'.origins[id] && AtLeast(w, hi, k, v);
      assert AtMost(w', lo, k, v) && AtLeast(w', hi, k, v);
    }
  }

  lemma OldRowKept(w: World, target: Resolution, db: Answers, id: RowId)
    requires Sound(w) && Call(w, target, db)
    requires id in DownsampleStep(w, target, db).rows && id !in Merges(w.rows, target, db)
    ensures Descends(DownsampleStep(w, target, db), id) && Hulled(DownsampleStep(w, target, db), id)
  {
    assert Descends(w, id) && Hulled(w, id);
    RowKept(w, DownsampleStep(w, target, db), id);
  }

  lemma CallKeepsSound(w: World, target: Resolution, db: Answers)
    requires Sound(w) && Call(w, target, db)
    ensures Sound(DownsampleStep(w, target, db))
  {
    var w' := DownsampleStep(w, target, db);
    forall id <- w'.rows ensures Descends(w', id) && Hulled(w', id) {
      if id in Merges(w.rows, target, db) {
        NewRowDescends(w, target, db, id);
        NewRowHulled(w, target, db, id);
      } else {
        OldRowKept(w, target, db, id);
      }
    }
  }

  /** A row is deleted only when its bucket's aggregate is in the store afterwards. */
  lemma DeletedOnlyIfAggregated(w: World, target: Resolution, db: Answers, id: RowId) returns (agg: RowId)
    requires Call(w, target, db) && id in Removes(w.rows, target, db)
    ensures var rows := DownsampleStep(w, target, db).rows;
            agg in rows && IsAggregateFor(rows[agg], target, BucketOf(w.rows[id], target))
  {
    var b := BucketOf(w.rows[id], target);
    if FindsAggregate(w.rows, target, db, b) {
      agg :| agg in w.rows && IsAggregateFor(w.rows[agg], target, b);
      assert agg !in db.batch;
    } else {
      var i :| 0 <= i < |db.batch| && db.batch[i] == id;
      assert b in db.newIds.Values;
      agg :| agg in db.newIds && db.newIds[agg] == b;
      assert agg in Merges(w.rows, target, db);
    }
  }

  lemma CallKeepsCover(w: World, target: Resolution, db: Answers)
    requires Sound(w) && CoversAll(w) && Call(w, target, db)
    ensures CoversAll(DownsampleStep(w, target, db))
  {
    forall r <- w.raws | r in w.rows && w.rows[r].res == Raw ensures StandsFor(w.rows[r], w.raws[r]) {
      assert Descends(w, r);
    }
    var w' := DownsampleStep(w, target, db);
    forall r <- w'.raws ensures Covered(w', r) {
      assert Covered(w, r);
      SampleStaysCovered(w, target, db, r);
    }
  }

  lemma SampleStaysCovered(w: World, target: Resolution, db: Answers, r: RowId)
    requires Call(w, target, db) && r in w.raws && Covered(w, r)
    requires r in w.rows && w.rows[r].res == Raw ==> StandsFor(w.rows[r], w.raws[r])
    ensures Covered(DownsampleStep(w, target, db), r)
  {
    var w' := DownsampleStep(w, target, db);
    var id :| id in w.rows && StandsFor(w.rows[id], w.raws[r]) && (id == r || w.rows[id].res != Raw);
    if id in Removes(w.rows, target, db) {
      var agg := DeletedOnlyIfAggregated(w, target, db, id);
      MemberStandsFor(w.rows[id], target, w'.rows[agg], w.raws[r]);
    } else {
      assert id in w'.rows && w'.rows[id] == w.rows[id];
    }
  }

  lemma StepKeeps(w: World, ev: Event)
    requires Sound(w) && CoversAll(w) && Enabled(w, ev)
    ensures Sound(Step(w, ev)) && CoversAll(Step(w, ev))
  {
    match ev {
      case Ingested(id, row) => IngestKeeps(w, id, row);
      case Downsampled(source, cutoff, db) =>
        EnabledIsCall(w, source, cutoff, db);
        CallKeepsSound(w, Coarser(source), db);
        CallKeepsCover(w, Coarser(source), db);
    }
  }

  /** Downsampling alone never loses coverage, and every numeric field but _samples stays within the raw values
      its row descends from, at every resolution. */
  lemma {:induction false} RunsKeepCoverageAndHull(evs: seq<Event>)
    requires ValidRun(EMPTY, evs)
    ensures Sound(Run(EMPTY, evs)) && CoversAll(Run(EMPTY, evs))
  {
    if evs != [] {
      RunsKeepCoverageAndHull(Front(evs));
      StepKeeps(Run(EMPTY, Front(evs)), Last(evs));
    }
  }

  // ---- one aggregate per bucket -----------------------------------------------------------------

  predicate SameBucket(a: Row, b: Row) {
    a.res == b.res && a.agent == b.agent && a.kind == b.kind && a.at == b.at
  }

  ghost predicate Unique(w: World) {
    forall i <- w.rows, j <- w.rows :: i != j && w.rows[i].res != Raw ==> !SameBucket(w.rows[i], w.rows[j])
  }

  /** The lookup for an existing aggregate failed, there was one, and the insert went through. */
  ghost predicate Duplicates(w: World, ev: Event) {
    ev.Downsampled? && ev.source != OneHour &&
      exists b <- ev.db.newIds.Values ::
        b in ev.db.lookupFails && HasAggregate(w.rows, Coarser(ev.source), b) && b !in ev.db.saveFails
  }

  /** A step keeps "at most one aggregate per agent, type and bucket" exactly when it is not such a step. */
  lemma StepUniqueness(w: World, ev: Event)
    requires Unique(w) && Enabled(w, ev)
    ensures Unique(Step(w, ev)) <==> !Duplicates(w, ev)
  {
    if ev.Downsampled? {
      var target, w' := Coarser(ev.source), Step(w, ev);
      EnabledIsCall(w, ev.source, ev.cutoff, ev.db);
      if Duplicates(w, ev) {
        var b :| b in ev.db.newIds.Values
              && b in ev.db.lookupFails && HasAggregate(w.rows, target, b) && b !in ev.db.saveFails;
        NewDuplicate(w, target, ev.db, b);
      } else {
        NoNewDuplicates(w, target, ev.db);
      }
    }
  }

  lemma NewDuplicate(w: World, target: Resolution, db: Answers, b: Bucket)
    requires Call(w, target, db)
    requires b in db.newIds.Values && b in db.lookupFails && HasAggregate(w.rows, target, b) && b !in db.saveFails
    ensures !Unique(DownsampleStep(w, target, db))
  {
    var w' := DownsampleStep(w, target, db);
    var i :| i in db.newIds && db.newIds[i] == b;
    var j :| j in w.rows && IsAggregateFor(w.rows[j], target, b);
    NewRowStored(w, target, db, i);
    AggregateKept(w, target, db, j);
    assert SameBucket(w'.rows[i], w'.rows[j]);
  }

  lemma NewRowStored(w: World, target: Resolution, db: Answers, id: RowId)
    requires Call(w, target, db) && id in db.newIds && Aggregates(w.rows, target, db, db.newIds[id])
    ensures id in DownsampleStep(w, target, db).rows && id !in w.rows
    ensures IsAggregateFor(DownsampleStep(w, target, db).rows[id], target, db.newIds[id])
  {
  }

  /** Stored aggregates of the target resolution are never touched again by a call that produces them. */
  lemma AggregateKept(w: World, target: Resolution, db: Answers, id: RowId)
    requires Call(w, target, db) && id in w.rows && w.rows[id].res == target
    ensures id in DownsampleStep(w, target, db).rows && DownsampleStep(w, target, db).rows[id] == w.rows[id]
    ensures id in w.origins ==> DownsampleStep(w, target, db).origins[id] == w.origins[id]
  {
  }

  lemma NoNewDuplicates(w: World, target: Resolution, db: Answers)
    requires Unique(w) && Call(w, target, db)
    requires forall b <- db.newIds.Values ::
               b in db.lookupFails && HasAggregate(w.rows, target, b) ==> b in db.saveFails
    ensures Unique(DownsampleStep(w, target, db))
  {
    var w' := DownsampleStep(w, target, db);
    var merges := Merges(w.rows, target, db);
    forall i, j | i in merges && j in w.rows ensures !SameBucket(merges[i], w.rows[j]) {
      var b := db.newIds[i];
      assert b in db.newIds.Values && !HasAggregate(w.rows, target, b);
      assert !IsAggregateFor(w.rows[j], target, b);
    }
    forall i, j | i in merges && j in merges && SameBucket(merges[i], merges[j]) ensures i == j {
      assert db.newIds[i] == db.newIds[j];
    }
    forall i <- w'.rows, j <- w'.rows | i != j && w'.rows[i].res != Raw ensures !SameBucket(w'.rows[i], w'.rows[j]) {
      assert w'.rows[i] == (if i in merges then merges[i] else w.rows[i]);
      assert w'.rows[j] == (if j in merges then merges[j] else w.rows[j]);
      assert i in merges && j !in merges ==> !SameBucket(merges[i], w.rows[j]);
      assert j in merges && i !in merges ==> !SameBucket(merges[j], w.rows[i]);
    }
  }

  ghost predicate NoDuplicates(w: World, evs: seq<Event>)
    requires ValidRun(w, evs)
  {
    evs == [] || (NoDuplicates(w, Front(evs)) && !Duplicates(Run(w, Front(evs)), Last(evs)))
  }

  ghost predicate OriginsDisjoint(w: World)
    requires Sound(w)
  {
    forall i <- w.rows, j <- w.rows :: i != j && w.rows[i].res == w.rows[j].res ==>
      Descends(w, i) && Descends(w, j) && w.origins[i] !! w.origins[j]
  }

  /** No raw sample counts towards two stored rows of the same resolution. */
  lemma UniqueRowsShareNoOrigin(w: World)
    requires Sound(w) && Unique(w)
    ensures OriginsDisjoint(w)
  {
    forall i <- w.rows, j <- w.rows | i != j && w.rows[i].res == w.rows[j].res
      ensures Descends(w, i) && Descends(w, j) && w.origins[i] !! w.origins[j]
    {
      assert Descends(w, i) && Descends(w, j);
      forall o <- w.origins[i] ensures o !in w.origins[j] {
        if o in w.origins[j] && w.rows[i].res != Raw {
          assert StandsFor(w.rows[i], w.raws[o]) && StandsFor(w.rows[j], w.raws[o]);
          assert SameBucket(w.rows[i], w.rows[j]);
        }
      }
    }
  }

  lemma {:induction false} OneAggregatePerBucket(evs: seq<Event>)
    requires ValidRun(EMPTY, evs) && NoDuplicates(EMPTY, evs)
    ensures Unique(Run(EMPTY, evs)) && Sound(Run(EMPTY, evs)) && OriginsDisjoint(Run(EMPTY, evs))
    ensures forall id <- Run(EMPTY, evs).rows ::
              Run(EMPTY, evs).rows[id].at == BucketStart(Run(EMPTY, evs).rows[id].at, Run(EMPTY, evs).rows[id].res)
  {
    var w := Run(EMPTY, evs);
    RunsKeepCoverageAndHull(evs);
    if evs != [] {
      OneAggregatePerBucket(Front(evs));
      StepUniqueness(Run(EMPTY, Front(evs)), Last(evs));
    }
    UniqueRowsShareNoOrigin(w);
    forall id <- w.rows ensures w.rows[id].at == BucketStart(w.rows[id].at, w.rows[id].res) {
      assert Descends(w, id);
      var o :| o in w.origins[id];
      BucketStartIsAligned(w.raws[o].at, w.rows[id].res);
    }
  }
}
