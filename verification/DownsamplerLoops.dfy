/** The downsampler's own loops over a mutable store, proved against DownsamplerModel. */
module DownsamplerLoops {
  import opened Sequences
  import opened Wrappers
  import opened DownsamplerModel
  import opened DownsamplerMeans

  /** averageMaps: the loops run over Go maps, so keys come in any order. */
  method AverageMaps(dataMaps: seq<Fields>) returns (result: Fields)
    ensures result == AverageOf(dataMaps)
    ensures forall k: string :: IsAverage(result, dataMaps, k)
  {
    var sums: map<string, real> := map[];
    var counts: map<string, nat> := map[];
    var texts: map<string, string> := map[];
    for i := 0 to |dataMaps|
      invariant forall k: string :: Accumulated(sums, counts, texts, dataMaps[..i], k)
    {
      assert Front(dataMaps[..i + 1]) == dataMaps[..i];
      sums, counts, texts := AddFields(dataMaps[..i], dataMaps[i], sums, counts, texts);
      assert dataMaps[..i + 1] == dataMaps[..i] + [dataMaps[i]];
    }
    assert dataMaps[..|dataMaps|] == dataMaps;
    result := Means(dataMaps, sums, counts, texts);
    forall k: string ensures IsAverage(result, dataMaps, k) {
      AverageIsMean(dataMaps, k);
    }
  }

  method Means(ghost maps: seq<Fields>, sums: map<string, real>, counts: map<string, nat>, texts: map<string, string>)
    returns (result: Fields)
    requires forall k: string :: Accumulated(sums, counts, texts, maps, k)
    ensures result == AverageOf(maps)
  {
    forall k | k in sums ensures k in counts {
      assert Accumulated(sums, counts, texts, maps, k);
    }
    var means := map k | k in sums && counts[k] > 0 :: Num(sums[k] / counts[k] as real);
    result := means + (map k | k in texts && k !in means :: Text(texts[k]));
    forall k: string
      ensures (k in result <==> k in AverageOf(maps)) && (k in result ==> result[k] == AverageOf(maps)[k])
    {
      assert Accumulated(sums, counts, texts, maps, k);
      KnownKey(maps, k);
    }
  }

  method AddFields(ghost maps: seq<Fields>, data: Fields, sums0: map<string, real>, counts0: map<string, nat>,
                   texts0: map<string, string>)
    returns (sums: map<string, real>, counts: map<string, nat>, texts: map<string, string>)
    requires forall k: string :: Accumulated(sums0, counts0, texts0, maps, k)
    ensures forall k: string :: Accumulated(sums, counts, texts, maps + [data], k)
  {
    sums, counts, texts := sums0, counts0, texts0;
    assert Front(maps + [data]) == maps;
    var todo := data.Keys;
    forall k: string | k !in todo ensures Accumulated(sums, counts, texts, maps + [data], k) {
      assert Accumulated(sums, counts, texts, maps, k);
    }
    while todo != {}
      invariant todo <= data.Keys
      invariant forall k: string :: Accumulated(sums, counts, texts, if k in todo then maps else maps + [data], k)
      decreases todo
    {
      var k :| k in todo;
      assert Accumulated(sums, counts, texts, maps, k);
      ghost var sums1, counts1, texts1 := sums, counts, texts;
      match data[k] {
        case Num(n) =>
          sums := sums[k := (if k in sums then sums[k] else 0.0) + n];
          counts := counts[k := (if k in counts then counts[k] else 0) + 1];
        case Text(s) =>
          texts := texts[k := s];
        case Other =>
      }
      todo := todo - {k};
      forall j: string ensures Accumulated(sums, counts, texts, if j in todo then maps else maps + [data], j) {
        if j != k {
          assert Accumulated(sums1, counts1, texts1, if j in todo then maps else maps + [data], j);
        }
      }
    }
    forall k: string ensures Accumulated(sums, counts, texts, maps + [data], k) {
      assert Accumulated(sums, counts, texts, if k in todo then maps else maps + [data], k);
    }
  }

  ghost predicate Accumulated(sums: map<string, real>, counts: map<string, nat>, texts: map<string, string>,
                              maps: seq<Fields>, k: string) {
    && (k in sums <==> Count(maps, k) > 0)
    && (k in counts <==> Count(maps, k) > 0)
    && (k in sums ==> sums[k] == Sum(maps, k) && counts[k] == Count(maps, k))
    && (Count(maps, k) == 0 ==> Sum(maps, k) == 0.0)
    && (if k in texts then LastText(maps, k) == Some(texts[k]) else LastText(maps, k) == None)
  }

  class Downsampler {
    var rows: map<RowId, Row>
    ghost var raws: map<RowId, Row>
    ghost var origins: map<RowId, set<RowId>>

    ghost function State(): World
      reads this
    {
      World(rows, raws, origins)
    }

    constructor ()
      ensures State() == EMPTY
    {
      rows, raws, origins := map[], map[], map[];
    }

    /** A raw sample being stored. */
    method Ingest(id: RowId, row: Row)
      requires Enabled(State(), Ingested(id, row))
      modifies this
      ensures State() == Step(old(State()), Ingested(id, row))
    {
      rows, raws, origins := rows[id := row], raws[id := row], origins[id := {id}];
    }

    method AverageData(records: map<RowId, Row>, ids: seq<RowId>) returns (data: Fields)
      requires AllStored(records, ids)
      ensures data == AverageDataOf(records, ids)
    {
      var dataMaps: seq<Fields> := [];
      for i := 0 to |ids|
        invariant dataMaps == Parsed(records, ids[..i])
      {
        assert Front(ids[..i + 1]) == ids[..i];
        if records[ids[i]].data.Some? {
          dataMaps := dataMaps + [records[ids[i]].data.value];
        }
      }
      assert ids[..|ids|] == ids;
      var result := AverageMaps(dataMaps);
      return result[SAMPLES := Num(|ids| as real)];
    }

    method DeleteRecords(ids: seq<RowId>, deleteFails: set<RowId>)
      modifies this`rows
      ensures rows == Without(old(rows), ids, deleteFails)
    {
      for i := 0 to |ids|
        invariant rows == Without(old(rows), ids[..i], deleteFails)
      {
        assert forall id :: id in ids[..i + 1] <==> id in ids[..i] || id == ids[i];
        if ids[i] !in deleteFails {
          rows := rows - {ids[i]};
        }
      }
      assert ids[..|ids|] == ids;
    }

    method GroupByBucket(batch: seq<RowId>, target: Resolution) returns (buckets: map<Bucket, seq<RowId>>)
      requires AllStored(rows, batch)
      ensures buckets.Keys == BucketsOf(rows, batch, target)
      ensures forall b <- buckets :: buckets[b] == Members(rows, batch, target, b)
    {
      buckets := map[];
      for i := 0 to |batch|
        invariant forall b: Bucket :: Grouped(rows, batch[..i], target, buckets, b)
      {
        assert Front(batch[..i + 1]) == batch[..i];
        ghost var before := buckets;
        var b := BucketOf(rows[batch[i]], target);
        buckets := buckets[b := (if b in buckets then buckets[b] else []) + [batch[i]]];
        forall c: Bucket {:trigger Grouped(rows, batch[..i + 1], target, buckets, c)}
          ensures Grouped(rows, batch[..i + 1], target, buckets, c)
        {
          assert Grouped(rows, batch[..i], target, before, c);
        }
      }
      assert batch[..|batch|] == batch;
      forall b: Bucket ensures b in buckets <==> b in BucketsOf(rows, batch, target) {
        assert Grouped(rows, batch, target, buckets, b);
        MembersOfBucket(rows, batch, target, b);
      }
      forall b <- buckets ensures buckets[b] == Members(rows, batch, target, b) {
        assert Grouped(rows, batch, target, buckets, b);
      }
    }

    method Downsample(source: Resolution, cutoff: int, db: Answers)
      requires Enabled(State(), Downsampled(source, cutoff, db))
      modifies this
      ensures State() == Step(old(State()), Downsampled(source, cutoff, db))
    {
      VisitBuckets(Coarser(source), db);
    }

    /** The buckets are visited in whatever order the map yields them. */
    method VisitBuckets(target: Resolution, db: Answers)
      requires AllStored(rows, db.batch) && FreshIds(State(), target, db)
      requires forall i :: 0 <= i < |db.batch| ==> rows[db.batch[i]].res != target
      modifies this`rows, this`origins
      ensures State() == DownsampleStep(old(State()), target, db)
    {
      var fetched := rows;
      ghost var w := State();
      var buckets := GroupByBucket(db.batch, target);
      var todo := buckets.Keys;
      ProgressStart(w, target, db);
      while todo != {}
        invariant todo <= buckets.Keys
        invariant State() == Progress(w, target, db, todo)
        decreases todo
      {
        var b :| b in todo;
        ProgressLookup(w, target, db, todo, b);
        HandleBucket(target, b, buckets[b], fetched, db);
        ProgressHandled(w, target, db, todo, b, State());
        todo := todo - {b};
      }
      ProgressDone(w, target, db);
    }

    method HandleBucket(target: Resolution, b: Bucket, ids: seq<RowId>, fetched: map<RowId, Row>, db: Answers)
      requires AllStored(fetched, ids) && b in db.newIds.Values && OneIdPerBucket(db)
      modifies this`rows, this`origins
      ensures Handled(old(State()), State(), target, b, ids, fetched, db)
    {
      if b !in db.lookupFails && HasAggregate(rows, target, b) {
        DeleteRecords(ids, db.deleteFails);
        return;
      }
      var data := AverageData(fetched, ids);
      if b in db.saveFails {
        return;
      }
      var id :| id in db.newIds && db.newIds[id] == b;
      rows := rows[id := Row(b.agent, b.kind, b.at, target, Some(data))];
      origins := origins[id := OriginsOf(origins, ids)];
      DeleteRecords(ids, db.deleteFails);
    }

    /** One pass: raw rows older than five minutes, minutes older than thirty, five-minute rows older than six hours. */
    method AggregateMetrics(now: int, first: Answers, second: Answers, third: Answers)
      requires PassEnabled(State(), now, first, second, third)
      modifies this
      ensures State() == AfterPass(old(State()), now, first, second, third)
    {
      Downsample(Raw, now - 5 * 60_000, first);
      Downsample(OneMinute, now - 30 * 60_000, second);
      Downsample(FiveMinutes, now - 6 * 3_600_000, third);
    }
  }

  function Without(rows: map<RowId, Row>, ids: seq<RowId>, deleteFails: set<RowId>): map<RowId, Row> {
    map id | id in rows && !(id in ids && id !in deleteFails) :: rows[id]
  }

  /** What visiting one bucket does to the store. */
  ghost predicate Handled(w: World, w': World, target: Resolution, b: Bucket, ids: seq<RowId>,
                          fetched: map<RowId, Row>, db: Answers)
    requires AllStored(fetched, ids) && b in db.newIds.Values
  {
    && w'.raws == w.raws
    && if FindsAggregate(w.rows, target, db, b) then
         w'.rows == Without(w.rows, ids, db.deleteFails) && w'.origins == w.origins
       else if b in db.saveFails then
         w'.rows == w.rows && w'.origins == w.origins
       else
         var row := Row(b.agent, b.kind, b.at, target, Some(AverageDataOf(fetched, ids)));
         && w'.rows == Without(w.rows[IdFor(db, b) := row], ids, db.deleteFails)
         && w'.origins == w.origins[IdFor(db, b) := OriginsOf(w.origins, ids)]
  }

  ghost function IdFor(db: Answers, b: Bucket): (id: RowId)
    requires b in db.newIds.Values
    ensures id in db.newIds && db.newIds[id] == b
  {
    var id :| id in db.newIds && db.newIds[id] == b;
    id
  }

  ghost function GoneBy(w: World, target: Resolution, db: Answers, todo: set<Bucket>): set<RowId> {
    set id <- Removes(w.rows, target, db) | BucketOf(w.rows[id], target) !in todo
  }

  ghost function BornBy<T>(born: map<RowId, T>, db: Answers, todo: set<Bucket>): map<RowId, T> {
    map id | id in born && id in db.newIds && db.newIds[id] !in todo :: born[id]
  }

  /** The store when only the buckets outside todo have been visited. */
  ghost function Progress(w: World, target: Resolution, db: Answers, todo: set<Bucket>): World
    requires AllStored(w.rows, db.batch)
  {
    World((w.rows - GoneBy(w, target, db, todo)) + BornBy(Merges(w.rows, target, db), db, todo),
          w.raws,
          w.origins + BornBy(MergedOrigins(w, target, db), db, todo))
  }

  lemma NothingGone(w: World, target: Resolution, db: Answers)
    requires AllStored(w.rows, db.batch)
    ensures GoneBy(w, target, db, BucketsOf(w.rows, db.batch, target)) == {}
  {
    forall id | id in Removes(w.rows, target, db)
      ensures BucketOf(w.rows[id], target) in BucketsOf(w.rows, db.batch, target)
    {
      var i :| 0 <= i < |db.batch| && db.batch[i] == id;
    }
  }

  lemma NothingBorn<T>(born: map<RowId, T>, db: Answers, todo: set<Bucket>)
    requires forall id <- db.newIds :: db.newIds[id] in todo
    ensures BornBy(born, db, todo) == map[]
  {
  }

  lemma ProgressStart(w: World, target: Resolution, db: Answers)
    requires AllStored(w.rows, db.batch) && FreshIds(w, target, db)
    ensures Progress(w, target, db, BucketsOf(w.rows, db.batch, target)) == w
  {
    var todo := BucketsOf(w.rows, db.batch, target);
    NothingGone(w, target, db);
    assert forall id <- db.newIds :: db.newIds[id] in todo;
    NothingBorn(Merges(w.rows, target, db), db, todo);
    NothingBorn(MergedOrigins(w, target, db), db, todo);
    hide GoneBy, BornBy, Merges, MergedOrigins, BucketsOf, FreshIds;
    assert w.rows - {} + map[] == w.rows && w.origins + map[] == w.origins;
  }

  lemma ProgressDone(w: World, target: Resolution, db: Answers)
    requires AllStored(w.rows, db.batch)
    ensures Progress(w, target, db, {}) == DownsampleStep(w, target, db)
  {
    assert GoneBy(w, target, db, {}) == Removes(w.rows, target, db);
    assert BornBy(Merges(w.rows, target, db), db, {}) == Merges(w.rows, target, db);
    assert BornBy(MergedOrigins(w, target, db), db, {}) == MergedOrigins(w, target, db);
  }

  /** Visiting other buckets neither creates nor removes the aggregate a bucket looks for. */
  lemma ProgressLookup(w: World, target: Resolution, db: Answers, todo: set<Bucket>, b: Bucket)
    requires AllStored(w.rows, db.batch) && Unused(w, db.newIds.Keys) && b in todo
    requires forall i :: 0 <= i < |db.batch| ==> w.rows[db.batch[i]].res != target
    ensures HasAggregate(Progress(w, target, db, todo).rows, target, b) <==> HasAggregate(w.rows, target, b)
  {
    var rows := Progress(w, target, db, todo).rows;
    if HasAggregate(w.rows, target, b) {
      var id :| id in w.rows && IsAggregateFor(w.rows[id], target, b);
      assert id in rows && rows[id] == w.rows[id];
    }
    if HasAggregate(rows, target, b) {
      var id :| id in rows && IsAggregateFor(rows[id], target, b);
      assert id in w.rows;
    }
  }

  /** Deleting one bucket's rows, and inserting its aggregate first, on plain maps. */
  lemma PatchDelete(rows: map<RowId, Row>, gone: set<RowId>, born: map<RowId, Row>, ids: seq<RowId>,
                    deleteFails: set<RowId>, gone': set<RowId>)
    requires rows.Keys !! born.Keys && (forall i :: 0 <= i < |ids| ==> ids[i] in rows)
    requires gone' == gone + set id | id in ids && id !in deleteFails
    ensures Without((rows - gone) + born, ids, deleteFails) == (rows - gone') + born
  {
  }

  lemma PatchMerge(rows: map<RowId, Row>, gone: set<RowId>, born: map<RowId, Row>, ids: seq<RowId>,
                   deleteFails: set<RowId>, gone': set<RowId>, id: RowId, row: Row)
    requires rows.Keys !! born.Keys && id !in rows && (forall i :: 0 <= i < |ids| ==> ids[i] in rows)
    requires gone' == gone + set id | id in ids && id !in deleteFails
    ensures Without(((rows - gone) + born)[id := row], ids, deleteFails) == (rows - gone') + born[id := row]
  {
  }

  lemma PatchCredit(origins: map<RowId, set<RowId>>, born: map<RowId, set<RowId>>, ids: seq<RowId>, id: RowId)
    requires forall i :: 0 <= i < |ids| ==> ids[i] !in born
    ensures OriginsOf(origins + born, ids) == OriginsOf(origins, ids)
    ensures (origins + born)[id := OriginsOf(origins, ids)] == origins + born[id := OriginsOf(origins, ids)]
  {
    forall o ensures o in OriginsOf(origins + born, ids) <==> o in OriginsOf(origins, ids) {
      if o in OriginsOf(origins + born, ids) {
        var i :| 0 <= i < |ids| && ids[i] in origins + born && o in (origins + born)[ids[i]];
        assert ids[i] in origins && o in origins[ids[i]];
      }
      if o in OriginsOf(origins, ids) {
        var i :| 0 <= i < |ids| && ids[i] in origins && o in origins[ids[i]];
        assert ids[i] in origins + born && o in (origins + born)[ids[i]];
      }
    }
  }

  lemma GoneWithBucket(w: World, target: Resolution, db: Answers, todo: set<Bucket>, b: Bucket)
    requires AllStored(w.rows, db.batch) && b in todo
    requires FindsAggregate(w.rows, target, db, b) || b !in db.saveFails
    ensures GoneBy(w, target, db, todo - {b}) ==
            GoneBy(w, target, db, todo) + set id | id in Members(w.rows, db.batch, target, b) && id !in db.deleteFails
  {
  }

  lemma GoneWithoutBucket(w: World, target: Resolution, db: Answers, todo: set<Bucket>, b: Bucket)
    requires AllStored(w.rows, db.batch) && b in todo
    requires !FindsAggregate(w.rows, target, db, b) && b in db.saveFails
    ensures GoneBy(w, target, db, todo - {b}) == GoneBy(w, target, db, todo)
  {
  }

  lemma BornWithBucket<T>(born: map<RowId, T>, db: Answers, todo: set<Bucket>, id: RowId)
    requires OneIdPerBucket(db) && id in born && id in db.newIds && db.newIds[id] in todo
    ensures BornBy(born, db, todo - {db.newIds[id]}) == BornBy(born, db, todo)[id := born[id]]
  {
  }

  lemma BornWithoutBucket<T>(born: map<RowId, T>, db: Answers, todo: set<Bucket>, b: Bucket)
    requires forall id :: id in born && id in db.newIds ==> db.newIds[id] != b
    ensures BornBy(born, db, todo - {b}) == BornBy(born, db, todo)
  {
  }

  lemma ProgressUnmerged(w: World, target: Resolution, db: Answers, todo: set<Bucket>, b: Bucket, w': World)
    requires AllStored(w.rows, db.batch) && Unused(w, db.newIds.Keys) && OneIdPerBucket(db)
    requires b in todo && b in db.newIds.Values
    requires FindsAggregate(Progress(w, target, db, todo).rows, target, db, b) == FindsAggregate(w.rows, target, db, b)
    requires FindsAggregate(w.rows, target, db, b) || b in db.saveFails
    requires Handled(Progress(w, target, db, todo), w', target, b, Members(w.rows, db.batch, target, b), w.rows, db)
    ensures w' == Progress(w, target, db, todo - {b})
  {
    var gone, gone' := GoneBy(w, target, db, todo), GoneBy(w, target, db, todo - {b});
    var merges, credits := Merges(w.rows, target, db), MergedOrigins(w, target, db);
    BornWithoutBucket(merges, db, todo, b);
    BornWithoutBucket(credits, db, todo, b);
    if FindsAggregate(w.rows, target, db, b) {
      GoneWithBucket(w, target, db, todo, b);
      PatchDelete(w.rows, gone, BornBy(merges, db, todo), Members(w.rows, db.batch, target, b), db.deleteFails, gone');
    } else {
      GoneWithoutBucket(w, target, db, todo, b);
    }
  }

  lemma ProgressMerged(w: World, target: Resolution, db: Answers, todo: set<Bucket>, b: Bucket, w': World)
    requires AllStored(w.rows, db.batch) && Unused(w, db.newIds.Keys) && OneIdPerBucket(db)
    requires b in todo && b in db.newIds.Values
    requires FindsAggregate(Progress(w, target, db, todo).rows, target, db, b) == FindsAggregate(w.rows, target, db, b)
    requires Aggregates(w.rows, target, db, b)
    requires Handled(Progress(w, target, db, todo), w', target, b, Members(w.rows, db.batch, target, b), w.rows, db)
    ensures w' == Progress(w, target, db, todo - {b})
  {
    MergedRows(w, target, db, todo, b);
    MergedCredits(w, target, db, todo, b);
  }

  lemma ProgressHandled(w: World, target: Resolution, db: Answers, todo: set<Bucket>, b: Bucket, w': World)
    requires AllStored(w.rows, db.batch) && Unused(w, db.newIds.Keys) && OneIdPerBucket(db)
    requires b in todo && b in db.newIds.Values
    requires FindsAggregate(Progress(w, target, db, todo).rows, target, db, b) == FindsAggregate(w.rows, target, db, b)
    requires Handled(Progress(w, target, db, todo), w', target, b, Members(w.rows, db.batch, target, b), w.rows, db)
    ensures w' == Progress(w, target, db, todo - {b})
  {
    if FindsAggregate(w.rows, target, db, b) || b in db.saveFails {
      ProgressUnmerged(w, target, db, todo, b, w');
    } else {
      ProgressMerged(w, target, db, todo, b, w');
    }
  }

  lemma MergedRows(w: World, target: Resolution, db: Answers, todo: set<Bucket>, b: Bucket)
    requires AllStored(w.rows, db.batch) && Unused(w, db.newIds.Keys) && OneIdPerBucket(db)
    requires b in todo && b in db.newIds.Values && Aggregates(w.rows, target, db, b)
    ensures Without(Progress(w, target, db, todo).rows[IdFor(db, b) := AggregateRow(w.rows, target, db, b)],
                    Members(w.rows, db.batch, target, b), db.deleteFails)
            == Progress(w, target, db, todo - {b}).rows
  {
    var id, merges := IdFor(db, b), Merges(w.rows, target, db);
    BornWithBucket(merges, db, todo, id);
    GoneWithBucket(w, target, db, todo, b);
    PatchMerge(w.rows, GoneBy(w, target, db, todo), BornBy(merges, db, todo), Members(w.rows, db.batch, target, b),
               db.deleteFails, GoneBy(w, target, db, todo - {b}), id, merges[id]);
  }

  lemma MergedCredits(w: World, target: Resolution, db: Answers, todo: set<Bucket>, b: Bucket)
    requires AllStored(w.rows, db.batch) && Unused(w, db.newIds.Keys) && OneIdPerBucket(db)
    requires b in todo && b in db.newIds.Values && Aggregates(w.rows, target, db, b)
    ensures var before, ids := Progress(w, target, db, todo).origins, Members(w.rows, db.batch, target, b);
            before[IdFor(db, b) := OriginsOf(before, ids)] == Progress(w, target, db, todo - {b}).origins
  {
    var id, credits := IdFor(db, b), MergedOrigins(w, target, db);
    var ids := Members(w.rows, db.batch, target, b);
    BornWithBucket(credits, db, todo, id);
    forall i | 0 <= i < |ids| ensures ids[i] !in BornBy(credits, db, todo) {
      assert ids[i] in ids && ids[i] in w.rows;
    }
    PatchCredit(w.origins, BornBy(credits, db, todo), ids, id);
  }

  ghost predicate Grouped(rows: map<RowId, Row>, batch: seq<RowId>, target: Resolution,
                          buckets: map<Bucket, seq<RowId>>, b: Bucket)
    requires AllStored(rows, batch)
  {
    && Members(rows, batch, target, b) == (if b in buckets then buckets[b] else [])
    && (b in buckets ==> buckets[b] != [])
  }

  lemma MembersOfBucket(rows: map<RowId, Row>, batch: seq<RowId>, target: Resolution, b: Bucket)
    requires AllStored(rows, batch)
    ensures b in BucketsOf(rows, batch, target) <==> Members(rows, batch, target, b) != []
  {
  }
}
