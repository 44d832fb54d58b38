/** When an aggregate accounts for every raw sample of its bucket, and which steps end that. */
module DownsamplerWhole {
  import opened Sequences
  import opened Wrappers
  import opened DownsamplerModel
  import opened DownsamplerProofs

  /** Every raw sample ever stored in the row's bucket. */
  ghost function Samples(w: World, row: Row): set<RowId> {
    set r <- w.raws | StandsFor(row, w.raws[r])
  }

  ghost predicate Whole(w: World, id: RowId)
    requires id in w.rows
  {
    id in w.origins && w.origins[id] == Samples(w, w.rows[id])
  }

  ghost predicate AllWhole(w: World) {
    forall id {:trigger Whole(w, id)} :: id in w.rows && w.rows[id].res != Raw ==> Whole(w, id)
  }

  // ---- the steps that miss samples --------------------------------------------------------------

  function Rank(res: Resolution): nat {
    match res
    case Raw => 0
    case OneMinute => 1
    case FiveMinutes => 2
    case OneHour => 3
  }

  predicate Finer(a: Resolution, b: Resolution) {
    Rank(a) < Rank(b)
  }

  /** The bucket of row m contains row x. */
  predicate Contains(m: Row, x: Row) {
    m.res != Raw && !Finer(m.res, x.res) && m.agent == x.agent && m.kind == x.kind && m.at == BucketStart(x.at, m.res)
  }

  /** A row of the batch is the stored row i or contains it. */
  ghost predicate Taken(w: World, db: Answers, i: RowId)
    requires i in w.rows
  {
    exists m :: m in db.batch && m in w.rows && (m == i || Contains(w.rows[m], w.rows[i]))
  }

  /** The stored row m is the raw sample o, or an aggregate that stands for it. */
  ghost predicate Holds(w: World, m: RowId, o: RowId)
    requires m in w.rows && o in w.raws
  {
    if w.rows[m].res == Raw then m == o else StandsFor(w.rows[m], w.raws[o])
  }

  /** Some row of the batch holds the raw sample o. */
  ghost predicate Held(w: World, db: Answers, o: RowId)
    requires o in w.raws
  {
    exists m :: m in db.batch && m in w.rows && Holds(w, m, o)
  }

  /** A finer row of the bucket stays outside the batch. */
  ghost predicate LeavesBehind(w: World, target: Resolution, db: Answers, b: Bucket) {
    exists i <- w.rows :: Finer(w.rows[i].res, target) && BucketOf(w.rows[i], target) == b && !Taken(w, db, i)
  }

  /** The bucket was aggregated before: a stored aggregate at least as coarse holds a sample of the bucket that is
      gone from the rows of the batch. */
  ghost predicate MergesRemnant(w: World, target: Resolution, db: Answers, b: Bucket) {
    exists i <- w.rows :: !Finer(w.rows[i].res, target) && HoldsMore(w, target, db, b, i)
  }

  ghost predicate HoldsMore(w: World, target: Resolution, db: Answers, b: Bucket, i: RowId) {
    i in w.origins && exists o <- w.origins[i] :: o in w.raws && BucketOf(w.raws[o], target) == b && !Held(w, db, o)
  }

  /** A raw row that arrives under a stored aggregate, or an insert without all of its bucket. */
  ghost predicate Misses(w: World, ev: Event) {
    match ev
    case Ingested(_, row) => exists a <- w.rows :: w.rows[a].res != Raw && StandsFor(w.rows[a], row)
    case Downsampled(source, _, db) =>
      source != OneHour && exists b <- db.newIds.Values :: InsertMisses(w, Coarser(source), db, b)
  }

  ghost predicate InsertMisses(w: World, target: Resolution, db: Answers, b: Bucket) {
    Aggregates(w.rows, target, db, b) && (LeavesBehind(w, target, db, b) || MergesRemnant(w, target, db, b))
  }

  // ---- buckets of any two resolutions nest ------------------------------------------------------

  lemma AnyBucketsNest(t: int, a: Resolution, b: Resolution)
    requires !Finer(b, a)
    ensures BucketStart(BucketStart(t, a), b) == BucketStart(t, b)
    decreases Rank(b)
  {
    if a == b {
      BucketStartIsAligned(t, a);
    } else if Rank(b) == Rank(a) + 1 {
      BucketsNest(t, a);
    } else {
      var c := if b == OneHour then FiveMinutes else OneMinute;
      AnyBucketsNest(t, a, c);
      BucketsNest(BucketStart(t, a), c);
      BucketsNest(t, c);
    }
  }

  /** Whether a coarser row contains a finer one does not depend on which of its samples one looks at. */
  lemma ContainsItsSamples(m: Row, x: Row, raw: Row)
    requires StandsFor(x, raw) && m.res != Raw && !Finer(m.res, x.res)
    ensures Contains(m, x) <==> StandsFor(m, raw)
  {
    AnyBucketsNest(raw.at, x.res, m.res);
  }

  lemma SameTargetBucket(x: Row, raw: Row, target: Resolution)
    requires StandsFor(x, raw) && !Finer(target, x.res)
    ensures BucketOf(x, target) == BucketOf(raw, target)
  {
    AnyBucketsNest(raw.at, x.res, target);
  }

  // ---- one insert -------------------------------------------------------------------------------

  ghost predicate Covering(w: World) {
    Sound(w) && CoversAll(w) && AllWhole(w)
  }

  /** A sample of the bucket counts towards the new aggregate exactly when the batch holds it. */
  lemma HeldCounts(w: World, target: Resolution, db: Answers, o: RowId)
    requires Covering(w) && Call(w, target, db) && o in w.raws
    ensures Held(w, db, o) <==>
            o in OriginsOf(w.origins, Members(w.rows, db.batch, target, BucketOf(w.raws[o], target)))
  {
    var ids := Members(w.rows, db.batch, target, BucketOf(w.raws[o], target));
    if m :| m in db.batch && m in w.rows && Holds(w, m, o) {
      HolderIsMember(w, target, db, o, m);
      var k :| 0 <= k < |ids| && ids[k] == m;
    }
    if o in OriginsOf(w.origins, ids) {
      var k :| 0 <= k < |ids| && ids[k] in w.origins && o in w.origins[ids[k]];
      assert ids[k] in ids && Descends(w, ids[k]);
    }
  }

  lemma HolderIsMember(w: World, target: Resolution, db: Answers, o: RowId, m: RowId)
    requires Covering(w) && Call(w, target, db) && o in w.raws
    requires m in db.batch && m in w.rows && Holds(w, m, o)
    ensures m in w.origins && o in w.origins[m] && BucketOf(w.rows[m], target) == BucketOf(w.raws[o], target)
  {
    assert Descends(w, m);
    assert w.rows[m].res != Raw ==> Whole(w, m);
    SameTargetBucket(w.rows[m], w.raws[o], target);
  }

  /** A finer row of the bucket outside the batch has a sample the batch does not hold. */
  lemma LeftSample(w: World, target: Resolution, db: Answers, i: RowId) returns (o: RowId)
    requires Covering(w) && Call(w, target, db)
    requires i in w.rows && Finer(w.rows[i].res, target) && !Taken(w, db, i)
    ensures o in w.raws && BucketOf(w.raws[o], target) == BucketOf(w.rows[i], target) && !Held(w, db, o)
  {
    assert Descends(w, i);
    o :| o in w.origins[i];
    SameTargetBucket(w.rows[i], w.raws[o], target);
    forall m | m in db.batch && m in w.rows ensures !Holds(w, m, o) {
      assert m != i;
      if w.rows[m].res != Raw {
        ContainsItsSamples(w.rows[m], w.rows[i], w.raws[o]);
      }
    }
  }

  /** A sample the batch does not hold is in a finer row outside the batch, or in an aggregate of its bucket. */
  lemma MissedSample(w: World, target: Resolution, db: Answers, o: RowId)
    requires Covering(w) && Call(w, target, db) && o in w.raws && !Held(w, db, o)
    ensures var b := BucketOf(w.raws[o], target);
            LeavesBehind(w, target, db, b) || MergesRemnant(w, target, db, b)
  {
    assert Covered(w, o);
    var i := StoredHolder(w, o);
    if Finer(w.rows[i].res, target) {
      SameTargetBucket(w.rows[i], w.raws[o], target);
      HolderNotTaken(w, target, db, o, i);
    } else {
      assert Whole(w, i) && HoldsMore(w, target, db, BucketOf(w.raws[o], target), i);
    }
  }

  lemma StoredHolder(w: World, o: RowId) returns (i: RowId)
    requires Sound(w) && o in w.raws && Covered(w, o)
    ensures i in w.rows && Holds(w, i, o) && StandsFor(w.rows[i], w.raws[o])
  {
    if o in w.rows && w.rows[o].res == Raw {
      i := o;
      assert Descends(w, o);
    } else {
      i :| i in w.rows && w.rows[i].res != Raw && StandsFor(w.rows[i], w.raws[o]);
    }
  }

  lemma HolderNotTaken(w: World, target: Resolution, db: Answers, o: RowId, i: RowId)
    requires Covering(w) && Call(w, target, db) && o in w.raws && !Held(w, db, o)
    requires i in w.rows && Holds(w, i, o) && StandsFor(w.rows[i], w.raws[o]) && Finer(w.rows[i].res, target)
    ensures !Taken(w, db, i)
  {
    forall m | m in db.batch && m in w.rows ensures m != i && !Contains(w.rows[m], w.rows[i]) {
      assert !Holds(w, m, o);
      if w.rows[m].res != Raw && !Finer(w.rows[m].res, w.rows[i].res) {
        ContainsItsSamples(w.rows[m], w.rows[i], w.raws[o]);
      }
    }
  }

  ghost predicate AllHeld(w: World, target: Resolution, db: Answers, b: Bucket) {
    forall o <- w.raws :: BucketOf(w.raws[o], target) == b ==> Held(w, db, o)
  }

  lemma OriginsAreSamples(w: World, target: Resolution, db: Answers, b: Bucket, row: Row)
    requires Covering(w) && Call(w, target, db) && IsAggregateFor(row, target, b)
    requires forall o <- OriginsOf(w.origins, Members(w.rows, db.batch, target, b)) :: o in Samples(w, row)
    ensures OriginsOf(w.origins, Members(w.rows, db.batch, target, b)) == Samples(w, row) <==> AllHeld(w, target, db, b)
  {
    var origins := OriginsOf(w.origins, Members(w.rows, db.batch, target, b));
    forall o <- Samples(w, row) ensures BucketOf(w.raws[o], target) == b && (Held(w, db, o) <==> o in origins) {
      HeldCounts(w, target, db, o);
    }
    if AllHeld(w, target, db, b) {
      assert forall o <- Samples(w, row) :: Held(w, db, o);
    } else {
      var o :| o in w.raws && BucketOf(w.raws[o], target) == b && !Held(w, db, o);
      assert o in Samples(w, row);
    }
  }

  lemma NewRowIn(w: World, target: Resolution, db: Answers, id: RowId)
    requires Call(w, target, db) && id in Merges(w.rows, target, db)
    ensures id in DownsampleStep(w, target, db).rows
    ensures IsAggregateFor(DownsampleStep(w, target, db).rows[id], target, db.newIds[id])
  {
    assert Merges(w.rows, target, db)[id] == AggregateRow(w.rows, target, db, db.newIds[id]);
  }

  lemma NewRowOrigins(w: World, target: Resolution, db: Answers, id: RowId)
    requires Call(w, target, db) && id in Merges(w.rows, target, db)
    ensures id in DownsampleStep(w, target, db).origins
    ensures DownsampleStep(w, target, db).origins[id] ==
            OriginsOf(w.origins, Members(w.rows, db.batch, target, db.newIds[id]))
  {
  }

  lemma WholeMeans(w: World, w': World, id: RowId, origins: set<RowId>)
    requires id in w'.rows && id in w'.origins && w'.origins[id] == origins && w'.raws == w.raws
    ensures Whole(w', id) <==> origins == Samples(w, w'.rows[id])
  {
  }

  lemma NewIsWhole(w: World, target: Resolution, db: Answers, id: RowId)
    requires Covering(w) && Call(w, target, db) && id in Merges(w.rows, target, db)
    ensures var w' := DownsampleStep(w, target, db);
            && id in w'.rows && w'.rows[id].res == target
            && (Whole(w', id) <==> AllHeld(w, target, db, db.newIds[id]))
  {
    var w', b := DownsampleStep(w, target, db), db.newIds[id];
    var origins := OriginsOf(w.origins, Members(w.rows, db.batch, target, b));
    NewRowIn(w, target, db, id);
    NewRowOrigins(w, target, db, id);
    NewRowDescends(w, target, db, id);
    forall o <- origins ensures o in Samples(w, w'.rows[id]) {
      assert StandsFor(w'.rows[id], w'.raws[o]);
    }
    OriginsAreSamples(w, target, db, b, w'.rows[id]);
    WholeMeans(w, w', id, origins);
  }

  lemma AllHeldUnlessMisses(w: World, target: Resolution, db: Answers, b: Bucket)
    requires Covering(w) && Call(w, target, db) && Aggregates(w.rows, target, db, b)
    ensures AllHeld(w, target, db, b) <==> !InsertMisses(w, target, db, b)
  {
    if o :| o in w.raws && BucketOf(w.raws[o], target) == b && !Held(w, db, o) {
      MissedSample(w, target, db, o);
    }
    if LeavesBehind(w, target, db, b) {
      var i :| i in w.rows && Finer(w.rows[i].res, target) && BucketOf(w.rows[i], target) == b && !Taken(w, db, i);
      var o := LeftSample(w, target, db, i);
    }
  }

  lemma NewIsWholeUnlessMisses(w: World, target: Resolution, db: Answers, id: RowId)
    requires Covering(w) && Call(w, target, db) && id in Merges(w.rows, target, db)
    ensures var w' := DownsampleStep(w, target, db);
            && id in w'.rows && w'.rows[id].res == target
            && (Whole(w', id) <==> !InsertMisses(w, target, db, db.newIds[id]))
  {
    NewIsWhole(w, target, db, id);
    AllHeldUnlessMisses(w, target, db, db.newIds[id]);
  }

  // ---- one step ---------------------------------------------------------------------------------

  lemma OldStaysWhole(w: World, target: Resolution, db: Answers, id: RowId)
    requires Covering(w) && Call(w, target, db) && id in DownsampleStep(w, target, db).rows
    requires id !in Merges(w.rows, target, db) && DownsampleStep(w, target, db).rows[id].res != Raw
    ensures Whole(DownsampleStep(w, target, db), id)
  {
    assert Whole(w, id);
  }

  lemma CallWholeness(w: World, target: Resolution, db: Answers)
    requires Covering(w) && Call(w, target, db)
    ensures AllWhole(DownsampleStep(w, target, db)) <==> !exists b <- db.newIds.Values :: InsertMisses(w, target, db, b)
  {
    var w' := DownsampleStep(w, target, db);
    forall id <- w'.rows | w'.rows[id].res != Raw
      ensures Whole(w', id) <==> !(id in Merges(w.rows, target, db) && InsertMisses(w, target, db, db.newIds[id]))
    {
      if id in Merges(w.rows, target, db) {
        NewIsWholeUnlessMisses(w, target, db, id);
      } else {
        OldStaysWhole(w, target, db, id);
      }
    }
    if b :| b in db.newIds.Values && InsertMisses(w, target, db, b) {
      var id :| id in db.newIds && db.newIds[id] == b;
      assert id in Merges(w.rows, target, db);
      NewIsWholeUnlessMisses(w, target, db, id);
    }
  }

  lemma WholeAfterIngest(w: World, id: RowId, row: Row, a: RowId)
    requires Sound(w) && Enabled(w, Ingested(id, row)) && a in w.rows && Whole(w, a) && Descends(w, a)
    ensures Whole(Step(w, Ingested(id, row)), a) <==> !StandsFor(w.rows[a], row)
  {
    var w' := Step(w, Ingested(id, row));
    assert w'.rows[a] == w.rows[a] && w'.origins[a] == w.origins[a] && id !in w.origins[a];
    forall r | r in w.raws ensures r in Samples(w', w.rows[a]) <==> r in Samples(w, w.rows[a]) {
      assert r != id;
    }
  }

  lemma IngestWholeness(w: World, id: RowId, row: Row)
    requires Covering(w) && Enabled(w, Ingested(id, row))
    ensures AllWhole(Step(w, Ingested(id, row))) <==> !Misses(w, Ingested(id, row))
  {
    var w' := Step(w, Ingested(id, row));
    forall a <- w.rows | w.rows[a].res != Raw
      ensures a in w'.rows && w'.rows[a] == w.rows[a] && (Whole(w', a) <==> !StandsFor(w.rows[a], row))
    {
      assert Whole(w, a) && Descends(w, a);
      WholeAfterIngest(w, id, row, a);
    }
  }

  /** When every stored aggregate accounts for all the raw samples of its bucket, the step keeps it so if and only
      if it is neither a raw row arriving under a stored aggregate nor an insert that leaves a finer row of its
      bucket out or that merges again what is left of a bucket already aggregated. */
  lemma StepWholeness(w: World, ev: Event)
    requires Covering(w) && Enabled(w, ev)
    ensures AllWhole(Step(w, ev)) <==> !Misses(w, ev)
  {
    match ev {
      case Ingested(id, row) => IngestWholeness(w, id, row);
      case Downsampled(source, cutoff, db) =>
        EnabledIsCall(w, source, cutoff, db);
        CallWholeness(w, Coarser(source), db);
    }
  }

  /** Every aggregate was whole after every step of the run. */
  ghost predicate AlwaysWhole(evs: seq<Event>)
    requires ValidRun(EMPTY, evs)
  {
    AllWhole(Run(EMPTY, evs)) && (evs != [] ==> AlwaysWhole(Front(evs)))
  }

  ghost predicate MissesNothing(evs: seq<Event>)
    requires ValidRun(EMPTY, evs)
  {
    evs == [] || (MissesNothing(Front(evs)) && !Misses(Run(EMPTY, Front(evs)), Last(evs)))
  }

  /** Over any run, whatever the database fails to do, aggregates account for all their samples throughout if and
      only if no step misses one. */
  lemma {:induction false} RunWholeness(evs: seq<Event>)
    requires ValidRun(EMPTY, evs)
    ensures AlwaysWhole(evs) <==> MissesNothing(evs)
  {
    if evs != [] {
      RunWholeness(Front(evs));
      RunsKeepCoverageAndHull(Front(evs));
      if AlwaysWhole(Front(evs)) {
        WholeSoFar(Front(evs));
        StepWholeness(Run(EMPTY, Front(evs)), Last(evs));
      }
    }
  }

  lemma WholeSoFar(evs: seq<Event>)
    requires ValidRun(EMPTY, evs) && AlwaysWhole(evs)
    ensures AllWhole(Run(EMPTY, evs))
  {
  }

  // ---- the common case --------------------------------------------------------------------------

  /** No stored row lies under a coarser stored aggregate. */
  ghost predicate Layered(w: World) {
    forall i <- w.rows, j <- w.rows :: Finer(w.rows[i].res, w.rows[j].res) ==> !Contains(w.rows[j], w.rows[i])
  }

  /** An aggregate that holds a sample of the bucket contains every row of the bucket. */
  lemma HolderContainsMember(w: World, target: Resolution, i: RowId, o: RowId, m: RowId)
    requires Sound(w) && i in w.rows && i in w.origins && o in w.origins[i] && o in w.raws
    requires target != Raw && !Finer(w.rows[i].res, target) && m in w.rows && Finer(w.rows[m].res, target)
    requires BucketOf(w.rows[m], target) == BucketOf(w.raws[o], target)
    ensures Contains(w.rows[i], w.rows[m]) && Finer(w.rows[m].res, w.rows[i].res)
  {
    assert Descends(w, i);
    AnyBucketsNest(w.raws[o].at, target, w.rows[i].res);
    AnyBucketsNest(w.rows[m].at, target, w.rows[i].res);
  }

  lemma LayeredHasNoRemnant(w: World, target: Resolution, db: Answers, b: Bucket)
    requires Covering(w) && Layered(w) && Call(w, target, db) && b in db.newIds.Values
    ensures !MergesRemnant(w, target, db, b)
  {
    var m := BucketHasMember(w, target, db, b);
    forall i <- w.rows, o <- w.raws | !Finer(w.rows[i].res, target) && i in w.origins && o in w.origins[i]
      ensures BucketOf(w.raws[o], target) != b
    {
      if BucketOf(w.raws[o], target) == b {
        HolderContainsMember(w, target, i, o, m);
      }
    }
  }

  /** A finer row of the bucket is not in the batch. */
  ghost predicate LeavesOut(w: World, target: Resolution, db: Answers, b: Bucket) {
    exists i <- w.rows :: Finer(w.rows[i].res, target) && BucketOf(w.rows[i], target) == b && i !in db.batch
  }

  /** Then an insert misses a sample exactly when a finer row of its bucket is outside the batch. */
  lemma LayeredInsertMisses(w: World, target: Resolution, db: Answers, b: Bucket)
    requires Covering(w) && Unique(w) && Layered(w) && Call(w, target, db) && b in db.newIds.Values
    requires Aggregates(w.rows, target, db, b)
    ensures InsertMisses(w, target, db, b) <==> LeavesOut(w, target, db, b)
  {
    LayeredHasNoRemnant(w, target, db, b);
    forall i <- w.rows ensures Taken(w, db, i) <==> i in db.batch {
      TakenIsBatched(w, db, i);
    }
  }

  lemma ContainsSameBucket(w: World, m: RowId, i: RowId)
    requires Sound(w) && Unique(w) && Layered(w) && m in w.rows && i in w.rows && Contains(w.rows[m], w.rows[i])
    ensures m == i
  {
    assert Descends(w, i);
    var o :| o in w.origins[i];
    assert StandsFor(w.rows[i], w.raws[o]);
    AnyBucketsNest(w.raws[o].at, w.rows[i].res, w.rows[i].res);
  }

  lemma TakenIsBatched(w: World, db: Answers, i: RowId)
    requires Sound(w) && Unique(w) && Layered(w) && i in w.rows
    ensures Taken(w, db, i) <==> i in db.batch
  {
    if m :| m in db.batch && m in w.rows && m != i && Contains(w.rows[m], w.rows[i]) {
      ContainsSameBucket(w, m, i);
    }
  }

  lemma LayeredHasNoDuplicates(w: World, ev: Event)
    requires Layered(w) && Enabled(w, ev)
    ensures !Duplicates(w, ev)
  {
    if ev.Downsampled? {
      EnabledIsCall(w, ev.source, ev.cutoff, ev.db);
      forall b <- ev.db.newIds.Values ensures !HasAggregate(w.rows, Coarser(ev.source), b) {
        var m := BucketHasMember(w, Coarser(ev.source), ev.db, b);
        forall a <- w.rows ensures !IsAggregateFor(w.rows[a], Coarser(ev.source), b) {
          assert !Contains(w.rows[a], w.rows[m]) || !Finer(w.rows[m].res, w.rows[a].res);
        }
      }
    }
  }

  ghost predicate DeletesWork(ev: Event) {
    ev.Downsampled? ==> forall id :: id in ev.db.batch ==> id !in ev.db.deleteFails
  }

  /** Nothing old stays under a new aggregate. */
  lemma NothingUnderNew(w: World, source: Resolution, cutoff: int, db: Answers, i: RowId, j: RowId)
    requires Covering(w) && Unique(w) && Layered(w)
    requires Enabled(w, Downsampled(source, cutoff, db)) && DeletesWork(Downsampled(source, cutoff, db))
    requires i in w.rows && j in Merges(w.rows, Coarser(source), db)
    requires !InsertMisses(w, Coarser(source), db, db.newIds[j])
    requires Finer(w.rows[i].res, Coarser(source)) && BucketOf(w.rows[i], Coarser(source)) == db.newIds[j]
    ensures i in Removes(w.rows, Coarser(source), db)
  {
    TakenIsBatched(w, db, i);
    assert Taken(w, db, i);
  }

  /** Nothing new appears under an old aggregate. */
  lemma NothingNewUnder(w: World, target: Resolution, db: Answers, i: RowId, j: RowId)
    requires Layered(w) && Call(w, target, db) && j in w.rows && i in Merges(w.rows, target, db)
    requires Finer(target, w.rows[j].res)
    ensures !Contains(w.rows[j], AggregateRow(w.rows, target, db, db.newIds[i]))
  {
    var m := BucketHasMember(w, target, db, db.newIds[i]);
    AnyBucketsNest(w.rows[m].at, target, w.rows[j].res);
    assert !Contains(w.rows[j], w.rows[m]);
  }

  lemma CallKeepsLayered(w: World, source: Resolution, cutoff: int, db: Answers)
    requires Covering(w) && Unique(w) && Layered(w)
    requires var ev := Downsampled(source, cutoff, db); Enabled(w, ev) && DeletesWork(ev) && !Misses(w, ev)
    ensures Layered(Step(w, Downsampled(source, cutoff, db)))
  {
    var target, w' := Coarser(source), Step(w, Downsampled(source, cutoff, db));
    EnabledIsCall(w, source, cutoff, db);
    forall i <- w'.rows, j <- w'.rows | Finer(w'.rows[i].res, w'.rows[j].res)
      ensures !Contains(w'.rows[j], w'.rows[i])
    {
      CallKeepsPair(w, source, cutoff, db, i, j);
    }
  }

  lemma CallKeepsPair(w: World, source: Resolution, cutoff: int, db: Answers, i: RowId, j: RowId)
    requires var ev := Downsampled(source, cutoff, db); Enabled(w, ev) && DeletesWork(ev) && !Misses(w, ev)
    requires Covering(w) && Unique(w) && Layered(w) && Call(w, Coarser(source), db)
    requires var rows := DownsampleStep(w, Coarser(source), db).rows;
             i in rows && j in rows && Finer(rows[i].res, rows[j].res)
    ensures var rows := DownsampleStep(w, Coarser(source), db).rows; !Contains(rows[j], rows[i])
  {
    var target, rows := Coarser(source), DownsampleStep(w, Coarser(source), db).rows;
    var merges := Merges(w.rows, target, db);
    if j in merges {
      NewRowIn(w, target, db, j);
      assert db.newIds[j] in db.newIds.Values && !InsertMisses(w, target, db, db.newIds[j]);
      if i !in merges && Contains(rows[j], rows[i]) {
        NothingUnderNew(w, source, cutoff, db, i, j);
      }
    } else if i in merges {
      NewRowIn(w, target, db, i);
      NothingNewUnder(w, target, db, i, j);
    }
  }

  lemma StepKeepsLayered(w: World, ev: Event)
    requires Covering(w) && Unique(w) && Layered(w) && Enabled(w, ev) && DeletesWork(ev) && !Misses(w, ev)
    ensures Layered(Step(w, ev)) && Unique(Step(w, ev))
  {
    LayeredHasNoDuplicates(w, ev);
    StepUniqueness(w, ev);
    match ev {
      case Ingested(id, row) =>
        var w' := Step(w, ev);
        forall j <- w.rows | w.rows[j].res != Raw ensures !Contains(w.rows[j], row) {
          assert !StandsFor(w.rows[j], row);
        }
      case Downsampled(source, cutoff, db) => CallKeepsLayered(w, source, cutoff, db);
    }
  }

  /** The step misses a sample as one sees it in the rows alone. */
  ghost predicate LeavesRowOut(w: World, ev: Event) {
    match ev
    case Ingested(_, row) => exists a <- w.rows :: w.rows[a].res != Raw && StandsFor(w.rows[a], row)
    case Downsampled(source, _, db) =>
      source != OneHour &&
      exists b <- db.newIds.Values :: Aggregates(w.rows, Coarser(source), db, b) && LeavesOut(w, Coarser(source), db, b)
  }

  lemma MissesIsLeavingOut(w: World, ev: Event)
    requires Covering(w) && Unique(w) && Layered(w) && Enabled(w, ev)
    ensures Misses(w, ev) <==> LeavesRowOut(w, ev)
  {
    if ev.Downsampled? {
      EnabledIsCall(w, ev.source, ev.cutoff, ev.db);
      forall b <- ev.db.newIds.Values | Aggregates(w.rows, Coarser(ev.source), ev.db, b)
        ensures InsertMisses(w, Coarser(ev.source), ev.db, b) <==> LeavesOut(w, Coarser(ev.source), ev.db, b)
      {
        LayeredInsertMisses(w, Coarser(ev.source), ev.db, b);
      }
    }
  }

  ghost predicate LeavesNothingOut(evs: seq<Event>)
    requires ValidRun(EMPTY, evs)
  {
    evs == [] || (LeavesNothingOut(Front(evs)) && !LeavesRowOut(Run(EMPTY, Front(evs)), Last(evs)))
  }

  /** Over runs whose deletes work, aggregates account for all their samples throughout if and only if no raw row
      arrives under a stored aggregate and no insert leaves a finer row of its bucket out of the batch. */
  lemma {:induction false} WorkingRunWholeness(evs: seq<Event>)
    requires ValidRun(EMPTY, evs) && forall i :: 0 <= i < |evs| ==> DeletesWork(evs[i])
    ensures AlwaysWhole(evs) <==> LeavesNothingOut(evs)
    ensures AlwaysWhole(evs) ==> Layered(Run(EMPTY, evs)) && Unique(Run(EMPTY, evs))
  {
    if evs != [] {
      var w, ev := Run(EMPTY, Front(evs)), Last(evs);
      WorkingRunWholeness(Front(evs));
      RunsKeepCoverageAndHull(Front(evs));
      assert ev == evs[|evs| - 1];
      if AlwaysWhole(Front(evs)) {
        WholeSoFar(Front(evs));
        WorkingStep(w, ev);
      }
    }
  }

  lemma WorkingStep(w: World, ev: Event)
    requires Covering(w) && Unique(w) && Layered(w) && Enabled(w, ev) && DeletesWork(ev)
    ensures AllWhole(Step(w, ev)) <==> !LeavesRowOut(w, ev)
    ensures AllWhole(Step(w, ev)) ==> Layered(Step(w, ev)) && Unique(Step(w, ev))
  {
    StepWholeness(w, ev);
    MissesIsLeavingOut(w, ev);
    if !Misses(w, ev) {
      StepKeepsLayered(w, ev);
    }
  }

  // ---- which rows of a bucket a batch has -------------------------------------------------------

  /** The stored source rows of a bucket. */
  ghost function SourceRows(w: World, source: Resolution, b: Bucket): set<RowId>
    requires source != OneHour
  {
    set id <- w.rows | w.rows[id].res == source && BucketOf(w.rows[id], Coarser(source)) == b
  }

  lemma BatchRow(w: World, source: Resolution, cutoff: int, db: Answers, id: RowId)
    requires Enabled(w, Downsampled(source, cutoff, db)) && id in db.batch
    ensures id in w.rows && w.rows[id].res == source && w.rows[id].at < cutoff
  {
  }

  /** The batch holds a whole bucket when it is not full and the cutoff is not before the bucket's end. */
  lemma SettledBucketsAreWhole(w: World, source: Resolution, cutoff: int, db: Answers, b: Bucket, id: RowId)
    requires Enabled(w, Downsampled(source, cutoff, db)) && db.batch != [] && |db.batch| < BATCH_LIMIT
    requires id in SourceRows(w, source, b)
    requires BucketStart(cutoff, Coarser(source)) > b.at
    ensures id in db.batch
  {
    if cutoff <= w.rows[id].at {
      BucketStartIsMonotone(cutoff, w.rows[id].at, Coarser(source));
    }
  }

  lemma BucketStartIsMonotone(t: int, u: int, res: Resolution)
    requires t <= u
    ensures BucketStart(t, res) <= BucketStart(u, res)
  {
    match res {
      case Raw =>
      case OneMinute => assert t / 60_000 <= u / 60_000;
      case FiveMinutes => assert t / 300_000 <= u / 300_000;
      case OneHour => assert t / 3_600_000 <= u / 3_600_000;
    }
  }

  /** A source row whose bucket already has an aggregate is deleted without changing that aggregate. */
  lemma LateRowsAreDiscarded(w: World, source: Resolution, cutoff: int, db: Answers, s: RowId, agg: RowId)
    requires Sound(w) && Enabled(w, Downsampled(source, cutoff, db))
    requires s in db.batch && s !in db.deleteFails
    requires agg in w.rows && IsAggregateFor(w.rows[agg], Coarser(source), BucketOf(w.rows[s], Coarser(source)))
    requires BucketOf(w.rows[s], Coarser(source)) !in db.lookupFails
    ensures var w' := Step(w, Downsampled(source, cutoff, db));
            && s !in w'.rows && agg in w'.rows && w'.rows[agg] == w.rows[agg]
            && agg in w.origins && agg in w'.origins && w'.origins[agg] == w.origins[agg]
  {
    BatchRow(w, source, cutoff, db, s);
    EnabledIsCall(w, source, cutoff, db);
    AggregateKept(w, Coarser(source), db, agg);
    assert Descends(w, agg) && Descends(w, s);
    assert s in Removes(w.rows, Coarser(source), db);
  }
}
