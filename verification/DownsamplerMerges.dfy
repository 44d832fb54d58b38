/** How often a row goes into an aggregate, and what lets it happen twice. */
module DownsamplerMerges {
  import opened Sequences
  import opened Wrappers
  import opened DownsamplerModel
  import opened DownsamplerProofs

  /** This call puts the row into a new aggregate. */
  ghost predicate MergesRow(w: World, ev: Event, s: RowId)
    requires Enabled(w, ev)
  {
    ev.Downsampled? && s in ev.db.batch &&
      Aggregates(w.rows, Coarser(ev.source), ev.db, BucketOf(w.rows[s], Coarser(ev.source)))
  }

  ghost function MergeCount(w: World, evs: seq<Event>, s: RowId): nat
    requires ValidRun(w, evs)
  {
    if evs == [] then 0
    else MergeCount(w, Front(evs), s) + if MergesRow(Run(w, Front(evs)), Last(evs), s) then 1 else 0
  }

  // ---- the shield -------------------------------------------------------------------------------

  /** The bucket a stored row's aggregate will have. */
  function NextBucket(row: Row): Bucket
    requires row.res != OneHour
  {
    BucketOf(row, Coarser(row.res))
  }

  predicate IsNextAggregate(row: Row, agg: Row)
    requires row.res != OneHour
  {
    IsAggregateFor(agg, Coarser(row.res), NextBucket(row))
  }

  /** An aggregate of the row's bucket is stored at the next resolution, so a working lookup finds it. */
  ghost predicate Shielded(w: World, row: Row) {
    row.res != OneHour && HasAggregate(w.rows, Coarser(row.res), NextBucket(row))
  }

  /** The call inserts an aggregate of the row's bucket. */
  ghost predicate Inserts(w: World, ev: Event, row: Row)
    requires Enabled(w, ev)
  {
    && ev.Downsampled? && row.res == ev.source
    && NextBucket(row) in ev.db.newIds.Values && Aggregates(w.rows, Coarser(ev.source), ev.db, NextBucket(row))
  }

  /** The call moves every aggregate of the row's bucket on to the resolution after that. */
  ghost predicate Exposes(w: World, ev: Event, row: Row)
    requires Enabled(w, ev)
  {
    && ev.Downsampled? && row.res != OneHour && ev.source == Coarser(row.res)
    && forall a <- w.rows :: IsNextAggregate(row, w.rows[a]) ==> a in Removes(w.rows, Coarser(ev.source), ev.db)
  }

  lemma InsertShields(w: World, ev: Event, row: Row)
    requires Enabled(w, ev) && Inserts(w, ev, row)
    ensures Shielded(Step(w, ev), row)
  {
    var target, b := Coarser(ev.source), NextBucket(row);
    var id :| id in ev.db.newIds && ev.db.newIds[id] == b;
    EnabledIsCall(w, ev.source, ev.cutoff, ev.db);
    NewRowStored(w, target, ev.db, id);
  }

  /** What is stored after a call: old rows that stay, and inserts. */
  lemma StoredAfterCall(w: World, source: Resolution, cutoff: int, db: Answers, a: RowId)
    requires Enabled(w, Downsampled(source, cutoff, db)) && a in Step(w, Downsampled(source, cutoff, db)).rows
    ensures var row := Step(w, Downsampled(source, cutoff, db)).rows[a];
            if a in Merges(w.rows, Coarser(source), db) then
              IsAggregateFor(row, Coarser(source), db.newIds[a]) && a in db.newIds
            else a in w.rows && w.rows[a] == row && a !in Removes(w.rows, Coarser(source), db)
  {
  }

  lemma StaysStored(w: World, source: Resolution, cutoff: int, db: Answers, a: RowId)
    requires Enabled(w, Downsampled(source, cutoff, db)) && a in w.rows && a !in Removes(w.rows, Coarser(source), db)
    ensures a in Step(w, Downsampled(source, cutoff, db)).rows
    ensures Step(w, Downsampled(source, cutoff, db)).rows[a] == w.rows[a]
  {
  }

  lemma NextIsNotRaw(row: Row, agg: Row)
    requires row.res != OneHour && IsNextAggregate(row, agg)
    ensures agg.res != Raw
  {
  }

  lemma SameNext(row: Row, agg: Row, target: Resolution, b: Bucket)
    requires row.res != OneHour && IsNextAggregate(row, agg) && IsAggregateFor(agg, target, b)
    ensures target == Coarser(row.res) && b == NextBucket(row)
  {
  }

  /** The rows a call removes are of its source resolution. */
  lemma RemovedAreSource(w: World, source: Resolution, cutoff: int, db: Answers, a: RowId)
    requires Enabled(w, Downsampled(source, cutoff, db)) && a in Removes(w.rows, Coarser(source), db)
    ensures a in w.rows && w.rows[a].res == source
  {
    EnabledIsCall(w, source, cutoff, db);
    var i :| 0 <= i < |db.batch| && db.batch[i] == a;
  }

  /** A shield goes up only by an insert and comes down only when the aggregate itself moves on. */
  lemma ShieldChanges(w: World, ev: Event, row: Row)
    requires Enabled(w, ev) && row.res != OneHour
    ensures Shielded(Step(w, ev), row) <==> Inserts(w, ev, row) || (Shielded(w, row) && !Exposes(w, ev, row))
  {
    match ev {
      case Ingested(id, raw) => IngestKeepsShield(w, id, raw, row);
      case Downsampled(source, cutoff, db) => CallChangesShield(w, source, cutoff, db, row);
    }
  }

  lemma IngestKeepsShield(w: World, id: RowId, raw: Row, row: Row)
    requires Enabled(w, Ingested(id, raw)) && row.res != OneHour
    ensures Shielded(Step(w, Ingested(id, raw)), row) <==> Shielded(w, row)
  {
    var w' := Step(w, Ingested(id, raw));
    if a :| a in w.rows && IsNextAggregate(row, w.rows[a]) {
      assert w'.rows[a] == w.rows[a];
    }
    if a :| a in w'.rows && IsNextAggregate(row, w'.rows[a]) {
      NextIsNotRaw(row, w'.rows[a]);
      assert a in w.rows;
    }
  }

  lemma NewNextIsInsert(w: World, source: Resolution, cutoff: int, db: Answers, row: Row, a: RowId)
    requires Enabled(w, Downsampled(source, cutoff, db)) && row.res != OneHour
    requires a in Merges(w.rows, Coarser(source), db)
    requires a in Step(w, Downsampled(source, cutoff, db)).rows
    requires IsNextAggregate(row, Step(w, Downsampled(source, cutoff, db)).rows[a])
    ensures Inserts(w, Downsampled(source, cutoff, db), row)
  {
    StoredAfterCall(w, source, cutoff, db, a);
    SameNext(row, Step(w, Downsampled(source, cutoff, db)).rows[a], Coarser(source), db.newIds[a]);
    SourceOfTarget(source, row.res);
  }

  lemma CallChangesShield(w: World, source: Resolution, cutoff: int, db: Answers, row: Row)
    requires Enabled(w, Downsampled(source, cutoff, db)) && row.res != OneHour
    ensures var ev := Downsampled(source, cutoff, db);
            Shielded(Step(w, ev), row) <==> Inserts(w, ev, row) || (Shielded(w, row) && !Exposes(w, ev, row))
  {
    hide Step, Inserts, Merges;
    var ev := Downsampled(source, cutoff, db);
    var w' := Step(w, ev);
    if Inserts(w, ev, row) {
      InsertShields(w, ev, row);
    }
    if a :| a in w'.rows && IsNextAggregate(row, w'.rows[a]) {
      StoredAfterCall(w, source, cutoff, db, a);
      if a in Merges(w.rows, Coarser(source), db) {
        NewNextIsInsert(w, source, cutoff, db, row, a);
      } else {
        assert IsNextAggregate(row, w.rows[a]);
      }
    }
    if Shielded(w, row) && !Exposes(w, ev, row) {
      var a := AggregateLeft(w, source, cutoff, db, row);
      StaysStored(w, source, cutoff, db, a);
      assert IsNextAggregate(row, w'.rows[a]);
    }
  }

  lemma SourceOfTarget(a: Resolution, b: Resolution)
    requires a != OneHour && b != OneHour && Coarser(a) == Coarser(b)
    ensures a == b
  {
  }

  lemma AggregateLeft(w: World, source: Resolution, cutoff: int, db: Answers, row: Row) returns (a: RowId)
    requires Enabled(w, Downsampled(source, cutoff, db)) && row.res != OneHour
    requires Shielded(w, row) && !Exposes(w, Downsampled(source, cutoff, db), row)
    ensures a in w.rows && IsNextAggregate(row, w.rows[a]) && a !in Removes(w.rows, Coarser(source), db)
  {
    if source == Coarser(row.res) {
      a :| a in w.rows && IsNextAggregate(row, w.rows[a]) && a !in Removes(w.rows, Coarser(source), db);
    } else {
      a :| a in w.rows && IsNextAggregate(row, w.rows[a]);
      if a in Removes(w.rows, Coarser(source), db) {
        RemovedAreSource(w, source, cutoff, db, a);
      }
    }
  }

  // ---- one row ----------------------------------------------------------------------------------

  /** A call merges a row exactly when the row is in its batch, the insert goes through, and the row is unshielded or
      the lookup failed. */
  lemma MergesExactlyWhen(w: World, ev: Event, s: RowId)
    requires Enabled(w, ev)
    ensures MergesRow(w, ev, s) <==>
            && ev.Downsampled? && s in ev.db.batch && s in w.rows && w.rows[s].res == ev.source
            && NextBucket(w.rows[s]) !in ev.db.saveFails
            && (!Shielded(w, w.rows[s]) || NextBucket(w.rows[s]) in ev.db.lookupFails)
  {
    if ev.Downsampled? && s in ev.db.batch {
      var i :| 0 <= i < |ev.db.batch| && ev.db.batch[i] == s;
    }
  }

  /** After a call that merged it, a row is gone if and only if its delete succeeded, and shielded if it is not. */
  lemma MergedIsGoneOrShielded(w: World, ev: Event, s: RowId)
    requires Sound(w) && Enabled(w, ev) && MergesRow(w, ev, s)
    ensures s in w.rows && Shielded(Step(w, ev), w.rows[s])
    ensures s !in Step(w, ev).rows <==> s !in ev.db.deleteFails
    ensures s in Step(w, ev).rows ==> Step(w, ev).rows[s] == w.rows[s]
  {
    MergesExactlyWhen(w, ev, s);
    var i :| 0 <= i < |ev.db.batch| && ev.db.batch[i] == s;
    assert NextBucket(w.rows[s]) in ev.db.newIds.Values;
    InsertShields(w, ev, w.rows[s]);
    assert s in w.rows && s !in Merges(w.rows, Coarser(ev.source), ev.db);
    assert s in Removes(w.rows, Coarser(ev.source), ev.db) <==> s !in ev.db.deleteFails;
  }

  /** A known row that is gone never comes back; one that stays does not change. */
  lemma RowsOnlyLeave(w: World, ev: Event, s: RowId)
    requires Sound(w) && Enabled(w, ev) && s in w.origins
    ensures s in Step(w, ev).origins
    ensures s in Step(w, ev).rows ==> s in w.rows && Step(w, ev).rows[s] == w.rows[s]
  {
  }

  // ---- over runs --------------------------------------------------------------------------------

  /** Some call merged the row while its delete failed. */
  ghost predicate KeptAfterMerge(evs: seq<Event>, s: RowId)
    requires ValidRun(EMPTY, evs)
  {
    evs != [] &&
      (KeptAfterMerge(Front(evs), s)
       || (MergesRow(Run(EMPTY, Front(evs)), Last(evs), s) && s in Last(evs).db.deleteFails))
  }

  /** Of the calls since that touched the row's shield, the last one took it down. */
  ghost predicate ExposedSince(evs: seq<Event>, s: RowId)
    requires ValidRun(EMPTY, evs)
  {
    evs != [] && KeptAfterMerge(Front(evs), s) && s in Run(EMPTY, Front(evs)).rows &&
      var w, row := Run(EMPTY, Front(evs)), Run(EMPTY, Front(evs)).rows[s];
      Exposes(w, Last(evs), row) || (ExposedSince(Front(evs), s) && !Inserts(w, Last(evs), row))
  }

  /** The call takes the row into its batch and inserts, with the row exposed or the lookup failing. */
  ghost predicate Retakes(evs: seq<Event>, s: RowId)
    requires ValidRun(EMPTY, evs) && evs != []
  {
    var w, ev := Run(EMPTY, Front(evs)), Last(evs);
    && ev.Downsampled? && s in ev.db.batch && s in w.rows && w.rows[s].res == ev.source
    && NextBucket(w.rows[s]) !in ev.db.saveFails
    && (ExposedSince(Front(evs), s) || NextBucket(w.rows[s]) in ev.db.lookupFails)
  }

  ghost predicate TakenAgain(evs: seq<Event>, s: RowId)
    requires ValidRun(EMPTY, evs)
  {
    evs != [] && (TakenAgain(Front(evs), s) || (KeptAfterMerge(Front(evs), s) && Retakes(evs, s)))
  }

  /** A merged row that is still stored is exposed exactly when no aggregate of its bucket is. */
  lemma {:induction false} ExposedIsUnshielded(evs: seq<Event>, s: RowId)
    requires ValidRun(EMPTY, evs) && KeptAfterMerge(evs, s) && s in Run(EMPTY, evs).rows
    ensures Run(EMPTY, evs).rows[s].res != OneHour
    ensures ExposedSince(evs, s) <==> !Shielded(Run(EMPTY, evs), Run(EMPTY, evs).rows[s])
  {
    var w, ev := Run(EMPTY, Front(evs)), Last(evs);
    RunsKeepCoverageAndHull(Front(evs));
    if KeptAfterMerge(Front(evs), s) {
      MergedOnceIsKnown(Front(evs), s);
      RowsOnlyLeave(w, ev, s);
      ExposedIsUnshielded(Front(evs), s);
      ShieldChanges(w, ev, w.rows[s]);
      ExposeAndInsertExclude(w, ev, w.rows[s]);
    } else {
      MergedIsGoneOrShielded(w, ev, s);
      MergesExactlyWhen(w, ev, s);
    }
  }

  lemma ExposeAndInsertExclude(w: World, ev: Event, row: Row)
    requires Enabled(w, ev)
    ensures !(Exposes(w, ev, row) && Inserts(w, ev, row))
  {
  }

  lemma {:induction false} MergedOnceIsKnown(evs: seq<Event>, s: RowId)
    requires ValidRun(EMPTY, evs)
    ensures KeptAfterMerge(evs, s) ==> MergeCount(EMPTY, evs, s) > 0
    ensures MergeCount(EMPTY, evs, s) > 0 ==>
              s in Run(EMPTY, evs).origins && (s in Run(EMPTY, evs).rows ==> KeptAfterMerge(evs, s))
  {
    if evs != [] {
      var w, ev := Run(EMPTY, Front(evs)), Last(evs);
      MergedOnceIsKnown(Front(evs), s);
      RunsKeepCoverageAndHull(Front(evs));
      if MergesRow(w, ev, s) {
        MergedIsGoneOrShielded(w, ev, s);
        assert Descends(w, s);
      }
      if s in w.origins {
        RowsOnlyLeave(w, ev, s);
      }
    }
  }

  /** Over any run a row goes into two aggregates if and only if a call merged it while its delete failed and a later
      one took it again, after its aggregate had moved on or past a failed lookup. */
  lemma {:induction false} MergedTwiceExactlyWhen(evs: seq<Event>, s: RowId)
    requires ValidRun(EMPTY, evs)
    ensures MergeCount(EMPTY, evs, s) >= 2 <==> TakenAgain(evs, s)
  {
    if evs != [] {
      var w, ev := Run(EMPTY, Front(evs)), Last(evs);
      MergedTwiceExactlyWhen(Front(evs), s);
      MergedOnceIsKnown(Front(evs), s);
      MergesExactlyWhen(w, ev, s);
      if KeptAfterMerge(Front(evs), s) && s in w.rows {
        ExposedIsUnshielded(Front(evs), s);
      }
    }
  }

  predicate DeletesSucceed(evs: seq<Event>, s: RowId) {
    forall i :: 0 <= i < |evs| && evs[i].Downsampled? ==> s !in evs[i].db.deleteFails
  }

  /** In particular a row whose deletes succeed goes into at most one. */
  lemma {:induction false} MergedAtMostOnce(evs: seq<Event>, s: RowId)
    requires ValidRun(EMPTY, evs) && DeletesSucceed(evs, s)
    ensures MergeCount(EMPTY, evs, s) <= 1 && !KeptAfterMerge(evs, s)
    ensures MergeCount(EMPTY, evs, s) == 1 ==> s in Run(EMPTY, evs).origins && s !in Run(EMPTY, evs).rows
  {
    MergedOnceIsKnown(evs, s);
    if evs != [] {
      MergedAtMostOnce(Front(evs), s);
      MergedTwiceExactlyWhen(evs, s);
      MergedTwiceExactlyWhen(Front(evs), s);
      assert Last(evs) == evs[|evs| - 1];
    }
  }
}
