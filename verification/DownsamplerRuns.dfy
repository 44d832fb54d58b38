/** Runs of real passes, five minutes apart, that do what one would not expect of the downsampler. */
module DownsamplerRuns {
  import opened Sequences
  import opened Wrappers
  import opened DownsamplerModel
  import opened DownsamplerMeans
  import opened DownsamplerProofs
  import opened DownsamplerMerges
  import opened DownsamplerWhole

  const MINUTE: int := 60_000

  /** A raw row being stored, or one aggregateMetrics pass. */
  datatype Item =
    | Stored(id: RowId, row: Row)
    | Pass(now: int, first: Answers, second: Answers, third: Answers)

  function First(item: Item): Event
    requires item.Pass?
  {
    Downsampled(Raw, item.now - 5 * MINUTE, item.first)
  }

  function Second(item: Item): Event
    requires item.Pass?
  {
    Downsampled(OneMinute, item.now - 30 * MINUTE, item.second)
  }

  function Third(item: Item): Event
    requires item.Pass?
  {
    Downsampled(FiveMinutes, item.now - 360 * MINUTE, item.third)
  }

  function ItemEvents(item: Item): seq<Event> {
    if item.Stored? then [Ingested(item.id, item.row)] else [First(item), Second(item), Third(item)]
  }

  lemma TwoMore(w: World, e1: Event, e2: Event, e3: Event)
    ensures Front([e1]) == [] && Front([e1, e2]) == [e1] && Front([e1, e2, e3]) == [e1, e2]
    ensures ValidRun(w, [e1]) <==> Enabled(w, e1)
    ensures ValidRun(w, [e1]) ==> Run(w, [e1]) == Step(w, e1)
  {
    assert Front([e1]) == [] && Front([e1, e2]) == [e1] && Front([e1, e2, e3]) == [e1, e2];
    assert ValidRun(w, []) && Run(w, []) == w;
  }

  /** A pass of such a run is one call of aggregateMetrics. */
  lemma PassIsThreeCalls(w: World, item: Item)
    requires item.Pass?
    ensures ValidRun(w, ItemEvents(item)) <==> PassEnabled(w, item.now, item.first, item.second, item.third)
    ensures ValidRun(w, ItemEvents(item)) ==>
              Run(w, ItemEvents(item)) == AfterPass(w, item.now, item.first, item.second, item.third)
  {
    hide Step, Enabled;
    var e1, e2, e3 := First(item), Second(item), Third(item);
    TwoMore(w, e1, e2, e3);
    assert ValidRun(w, [e1, e2]) <==> ValidRun(w, [e1]) && Enabled(Run(w, [e1]), e2);
    assert ValidRun(w, [e1, e2, e3]) <==> ValidRun(w, [e1, e2]) && Enabled(Run(w, [e1, e2]), e3);
  }

  function EventsOf(items: seq<Item>): seq<Event> {
    if items == [] then [] else EventsOf(Front(items)) + ItemEvents(Last(items))
  }

  function LastPass(items: seq<Item>): Option<int> {
    if items == [] then None else if Last(items).Pass? then Some(Last(items).now) else LastPass(Front(items))
  }

  /** Passes come from a five-minute ticker. */
  predicate OnTicker(items: seq<Item>) {
    items == [] ||
      (OnTicker(Front(items)) &&
       (Last(items).Pass? && LastPass(Front(items)).Some? ==>
          Last(items).now == LastPass(Front(items)).value + 5 * MINUTE))
  }

  /** A run that ends in w and has put row s into n aggregates. */
  ghost predicate Reaches(evs: seq<Event>, w: World, s: RowId, n: nat) {
    ValidRun(EMPTY, evs) && Run(EMPTY, evs) == w && MergeCount(EMPTY, evs, s) == n
  }

  ghost predicate Leads(items: seq<Item>, w: World, s: RowId, n: nat) {
    OnTicker(items) && Reaches(EventsOf(items), w, s, n)
  }

  // ---- one more item ----------------------------------------------------------------------------

  ghost function MergesNow(w: World, ev: Event, s: RowId): nat
    requires Enabled(w, ev)
  {
    if MergesRow(w, ev, s) then 1 else 0
  }

  lemma NothingYet()
    ensures Leads([], EMPTY, 1, 0) && LastPass([]) == None
  {
  }

  /** From w the event leads to w', and puts row s into k aggregates. */
  ghost predicate Does(w: World, ev: Event, w': World, s: RowId, k: nat) {
    Enabled(w, ev) && Step(w, ev) == w' && MergesNow(w, ev, s) == k
  }

  lemma AfterEvent(evs: seq<Event>, w: World, s: RowId, n: nat, ev: Event, w': World, k: nat)
    requires Reaches(evs, w, s, n) && Does(w, ev, w', s, k)
    ensures Reaches(evs + [ev], w', s, n + k)
  {
    assert Front(evs + [ev]) == evs;
  }

  lemma AfterStored(items: seq<Item>, w: World, s: RowId, n: nat, id: RowId, row: Row, w': World)
    returns (longer: seq<Item>)
    requires Leads(items, w, s, n) && Does(w, Ingested(id, row), w', s, 0)
    ensures Leads(longer, w', s, n) && LastPass(longer) == LastPass(items)
  {
    longer := items + [Stored(id, row)];
    assert Front(longer) == items;
    AfterEvent(EventsOf(items), w, s, n, Ingested(id, row), w', 0);
  }

  lemma ThreeEvents(evs: seq<Event>, e1: Event, e2: Event, e3: Event)
    ensures evs + [e1, e2, e3] == evs + [e1] + [e2] + [e3]
  {
  }

  lemma AfterThree(evs: seq<Event>, w: World, s: RowId, n: nat, e1: Event, e2: Event, e3: Event, w1: World, w2: World,
                   w3: World, k: nat)
    requires Reaches(evs, w, s, n) && Does(w, e1, w1, s, k) && Does(w1, e2, w2, s, 0) && Does(w2, e3, w3, s, 0)
    ensures Reaches(evs + [e1, e2, e3], w3, s, n + k)
  {
    hide Does;
    hide Reaches;
    AfterEvent(evs, w, s, n, e1, w1, k);
    AfterEvent(evs + [e1], w1, s, n + k, e2, w2, 0);
    AfterEvent(evs + [e1] + [e2], w2, s, n + k, e3, w3, 0);
    ThreeEvents(evs, e1, e2, e3);
  }

  /** A pass whose first call puts row s into k aggregates and whose others do not merge it. */
  lemma AfterPassItem(items: seq<Item>, w: World, s: RowId, n: nat, item: Item, e1: Event, e2: Event, e3: Event,
                      w1: World, w2: World, w3: World, k: nat) returns (longer: seq<Item>)
    requires Leads(items, w, s, n) && item.Pass? && ItemEvents(item) == [e1, e2, e3]
    requires LastPass(items).Some? ==> item.now == LastPass(items).value + 5 * MINUTE
    requires Does(w, e1, w1, s, k) && Does(w1, e2, w2, s, 0) && Does(w2, e3, w3, s, 0)
    ensures Leads(longer, w3, s, n + k) && LastPass(longer) == Some(item.now)
  {
    longer := items + [item];
    assert Front(longer) == items;
    AfterThree(EventsOf(items), w, s, n, e1, e2, e3, w1, w2, w3, k);
  }

  /** A pass whose later calls find nothing. */
  lemma AfterFirstOnly(items: seq<Item>, w: World, s: RowId, n: nat, now: int, e1: Event, w': World, k: nat)
    returns (longer: seq<Item>)
    requires Leads(items, w, s, n) && (LastPass(items).Some? ==> now == LastPass(items).value + 5 * MINUTE)
    requires e1.Downsampled? && e1.source == Raw && e1.cutoff == now - 5 * MINUTE && Does(w, e1, w', s, k)
    ensures Leads(longer, w', s, n + k) && LastPass(longer) == Some(now)
  {
    hide Does;
    hide Leads;
    var e2, e3 := Downsampled(OneMinute, now - 30 * MINUTE, IDLE), Downsampled(FiveMinutes, now - 360 * MINUTE, IDLE);
    var item := Pass(now, e1.db, IDLE, IDLE);
    assert ItemEvents(item) == [e1, e2, e3];
    IdleCall(w', OneMinute, now - 30 * MINUTE, s);
    IdleCall(w', FiveMinutes, now - 360 * MINUTE, s);
    longer := AfterPassItem(items, w, s, n, item, e1, e2, e3, w', w', w', k);
  }

  // ---- calls on no row and on one row -----------------------------------------------------------

  const IDLE := Answers([], {}, {}, {}, map[])

  lemma IdleCall(w: World, source: Resolution, cutoff: int, s: RowId)
    requires source != OneHour
    ensures Does(w, Downsampled(source, cutoff, IDLE), w, s, 0)
  {
    assert IDLE.newIds.Values == {} == BucketsOf(w.rows, [], Coarser(source));
    Unchanged(w.rows, Removes(w.rows, Coarser(source), IDLE), Merges(w.rows, Coarser(source), IDLE));
    Unchanged(w.origins, {}, MergedOrigins(w, Coarser(source), IDLE));
  }

  lemma Unchanged<T>(m: map<RowId, T>, gone: set<RowId>, born: map<RowId, T>)
    requires gone == {} && born.Keys == {}
    ensures (m - gone) + born == m && m + born == m
  {
  }

  /** The answers of a call whose query returns the single row s. */
  function OneRow(s: RowId, b: Bucket, agg: RowId, lookupFails: set<Bucket>, deleteFails: set<RowId>): Answers {
    Answers([s], lookupFails, {}, deleteFails, map[agg := b])
  }

  predicate OnlyRow(w: World, source: Resolution, cutoff: int, s: RowId) {
    && s in w.rows && s in w.origins && w.rows[s].res == source && w.rows[s].at < cutoff
    && forall id <- w.rows :: w.rows[id].res == source && w.rows[id].at < cutoff ==> id == s
  }

  lemma OneRowEnabled(w: World, source: Resolution, cutoff: int, s: RowId, db: Answers, agg: RowId)
    requires source != OneHour && OnlyRow(w, source, cutoff, s) && Unused(w, {agg})
    requires db.batch == [s] && db.newIds == map[agg := NextBucket(w.rows[s])]
    ensures Enabled(w, Downsampled(source, cutoff, db))
  {
    var b := NextBucket(w.rows[s]);
    assert db.newIds.Keys == {agg} && agg in db.newIds;
    assert BucketOf(w.rows[db.batch[0]], Coarser(source)) == b;
    assert db.newIds.Values == {b} == BucketsOf(w.rows, db.batch, Coarser(source));
  }

  lemma OneRowMembers(rows: map<RowId, Row>, target: Resolution, s: RowId)
    requires s in rows
    ensures AllStored(rows, [s]) && Members(rows, [s], target, BucketOf(rows[s], target)) == [s]
  {
    assert Front([s]) == [];
  }

  lemma OneRowRemoves(rows: map<RowId, Row>, target: Resolution, s: RowId, db: Answers)
    requires s in rows && db.batch == [s] && db.saveFails == {}
    ensures Removes(rows, target, db) == {s} - db.deleteFails
  {
  }

  lemma OneEntry<T>(m: map<RowId, T>, gone: set<RowId>, born: map<RowId, T>, k: RowId, v: T)
    requires born.Keys == {k} && born[k] == v
    ensures (m - gone) + born == (m - gone)[k := v] && m + born == m[k := v]
  {
  }

  lemma OneRowBorn(w: World, target: Resolution, s: RowId, db: Answers, agg: RowId)
    requires s in w.rows && db.batch == [s] && db.newIds == map[agg := BucketOf(w.rows[s], target)]
    requires Aggregates(w.rows, target, db, BucketOf(w.rows[s], target))
    ensures AllStored(w.rows, db.batch) && Merges(w.rows, target, db).Keys == {agg}
    ensures Merges(w.rows, target, db)[agg] == AggregateRow(w.rows, target, db, BucketOf(w.rows[s], target))
  {
    assert db.newIds[agg] == BucketOf(w.rows[s], target) && forall id <- db.newIds :: id == agg;
  }

  lemma CreditOf(w: World, target: Resolution, db: Answers, agg: RowId)
    requires AllStored(w.rows, db.batch) && Merges(w.rows, target, db).Keys == {agg}
    ensures MergedOrigins(w, target, db).Keys == {agg} && agg in db.newIds
    ensures MergedOrigins(w, target, db)[agg] == OriginsOf(w.origins, Members(w.rows, db.batch, target, db.newIds[agg]))
  {
    assert agg in Merges(w.rows, target, db);
  }

  lemma OriginsOfOne(origins: map<RowId, set<RowId>>, s: RowId)
    requires s in origins
    ensures OriginsOf(origins, [s]) == origins[s]
  {
    forall o | o in origins[s] ensures o in OriginsOf(origins, [s]) {
      assert [s][0] == s;
    }
  }

  lemma OneRowCredits(w: World, target: Resolution, s: RowId, db: Answers, agg: RowId)
    requires s in w.rows && s in w.origins && db.batch == [s] && db.newIds == map[agg := BucketOf(w.rows[s], target)]
    requires AllStored(w.rows, db.batch) && Merges(w.rows, target, db).Keys == {agg}
    ensures MergedOrigins(w, target, db).Keys == {agg} && MergedOrigins(w, target, db)[agg] == w.origins[s]
  {
    CreditOf(w, target, db, agg);
    OneRowMembers(w.rows, target, s);
    OriginsOfOne(w.origins, s);
  }

  /** What is left of one row after it was merged into agg. */
  function MergedInto(w: World, s: RowId, deleteFails: set<RowId>, agg: RowId, row: Row): World
    requires s in w.origins
  {
    World((w.rows - ({s} - deleteFails))[agg := row], w.raws, w.origins[agg := w.origins[s]])
  }

  lemma OneRowStep(w: World, target: Resolution, s: RowId, db: Answers, agg: RowId)
    requires s in w.rows && s in w.origins && db.batch == [s] && db.saveFails == {}
    requires db.newIds == map[agg := BucketOf(w.rows[s], target)]
    requires Aggregates(w.rows, target, db, BucketOf(w.rows[s], target))
    ensures AllStored(w.rows, db.batch)
    ensures DownsampleStep(w, target, db) ==
            MergedInto(w, s, db.deleteFails, agg, AggregateRow(w.rows, target, db, BucketOf(w.rows[s], target)))
  {
    OneRowRemoves(w.rows, target, s, db);
    OneRowBorn(w, target, s, db, agg);
    OneRowCredits(w, target, s, db, agg);
    OneEntry(w.rows, {s} - db.deleteFails, Merges(w.rows, target, db), agg,
             AggregateRow(w.rows, target, db, BucketOf(w.rows[s], target)));
    OneEntry(w.origins, {}, MergedOrigins(w, target, db), agg, w.origins[s]);
  }

  lemma OneRowAggregate(rows: map<RowId, Row>, target: Resolution, s: RowId, db: Answers)
    requires s in rows && db.batch == [s]
    ensures AllStored(rows, db.batch)
    ensures var b := BucketOf(rows[s], target);
            && IsAggregateFor(AggregateRow(rows, target, db, b), target, b)
            && SameNumbers(rows[s], AggregateRow(rows, target, db, b))
  {
    OneRowMembers(rows, target, s);
    SameNumbersAsOne(rows, s, AggregateRow(rows, target, db, BucketOf(rows[s], target)));
  }

  lemma OneRowMerges(w: World, source: Resolution, cutoff: int, s: RowId, agg: RowId, lookupFails: set<Bucket>,
                     deleteFails: set<RowId>, r: RowId) returns (ev: Event, row: Row)
    requires source != OneHour && OnlyRow(w, source, cutoff, s) && Unused(w, {agg})
    requires !Shielded(w, w.rows[s]) || NextBucket(w.rows[s]) in lookupFails
    ensures ev == Downsampled(source, cutoff, OneRow(s, NextBucket(w.rows[s]), agg, lookupFails, deleteFails))
    ensures Does(w, ev, MergedInto(w, s, deleteFails, agg, row), r, if r == s then 1 else 0)
    ensures IsNextAggregate(w.rows[s], row) && SameNumbers(w.rows[s], row)
  {
    var db := OneRow(s, NextBucket(w.rows[s]), agg, lookupFails, deleteFails);
    ev := Downsampled(source, cutoff, db);
    OneRowEnabled(w, source, cutoff, s, db, agg);
    MergesExactlyWhen(w, ev, r);
    OneRowStep(w, Coarser(source), s, db, agg);
    OneRowAggregate(w.rows, Coarser(source), s, db);
    row := AggregateRow(w.rows, Coarser(source), db, NextBucket(w.rows[s]));
  }

  ghost predicate SameNumbers(a: Row, b: Row) {
    forall k: string :: HasNum(a, k) && k != SAMPLES ==> HasNum(b, k) && b.data.value[k].n == a.data.value[k].n
  }

  lemma SameNumbersAsOne(rows: map<RowId, Row>, s: RowId, row: Row)
    requires s in rows && row.data == Some(AverageDataOf(rows, [s]))
    ensures SameNumbers(rows[s], row)
  {
    forall k: string | HasNum(rows[s], k) && k != SAMPLES
      ensures HasNum(row, k) && row.data.value[k].n == rows[s].data.value[k].n
    {
      MeanOfOne(rows, s, rows[s].data.value, k);
    }
  }

  lemma MeanOfOne(rows: map<RowId, Row>, id: RowId, data: Fields, k: string)
    requires id in rows && rows[id].data == Some(data) && IsNum(data, k) && k != SAMPLES
    ensures var avg := AverageDataOf(rows, [id]); IsNum(avg, k) && avg[k].n == data[k].n
  {
    assert Front([id]) == [];
    assert Parsed(rows, [id]) == [data];
    OneMap(data, k);
    assert k in AllKeys([data]) by {
      assert k in [data][0];
    }
  }

  lemma OneRowFound(w: World, source: Resolution, cutoff: int, s: RowId, unused: RowId, deleteFails: set<RowId>,
                    r: RowId)
    returns (ev: Event)
    requires source != OneHour && OnlyRow(w, source, cutoff, s) && Unused(w, {unused}) && Shielded(w, w.rows[s])
    ensures ev == Downsampled(source, cutoff, OneRow(s, NextBucket(w.rows[s]), unused, {}, deleteFails))
    ensures Does(w, ev, w.(rows := w.rows - ({s} - deleteFails)), r, 0)
  {
    var target, b := Coarser(source), NextBucket(w.rows[s]);
    var db := OneRow(s, b, unused, {}, deleteFails);
    ev := Downsampled(source, cutoff, db);
    OneRowEnabled(w, source, cutoff, s, db, unused);
    OneRowRemoves(w.rows, target, s, db);
    assert forall id <- db.newIds :: db.newIds[id] == b;
    assert Merges(w.rows, target, db).Keys == {} && MergedOrigins(w, target, db).Keys == {};
    Unchanged(w.rows - ({s} - deleteFails), {}, Merges(w.rows, target, db));
    Unchanged(w.origins, {}, MergedOrigins(w, target, db));
    MergesExactlyWhen(w, ev, r);
  }

  // ---- a failed delete puts a row into two aggregates -------------------------------------------

  const SAMPLE := Row("a", "cpu", 0, Raw, None)

  predicate IsMinute(row: Row) {
    IsAggregateFor(row, OneMinute, Bucket("a", "cpu", 0))
  }

  predicate IsFive(row: Row) {
    IsAggregateFor(row, FiveMinutes, Bucket("a", "cpu", 0))
  }

  function Fresh(): World {
    World(map[1 := SAMPLE], map[1 := SAMPLE], map[1 := {1}])
  }

  /** The sample, still stored, and its minute. */
  function Kept(minute: Row): World {
    World(map[1 := SAMPLE, 2 := minute], map[1 := SAMPLE], map[1 := {1}, 2 := {1}])
  }

  function Moved(five: Row): World {
    World(map[1 := SAMPLE, 3 := five], map[1 := SAMPLE], map[1 := {1}, 2 := {1}, 3 := {1}])
  }

  function Again(five: Row, minute: Row): World {
    World(map[3 := five, 4 := minute], map[1 := SAMPLE], map[1 := {1}, 2 := {1}, 3 := {1}, 4 := {1}])
  }

  function AtLast(five: Row): World {
    World(map[3 := five], map[1 := SAMPLE], map[1 := {1}, 2 := {1}, 3 := {1}, 4 := {1}])
  }

  lemma KeptDisplay(minute: Row)
    ensures MergedInto(Fresh(), 1, {1}, 2, minute) == Kept(minute)
  {
  }

  lemma MovedDisplay(minute: Row, five: Row)
    ensures MergedInto(Kept(minute), 2, {}, 3, five) == Moved(five)
  {
  }

  lemma AgainDisplay(minute: Row, five: Row)
    ensures MergedInto(Moved(five), 1, {}, 4, minute) == Again(five, minute)
    ensures Again(five, minute).rows - ({4} - {}) == AtLast(five).rows
  {
  }

  lemma SampleStored()
    ensures Does(EMPTY, Ingested(1, SAMPLE), Fresh(), 1, 0)
  {
  }

  lemma SampleMerged() returns (ev: Event, minute: Row)
    ensures ev.Downsampled? && ev.source == Raw && ev.cutoff == MINUTE
    ensures IsMinute(minute) && Does(Fresh(), ev, Kept(minute), 1, 1)
  {
    hide Does;
    ev, minute := OneRowMerges(Fresh(), Raw, MINUTE, 1, 2, {}, {1}, 1);
    KeptDisplay(minute);
  }

  /** The sample is found again, and its delete fails again. */
  lemma SampleFound(minute: Row, cutoff: int) returns (ev: Event)
    requires IsMinute(minute) && cutoff > 0
    ensures ev.Downsampled? && ev.source == Raw && ev.cutoff == cutoff
    ensures Does(Kept(minute), ev, Kept(minute), 1, 0)
  {
    hide Does;
    var w := Kept(minute);
    assert IsNextAggregate(SAMPLE, w.rows[2]);
    ev := OneRowFound(w, Raw, cutoff, 1, 3, {1}, 1);
    assert w.rows - ({1} - {1}) == w.rows;
  }

  lemma MinuteMoves(minute: Row) returns (ev: Event, five: Row)
    requires IsMinute(minute)
    ensures ev.Downsampled? && ev.source == OneMinute && ev.cutoff == MINUTE
    ensures IsFive(five) && Does(Kept(minute), ev, Moved(five), 1, 0)
  {
    hide Does;
    ev, five := OneRowMerges(Kept(minute), OneMinute, MINUTE, 2, 3, {}, {}, 1);
    MovedDisplay(minute, five);
  }

  lemma SampleMergedAgain(five: Row) returns (ev: Event, minute: Row)
    requires IsFive(five)
    ensures ev.Downsampled? && ev.source == Raw && ev.cutoff == 31 * MINUTE
    ensures IsMinute(minute) && Does(Moved(five), ev, Again(five, minute), 1, 1)
  {
    hide Does;
    ev, minute := OneRowMerges(Moved(five), Raw, 31 * MINUTE, 1, 4, {}, {}, 1);
    AgainDisplay(minute, five);
  }

  lemma MinuteDropped(five: Row, minute: Row) returns (ev: Event)
    requires IsFive(five) && IsMinute(minute)
    ensures ev.Downsampled? && ev.source == OneMinute && ev.cutoff == 6 * MINUTE
    ensures Does(Again(five, minute), ev, AtLast(five), 1, 0)
  {
    hide Does;
    var w := Again(five, minute);
    assert IsNextAggregate(minute, w.rows[3]);
    ev := OneRowFound(w, OneMinute, 6 * MINUTE, 4, 5, {}, 1);
    AgainDisplay(minute, five);
  }

  /** Six minutes in, the sample is merged and its delete fails. */
  lemma FirstPass() returns (items: seq<Item>, minute: Row)
    ensures IsMinute(minute) && Leads(items, Kept(minute), 1, 1) && LastPass(items) == Some(6 * MINUTE)
  {
    hide Does;
    hide Leads;
    NothingYet();
    SampleStored();
    items := AfterStored([], EMPTY, 1, 0, 1, SAMPLE, Fresh());
    var ev;
    ev, minute := SampleMerged();
    items := AfterFirstOnly(items, Fresh(), 1, 0, 6 * MINUTE, ev, Kept(minute), 1);
  }

  /** Four passes later the sample, found and not deleted each time, is still there. */
  lemma QuietPasses() returns (items: seq<Item>, minute: Row)
    ensures IsMinute(minute) && Leads(items, Kept(minute), 1, 1) && LastPass(items) == Some(26 * MINUTE)
  {
    hide Does;
    hide Leads;
    items, minute := FirstPass();
    var ev := SampleFound(minute, 6 * MINUTE);
    items := AfterFirstOnly(items, Kept(minute), 1, 1, 11 * MINUTE, ev, Kept(minute), 0);
    ev := SampleFound(minute, 11 * MINUTE);
    items := AfterFirstOnly(items, Kept(minute), 1, 1, 16 * MINUTE, ev, Kept(minute), 0);
    ev := SampleFound(minute, 16 * MINUTE);
    items := AfterFirstOnly(items, Kept(minute), 1, 1, 21 * MINUTE, ev, Kept(minute), 0);
    ev := SampleFound(minute, 21 * MINUTE);
    items := AfterFirstOnly(items, Kept(minute), 1, 1, 26 * MINUTE, ev, Kept(minute), 0);
  }

  /** After half an hour the minute moves on and leaves the sample exposed. */
  lemma MovingPass(before: seq<Item>, minute: Row) returns (items: seq<Item>, five: Row)
    requires IsMinute(minute) && Leads(before, Kept(minute), 1, 1) && LastPass(before) == Some(26 * MINUTE)
    ensures IsFive(five) && Leads(items, Moved(five), 1, 1) && LastPass(items) == Some(31 * MINUTE)
  {
    hide Does;
    hide Leads;
    var e1 := SampleFound(minute, 26 * MINUTE);
    var e2, row := MinuteMoves(minute);
    five := row;
    var e3 := Downsampled(FiveMinutes, -329 * MINUTE, IDLE);
    IdleCall(Moved(five), FiveMinutes, -329 * MINUTE, 1);
    var item := Pass(31 * MINUTE, e1.db, e2.db, IDLE);
    assert ItemEvents(item) == [e1, e2, e3];
    items := AfterPassItem(before, Kept(minute), 1, 1, item, e1, e2, e3, Kept(minute), Moved(five), Moved(five), 0);
  }

  /** The exposed sample goes into a second minute, which is dropped as already aggregated. */
  lemma RepeatingPass(before: seq<Item>, five: Row) returns (items: seq<Item>)
    requires IsFive(five) && Leads(before, Moved(five), 1, 1) && LastPass(before) == Some(31 * MINUTE)
    ensures Leads(items, AtLast(five), 1, 2)
  {
    hide Does;
    hide Leads;
    var e1, minute := SampleMergedAgain(five);
    var e2 := MinuteDropped(five, minute);
    var e3 := Downsampled(FiveMinutes, -324 * MINUTE, IDLE);
    IdleCall(AtLast(five), FiveMinutes, -324 * MINUTE, 1);
    var item := Pass(36 * MINUTE, e1.db, e2.db, IDLE);
    assert ItemEvents(item) == [e1, e2, e3];
    items := AfterPassItem(before, Moved(five), 1, 1, item, e1, e2, e3,
                           Again(five, minute), AtLast(five), AtLast(five), 1);
  }

  /** While its deletes fail, a row can go into two aggregates: seven passes, five minutes apart, are enough. */
  lemma FailedDeleteMergesTwice()
    ensures exists items: seq<Item>, s: RowId ::
              OnTicker(items) && ValidRun(EMPTY, EventsOf(items)) && MergeCount(EMPTY, EventsOf(items), s) == 2
  {
    var items, minute := QuietPasses();
    var five;
    items, five := MovingPass(items, minute);
    items := RepeatingPass(items, five);
  }

  // ---- a failed lookup inserts a second aggregate -----------------------------------------------

  function Doubled(minute: Row, second: Row): World {
    World(map[2 := minute, 3 := second], map[1 := SAMPLE], map[1 := {1}, 2 := {1}, 3 := {1}])
  }

  lemma MinuteDoubled(minute: Row) returns (ev: Event, second: Row)
    requires IsMinute(minute)
    ensures IsMinute(second)
    ensures ev.Downsampled? && ev.source == Raw && ev.cutoff == 6 * MINUTE
    ensures Does(Kept(minute), ev, Doubled(minute, second), 1, 1)
  {
    hide Does;
    ev, second := OneRowMerges(Kept(minute), Raw, 6 * MINUTE, 1, 3, {NextBucket(SAMPLE)}, {}, 1);
    DoubledDisplay(minute, second);
  }

  lemma DoubledDisplay(minute: Row, second: Row)
    ensures MergedInto(Kept(minute), 1, {}, 3, second) == Doubled(minute, second)
  {
  }

  /** A failed lookup and a successful insert leave two aggregates of one bucket. */
  lemma FailedLookupDuplicates()
    ensures exists items: seq<Item> ::
              OnTicker(items) && ValidRun(EMPTY, EventsOf(items)) && !Unique(Run(EMPTY, EventsOf(items)))
  {
    var items, minute := FirstPass();
    var ev, second := MinuteDoubled(minute);
    items := AfterFirstOnly(items, Kept(minute), 1, 1, 11 * MINUTE, ev, Doubled(minute, second), 1);
    var w := Doubled(minute, second);
    assert w.rows[2] == minute && w.rows[3] == second && SameBucket(w.rows[2], w.rows[3]);
  }

  // ---- an aggregate can miss samples of its bucket ----------------------------------------------

  function Cpu(v: real): Option<Fields> {
    Some(map["total" := Num(v)])
  }

  const EARLY := Row("a", "cpu", 0, Raw, Cpu(10.0))
  const LATE := Row("a", "cpu", 30_000, Raw, Cpu(30.0))

  /** Of samples 10 and 30 of one minute only an aggregate of 10 is left, and nothing to correct it. */
  ghost predicate EndsAtTen(items: seq<Item>) {
    && OnTicker(items) && ValidRun(EMPTY, EventsOf(items)) && !MissesNothing(EventsOf(items))
    && var w := Run(EMPTY, EventsOf(items));
    && w.raws == map[1 := EARLY, 2 := LATE] && w.rows.Keys == {3}
    && IsMinute(w.rows[3]) && HasNum(w.rows[3], "total") && w.rows[3].data.value["total"].n == 10.0
  }

  function Half(minute: Row): World {
    World(map[3 := minute], map[1 := EARLY, 2 := LATE], map[1 := {1}, 2 := {2}, 3 := {1}])
  }

  lemma HalfIsNotWhole(minute: Row)
    requires IsMinute(minute)
    ensures !AllWhole(Half(minute))
  {
    var w := Half(minute);
    assert w.rows[3] == minute && w.raws[2] == LATE && 2 in Samples(w, minute);
    assert !Whole(w, 3);
  }

  lemma HalfEndsAtTen(items: seq<Item>, minute: Row)
    requires Leads(items, Half(minute), 1, 1) && IsMinute(minute) && SameNumbers(EARLY, minute)
    ensures EndsAtTen(items)
  {
    assert HasNum(EARLY, "total") && EARLY.data.value["total"].n == 10.0;
    HalfIsNotWhole(minute);
    RunWholeness(EventsOf(items));
    assert !AlwaysWhole(EventsOf(items));
  }

  function OneEarly(): World {
    World(map[1 := EARLY], map[1 := EARLY], map[1 := {1}])
  }

  function Both(): World {
    World(map[1 := EARLY, 2 := LATE], map[1 := EARLY, 2 := LATE], map[1 := {1}, 2 := {2}])
  }

  function EarlyMerged(minute: Row): World {
    World(map[3 := minute], map[1 := EARLY], map[1 := {1}, 3 := {1}])
  }

  function LateLeft(minute: Row): World {
    World(map[2 := LATE, 3 := minute], map[1 := EARLY, 2 := LATE], map[1 := {1}, 2 := {2}, 3 := {1}])
  }

  lemma MoreDisplays(minute: Row)
    ensures MergedInto(OneEarly(), 1, {}, 3, minute) == EarlyMerged(minute)
    ensures MergedInto(Both(), 1, {}, 3, minute) == LateLeft(minute)
    ensures LateLeft(minute).rows - ({2} - {}) == Half(minute).rows
  {
  }

  lemma EarlyStored()
    ensures Does(EMPTY, Ingested(1, EARLY), OneEarly(), 1, 0)
  {
  }

  lemma LateStored()
    ensures Does(OneEarly(), Ingested(2, LATE), Both(), 1, 0)
  {
  }

  lemma LateStoredAfter(minute: Row)
    ensures Does(EarlyMerged(minute), Ingested(2, LATE), LateLeft(minute), 1, 0)
  {
    var w, w' := EarlyMerged(minute), LateLeft(minute);
    assert w.rows[2 := LATE] == w'.rows;
    assert w.raws[2 := LATE] == w'.raws && w.origins[2 := {2}] == w'.origins;
  }

  lemma EarlyIsMergedAlone() returns (ev: Event, minute: Row)
    ensures IsMinute(minute) && SameNumbers(EARLY, minute)
    ensures ev.Downsampled? && ev.source == Raw && ev.cutoff == MINUTE
    ensures Does(OneEarly(), ev, EarlyMerged(minute), 1, 1)
  {
    hide Does;
    ev, minute := OneRowMerges(OneEarly(), Raw, MINUTE, 1, 3, {}, {}, 1);
    MoreDisplays(minute);
  }

  lemma EarlyIsMergedFirst() returns (ev: Event, minute: Row)
    ensures IsMinute(minute) && SameNumbers(EARLY, minute)
    ensures ev.Downsampled? && ev.source == Raw && ev.cutoff == 15_000
    ensures Does(Both(), ev, LateLeft(minute), 1, 1)
  {
    hide Does;
    ev, minute := OneRowMerges(Both(), Raw, 15_000, 1, 3, {}, {}, 1);
    MoreDisplays(minute);
  }

  lemma LateIsDropped(minute: Row, cutoff: int) returns (ev: Event)
    requires IsMinute(minute) && cutoff > 30_000
    ensures ev.Downsampled? && ev.source == Raw && ev.cutoff == cutoff
    ensures Does(LateLeft(minute), ev, Half(minute), 1, 0)
  {
    hide Does;
    var w := LateLeft(minute);
    assert IsNextAggregate(LATE, w.rows[3]);
    ev := OneRowFound(w, Raw, cutoff, 2, 4, {}, 1);
    MoreDisplays(minute);
  }

  lemma BothStored() returns (items: seq<Item>)
    ensures Leads(items, Both(), 1, 0) && LastPass(items) == None
  {
    hide Does;
    hide Leads;
    NothingYet();
    EarlyStored();
    items := AfterStored([], EMPTY, 1, 0, 1, EARLY, OneEarly());
    LateStored();
    items := AfterStored(items, OneEarly(), 1, 0, 2, LATE, Both());
  }

  lemma DroppingPass(before: seq<Item>, minute: Row, now: int) returns (items: seq<Item>)
    requires IsMinute(minute) && now - 5 * MINUTE > 30_000
    requires Leads(before, LateLeft(minute), 1, 1) && LastPass(before) == Some(now - 5 * MINUTE)
    ensures Leads(items, Half(minute), 1, 1)
  {
    hide Does;
    hide Leads;
    var ev := LateIsDropped(minute, now - 5 * MINUTE);
    items := AfterFirstOnly(before, LateLeft(minute), 1, 1, now, ev, Half(minute), 0);
  }

  /** The second sample of the minute lies after the cutoff of the pass that merges the first. */
  lemma CutoffSplitsMinute() returns (items: seq<Item>)
    ensures EndsAtTen(items)
  {
    hide Does;
    hide Leads;
    items := BothStored();
    var ev, minute := EarlyIsMergedFirst();
    items := AfterFirstOnly(items, Both(), 1, 0, 315_000, ev, LateLeft(minute), 1);
    items := DroppingPass(items, minute, 615_000);
    HalfEndsAtTen(items, minute);
  }

  /** The second sample of the minute arrives after the pass that merged the first. */
  lemma LateSampleArrives() returns (items: seq<Item>)
    ensures EndsAtTen(items)
  {
    hide Does;
    hide Leads;
    NothingYet();
    EarlyStored();
    items := AfterStored([], EMPTY, 1, 0, 1, EARLY, OneEarly());
    var ev, minute := EarlyIsMergedAlone();
    items := AfterFirstOnly(items, OneEarly(), 1, 0, 6 * MINUTE, ev, EarlyMerged(minute), 1);
    LateStoredAfter(minute);
    items := AfterStored(items, EarlyMerged(minute), 1, 1, 2, LATE, LateLeft(minute));
    items := DroppingPass(items, minute, 11 * MINUTE);
    HalfEndsAtTen(items, minute);
  }

  // ---- without working deletes the rows alone do not tell ---------------------------------------

  const MIDNIGHT := Bucket("a", "cpu", 0)

  /** The query returns both samples and the first one's delete fails. */
  const BOTH_ROWS := Answers([1, 2], {}, {}, {1}, map[3 := MIDNIGHT])

  /** Both samples went into the minute. */
  function EarlyKept(minute: Row): World {
    World(map[1 := EARLY, 3 := minute], map[1 := EARLY, 2 := LATE], map[1 := {1}, 2 := {2}, 3 := {1, 2}])
  }

  /** And the minute into five. */
  function EarlyExposed(five: Row): World {
    World(map[1 := EARLY, 4 := five], map[1 := EARLY, 2 := LATE], map[1 := {1}, 2 := {2}, 3 := {1, 2}, 4 := {1, 2}])
  }

  lemma BothEnabled()
    ensures Enabled(Both(), Downsampled(Raw, MINUTE, BOTH_ROWS))
  {
    var rows := Both().rows;
    assert rows[1] == EARLY && rows[2] == LATE && BOTH_ROWS.newIds[3] == MIDNIGHT;
    assert BOTH_ROWS.batch[0] == 1 && BOTH_ROWS.batch[1] == 2;
    assert BOTH_ROWS.newIds.Keys == {3} && BOTH_ROWS.newIds.Values == {MIDNIGHT};
    assert BucketsOf(rows, [1, 2], OneMinute) == {MIDNIGHT};
  }

  lemma BothMembers()
    ensures Both().rows.Keys == {1, 2} && AllStored(Both().rows, [1, 2])
    ensures Members(Both().rows, [1, 2], OneMinute, MIDNIGHT) == [1, 2]
  {
    var rows := Both().rows;
    assert rows[1] == EARLY && rows[2] == LATE;
    assert Front([1, 2]) == [1] && Front([1]) == [];
    assert Members(rows, [1], OneMinute, MIDNIGHT) == [1];
  }

  lemma BothRemoved()
    ensures Removes(Both().rows, OneMinute, BOTH_ROWS) == {2}
    ensures AllStored(Both().rows, BOTH_ROWS.batch) && Merges(Both().rows, OneMinute, BOTH_ROWS).Keys == {3}
  {
    var rows := Both().rows;
    assert rows[1] == EARLY && rows[2] == LATE && BOTH_ROWS.newIds[3] == MIDNIGHT;
    assert [1, 2][0] == 1 && [1, 2][1] == 2;
    assert !HasAggregate(rows, OneMinute, MIDNIGHT);
  }

  lemma BothOrigins()
    ensures OriginsOf(Both().origins, [1, 2]) == {1, 2}
  {
    var origins := Both().origins;
    assert origins[1] == {1} && origins[2] == {2};
    assert [1, 2][0] == 1 && [1, 2][1] == 2;
    assert 1 in OriginsOf(origins, [1, 2]) && 2 in OriginsOf(origins, [1, 2]);
  }

  lemma EarlyKeptDisplay(minute: Row)
    ensures (Both().rows - {2})[3 := minute] == EarlyKept(minute).rows
    ensures Both().origins[3 := {1, 2}] == EarlyKept(minute).origins && Both().raws == EarlyKept(minute).raws
  {
  }

  lemma BothStep() returns (minute: Row)
    ensures AllStored(Both().rows, BOTH_ROWS.batch) && IsMinute(minute)
    ensures DownsampleStep(Both(), OneMinute, BOTH_ROWS) == EarlyKept(minute)
  {
    BothMembers();
    BothRemoved();
    BothOrigins();
    var w := Both();
    minute := AggregateRow(w.rows, OneMinute, BOTH_ROWS, MIDNIGHT);
    CreditOf(w, OneMinute, BOTH_ROWS, 3);
    OneEntry(w.rows, {2}, Merges(w.rows, OneMinute, BOTH_ROWS), 3, minute);
    OneEntry(w.origins, {}, MergedOrigins(w, OneMinute, BOTH_ROWS), 3, {1, 2});
    EarlyKeptDisplay(minute);
  }

  lemma BothMerged() returns (minute: Row)
    ensures IsMinute(minute) && Does(Both(), Downsampled(Raw, MINUTE, BOTH_ROWS), EarlyKept(minute), 1, 1)
  {
    BothEnabled();
    minute := BothStep();
    BothRemoved();
    assert Both().rows[1] == EARLY && BOTH_ROWS.batch[0] == 1;
    assert !HasAggregate(Both().rows, OneMinute, MIDNIGHT);
  }

  lemma EarlyFound(minute: Row, cutoff: int) returns (ev: Event)
    requires IsMinute(minute) && cutoff > 0
    ensures ev.Downsampled? && ev.source == Raw && ev.cutoff == cutoff
    ensures Does(EarlyKept(minute), ev, EarlyKept(minute), 1, 0)
  {
    hide Does;
    var w := EarlyKept(minute);
    assert IsNextAggregate(EARLY, w.rows[3]);
    ev := OneRowFound(w, Raw, cutoff, 1, 4, {1}, 1);
    assert w.rows - ({1} - {1}) == w.rows;
  }

  lemma EarlyExposedDisplay(minute: Row, five: Row)
    ensures MergedInto(EarlyKept(minute), 3, {}, 4, five) == EarlyExposed(five)
  {
  }

  lemma FullMinuteMoves(minute: Row) returns (ev: Event, five: Row)
    requires IsMinute(minute)
    ensures ev.Downsampled? && ev.source == OneMinute && ev.cutoff == MINUTE
    ensures IsFive(five) && Does(EarlyKept(minute), ev, EarlyExposed(five), 1, 0)
  {
    hide Does;
    ev, five := OneRowMerges(EarlyKept(minute), OneMinute, MINUTE, 3, 4, {}, {}, 1);
    EarlyExposedDisplay(minute, five);
  }

  /** Both samples are merged six minutes in, and the one that could not be deleted is found four more times. */
  lemma WaitingPasses() returns (items: seq<Item>, minute: Row)
    ensures IsMinute(minute) && Leads(items, EarlyKept(minute), 1, 1) && LastPass(items) == Some(26 * MINUTE)
  {
    hide Does;
    hide Leads;
    items := BothStored();
    minute := BothMerged();
    items := AfterFirstOnly(items, Both(), 1, 0, 6 * MINUTE, Downsampled(Raw, MINUTE, BOTH_ROWS), EarlyKept(minute), 1);
    var ev := EarlyFound(minute, 6 * MINUTE);
    items := AfterFirstOnly(items, EarlyKept(minute), 1, 1, 11 * MINUTE, ev, EarlyKept(minute), 0);
    ev := EarlyFound(minute, 11 * MINUTE);
    items := AfterFirstOnly(items, EarlyKept(minute), 1, 1, 16 * MINUTE, ev, EarlyKept(minute), 0);
    ev := EarlyFound(minute, 16 * MINUTE);
    items := AfterFirstOnly(items, EarlyKept(minute), 1, 1, 21 * MINUTE, ev, EarlyKept(minute), 0);
    ev := EarlyFound(minute, 21 * MINUTE);
    items := AfterFirstOnly(items, EarlyKept(minute), 1, 1, 26 * MINUTE, ev, EarlyKept(minute), 0);
  }

  lemma ExposingPass(before: seq<Item>, minute: Row) returns (items: seq<Item>, five: Row)
    requires IsMinute(minute) && Leads(before, EarlyKept(minute), 1, 1) && LastPass(before) == Some(26 * MINUTE)
    ensures IsFive(five) && Leads(items, EarlyExposed(five), 1, 1) && LastPass(items) == Some(31 * MINUTE)
  {
    hide Does;
    hide Leads;
    var e1 := EarlyFound(minute, 26 * MINUTE);
    var e2, row := FullMinuteMoves(minute);
    five := row;
    var e3 := Downsampled(FiveMinutes, -329 * MINUTE, IDLE);
    IdleCall(EarlyExposed(five), FiveMinutes, -329 * MINUTE, 1);
    var item := Pass(31 * MINUTE, e1.db, e2.db, IDLE);
    assert ItemEvents(item) == [e1, e2, e3];
    items := AfterPassItem(before, EarlyKept(minute), 1, 1, item, e1, e2, e3,
                           EarlyKept(minute), EarlyExposed(five), EarlyExposed(five), 0);
  }

  lemma ExposedIsWhole(five: Row)
    requires IsFive(five)
    ensures AllWhole(EarlyExposed(five))
  {
    var w := EarlyExposed(five);
    assert w.rows[4] == five && w.raws[1] == EARLY && w.raws[2] == LATE;
    assert Samples(w, five) == {1, 2} == w.origins[4];
  }

  function EarlyAlone(): Answers {
    OneRow(1, MIDNIGHT, 5, {}, {})
  }

  lemma AloneLeavesNothingOut(five: Row)
    requires IsFive(five)
    ensures Enabled(EarlyExposed(five), Downsampled(Raw, 31 * MINUTE, EarlyAlone()))
    ensures !LeavesRowOut(EarlyExposed(five), Downsampled(Raw, 31 * MINUTE, EarlyAlone()))
  {
    var w := EarlyExposed(five);
    assert w.rows[1] == EARLY && w.rows[4] == five && NextBucket(EARLY) == MIDNIGHT;
    OneRowEnabled(w, Raw, 31 * MINUTE, 1, EarlyAlone(), 5);
    forall i <- w.rows | Finer(w.rows[i].res, OneMinute) ensures i in EarlyAlone().batch {
      assert i == 1 && EarlyAlone().batch[0] == 1;
    }
  }

  lemma AloneMisses(five: Row)
    requires IsFive(five) && Enabled(EarlyExposed(five), Downsampled(Raw, 31 * MINUTE, EarlyAlone()))
    ensures Misses(EarlyExposed(five), Downsampled(Raw, 31 * MINUTE, EarlyAlone()))
  {
    var w, db := EarlyExposed(five), EarlyAlone();
    assert w.rows[1] == EARLY && w.rows[4] == five && w.raws[2] == LATE;
    assert db.newIds[5] == MIDNIGHT && MIDNIGHT in db.newIds.Values;
    assert !Held(w, db, 2) && 2 in w.origins[4];
    assert HoldsMore(w, OneMinute, db, MIDNIGHT, 4);
    assert InsertMisses(w, OneMinute, db, MIDNIGHT);
  }

  /** After these passes the aggregates account for all their samples, and the first call of the next pass takes
      every row of the bucket there is, and still inserts an aggregate that misses one. */
  ghost predicate MissesAllTheSame(items: seq<Item>, ev: Event) {
    && OnTicker(items) && ValidRun(EMPTY, EventsOf(items))
    && ev.Downsampled? && ev.source == Raw && LastPass(items) == Some(ev.cutoff)
    && var w := Run(EMPTY, EventsOf(items));
    && AllWhole(w) && Enabled(w, ev) && !LeavesRowOut(w, ev) && !AllWhole(Step(w, ev))
  }

  /** Of two samples merged together one cannot be deleted, their aggregate moves on, and what is left of the bucket
      is merged again without the other. */
  lemma RemnantIsMissed()
    ensures exists items: seq<Item>, ev: Event :: MissesAllTheSame(items, ev)
  {
    hide Enabled, LeavesRowOut, Misses, Sound, CoversAll, AllWhole, Step, EarlyKept, EarlyExposed, EarlyAlone;
    var items, minute := WaitingPasses();
    var five;
    items, five := ExposingPass(items, minute);
    var w, ev := EarlyExposed(five), Downsampled(Raw, 31 * MINUTE, EarlyAlone());
    RunsKeepCoverageAndHull(EventsOf(items));
    ExposedIsWhole(five);
    AloneLeavesNothingOut(five);
    AloneMisses(five);
    StepWholeness(w, ev);
    assert MissesAllTheSame(items, ev);
  }
}
