/** What an average is: a total over a count, wherever its values come from and in whatever order. */
module DownsamplerMeans {
  import opened Sequences
  import opened Wrappers
  import opened DownsamplerModel

  // ---- totals add up ----------------------------------------------------------------------------

  lemma OneMap(data: Fields, k: string)
    ensures Sum([data], k) == if IsNum(data, k) then data[k].n else 0.0
    ensures Count([data], k) == if IsNum(data, k) then 1 else 0
  {
    assert Front([data]) == [] && Last([data]) == data;
    assert Sum([], k) == 0.0 && Count([], k) == 0;
  }

  /** The total of two lists of maps is the sum of their totals, and so is the number of maps that count. */
  lemma {:induction false} TotalsAdd(a: seq<Fields>, b: seq<Fields>, k: string)
    ensures Sum(a + b, k) == Sum(a, k) + Sum(b, k) && Count(a + b, k) == Count(a, k) + Count(b, k)
  {
    if b == [] {
      assert a + b == a;
    } else {
      assert Front(a + b) == a + Front(b) && Last(a + b) == Last(b);
      TotalsAdd(a, Front(b), k);
    }
  }

  /** The maps that hold a number for the field. */
  function Holders(maps: seq<Fields>, k: string): set<nat> {
    set i: nat | i < |maps| && IsNum(maps[i], k)
  }

  lemma {:induction false} CountIsHolders(maps: seq<Fields>, k: string)
    ensures Count(maps, k) == |Holders(maps, k)|
  {
    if maps == [] {
      assert Holders(maps, k) == {};
    } else {
      var n := |maps| - 1;
      CountIsHolders(Front(maps), k);
      assert Holders(maps, k) == Holders(Front(maps), k) + if IsNum(maps[n], k) then {n} else {};
    }
  }

  lemma SplitOut<T>(s: seq<T>, i: nat)
    requires i < |s|
    ensures s == s[..i] + [s[i]] + s[i + 1..] && multiset(s) == multiset(s[..i] + s[i + 1..]) + multiset{s[i]}
  {
    assert s == s[..i] + [s[i]] + s[i + 1..];
  }

  lemma SameRest<T>(a: seq<T>, b: seq<T>) returns (i: nat)
    requires multiset(a) == multiset(b) && a != []
    ensures i < |b| && b[i] == Last(a) && multiset(Front(a)) == multiset(b[..i] + b[i + 1..])
  {
    assert Last(a) in multiset(b);
    i :| 0 <= i < |b| && b[i] == Last(a);
    SplitOut(b, i);
    assert a == Front(a) + [Last(a)];
    assert multiset(Front(a)) == multiset(a) - multiset{Last(a)};
    assert multiset(b[..i] + b[i + 1..]) == multiset(b) - multiset{b[i]};
  }

  lemma TakeOut(maps: seq<Fields>, i: nat, k: string)
    requires i < |maps|
    ensures Sum(maps, k) == Sum(maps[..i] + maps[i + 1..], k) + Sum([maps[i]], k)
    ensures Count(maps, k) == Count(maps[..i] + maps[i + 1..], k) + Count([maps[i]], k)
  {
    SplitOut(maps, i);
    TotalsAdd(maps[..i] + [maps[i]], maps[i + 1..], k);
    TotalsAdd(maps[..i], [maps[i]], k);
    TotalsAdd(maps[..i], maps[i + 1..], k);
  }

  /** The order of the maps does not matter. */
  lemma {:induction false} TotalsIgnoreOrder(a: seq<Fields>, b: seq<Fields>, k: string)
    requires multiset(a) == multiset(b)
    ensures Sum(a, k) == Sum(b, k) && Count(a, k) == Count(b, k)
    decreases |a|
  {
    if a == [] {
      assert |multiset(b)| == |b|;
    } else {
      var i := SameRest(a, b);
      TakeOut(b, i, k);
      TotalsAdd(Front(a), [Last(a)], k);
      assert Front(a) + [Last(a)] == a;
      TotalsIgnoreOrder(Front(a), b[..i] + b[i + 1..], k);
    }
  }

  // ---- what an average says ---------------------------------------------------------------------

  /** Map i has this text for the field, and no later map has a text for it. */
  predicate LastTextAt(maps: seq<Fields>, k: string, s: string, i: nat) {
    && i < |maps| && k in maps[i] && maps[i][k] == Text(s)
    && forall j :: i < j < |maps| && k in maps[j] ==> !maps[j][k].Text?
  }

  ghost predicate IsLastText(maps: seq<Fields>, k: string, s: string) {
    exists i: nat :: LastTextAt(maps, k, s, i)
  }

  lemma {:induction false} LastTextIsLast(maps: seq<Fields>, k: string, s: string)
    ensures LastText(maps, k) == Some(s) <==> IsLastText(maps, k, s)
  {
    if maps != [] {
      var n := |maps| - 1;
      LastTextIsLast(Front(maps), k, s);
      if k in maps[n] && maps[n][k].Text? {
        assert LastTextAt(maps, k, maps[n][k].s, n);
      } else {
        forall i: nat ensures LastTextAt(maps, k, s, i) <==> LastTextAt(Front(maps), k, s, i) {
          assert i < n ==> Front(maps)[i] == maps[i];
        }
      }
    }
  }

  lemma {:induction false} KnownKey(maps: seq<Fields>, k: string)
    ensures Count(maps, k) > 0 || LastText(maps, k).Some? ==> k in AllKeys(maps)
  {
    if maps != [] {
      KnownKey(Front(maps), k);
      if k in AllKeys(Front(maps)) {
        var i :| 0 <= i < |maps| - 1 && k in Front(maps)[i];
        assert k in maps[i];
      }
      assert k in Last(maps) ==> k in maps[|maps| - 1];
    }
  }

  /** The field is a number exactly when something holds one, and then its product with their number is the total. */
  predicate IsMean(data: Fields, k: string, total: real, count: nat) {
    (IsNum(data, k) <==> count > 0) && (IsNum(data, k) ==> data[k].n * count as real == total)
  }

  /** A numeric field of an average, times the number of maps that hold a number for it, is their total; a field
      without any has the last text. */
  ghost predicate IsAverage(avg: Fields, maps: seq<Fields>, k: string) {
    && IsMean(avg, k, Sum(maps, k), |Holders(maps, k)|)
    && (!IsNum(avg, k) && k in avg ==> avg[k].Text? && IsLastText(maps, k, avg[k].s))
    && (k !in avg ==> forall s: string :: !IsLastText(maps, k, s))
  }

  lemma AverageIsMean(maps: seq<Fields>, k: string)
    ensures IsAverage(AverageOf(maps), maps, k)
  {
    CountIsHolders(maps, k);
    KnownKey(maps, k);
    forall s: string ensures LastText(maps, k) == Some(s) <==> IsLastText(maps, k, s) {
      LastTextIsLast(maps, k, s);
    }
  }

  /** Numeric fields of an average do not depend on the order of the maps. */
  lemma MeanIgnoresOrder(a: seq<Fields>, b: seq<Fields>, k: string)
    requires multiset(a) == multiset(b)
    ensures IsNum(AverageOf(a), k) <==> IsNum(AverageOf(b), k)
    ensures IsNum(AverageOf(a), k) ==> AverageOf(a)[k] == AverageOf(b)[k]
  {
    TotalsIgnoreOrder(a, b, k);
    KnownKey(a, k);
    KnownKey(b, k);
  }

  // ---- the average of stored rows ---------------------------------------------------------------

  predicate HasNumber(rows: map<RowId, Row>, id: RowId, k: string) {
    id in rows && rows[id].data.Some? && IsNum(rows[id].data.value, k)
  }

  /** The field's total over the rows that parse and hold a number for it, and how many do. */
  function RowTotal(rows: map<RowId, Row>, ids: seq<RowId>, k: string): real {
    if ids == [] then 0.0
    else (if HasNumber(rows, ids[0], k) then rows[ids[0]].data.value[k].n else 0.0) + RowTotal(rows, ids[1..], k)
  }

  function RowCount(rows: map<RowId, Row>, ids: seq<RowId>, k: string): nat {
    if ids == [] then 0 else (if HasNumber(rows, ids[0], k) then 1 else 0) + RowCount(rows, ids[1..], k)
  }

  lemma ParsedOne(rows: map<RowId, Row>, id: RowId)
    requires id in rows
    ensures AllStored(rows, [id]) && Parsed(rows, [id]) == if rows[id].data.Some? then [rows[id].data.value] else []
  {
    assert Front([id]) == [] && Last([id]) == id && Parsed(rows, []) == [];
    assert rows[id].data.Some? ==> [] + [rows[id].data.value] == [rows[id].data.value];
  }

  lemma {:induction false} ParsedJoins(rows: map<RowId, Row>, a: seq<RowId>, b: seq<RowId>)
    requires AllStored(rows, a) && AllStored(rows, b)
    ensures AllStored(rows, a + b) && Parsed(rows, a + b) == Parsed(rows, a) + Parsed(rows, b)
  {
    if b == [] {
      assert a + b == a;
    } else {
      assert Front(a + b) == a + Front(b) && Last(a + b) == Last(b);
      ParsedJoins(rows, a, Front(b));
    }
  }

  lemma {:induction false} ParsedTotals(rows: map<RowId, Row>, ids: seq<RowId>, k: string)
    requires AllStored(rows, ids)
    ensures Sum(Parsed(rows, ids), k) == RowTotal(rows, ids, k)
    ensures Count(Parsed(rows, ids), k) == RowCount(rows, ids, k)
  {
    if ids != [] {
      var id, rest := ids[0], ids[1..];
      assert ids == [id] + rest && AllStored(rows, [id]);
      ParsedTotals(rows, rest, k);
      ParsedOne(rows, id);
      ParsedJoins(rows, [id], rest);
      TotalsAdd(Parsed(rows, [id]), Parsed(rows, rest), k);
      if rows[id].data.Some? {
        OneMap(rows[id].data.value, k);
      }
    }
  }

  lemma AverageHasMean(maps: seq<Fields>, k: string)
    ensures IsMean(AverageOf(maps), k, Sum(maps, k), Count(maps, k))
  {
    CountIsHolders(maps, k);
    AverageIsMean(maps, k);
    hide IsMean, IsLastText;
  }

  lemma SampleCountAside(data: Fields, n: real, k: string, total: real, count: nat)
    requires k != SAMPLES && IsMean(data, k, total, count)
    ensures IsMean(data[SAMPLES := Num(n)], k, total, count)
  {
  }

  /** A field of an aggregate, the sample count aside, is the mean over the rows that hold a number for it; the
      sample count is the number of all rows, parsed or not. */
  lemma AggregateIsMean(rows: map<RowId, Row>, ids: seq<RowId>, k: string)
    requires AllStored(rows, ids)
    ensures "_samples" in AverageDataOf(rows, ids) && AverageDataOf(rows, ids)["_samples"] == Num(|ids| as real)
    ensures k != "_samples" ==> IsMean(AverageDataOf(rows, ids), k, RowTotal(rows, ids, k), RowCount(rows, ids, k))
  {
    if k != SAMPLES {
      hide IsMean, Sum, Count, RowTotal, RowCount, AverageOf, Parsed;
      ParsedTotals(rows, ids, k);
      AverageHasMean(Parsed(rows, ids), k);
      SampleCountAside(AverageOf(Parsed(rows, ids)), |ids| as real, k, RowTotal(rows, ids, k), RowCount(rows, ids, k));
    }
  }

  /** The rows of a bucket keep their order and number in the batch. */
  lemma {:induction false} MembersJoin(rows: map<RowId, Row>, a: seq<RowId>, b: seq<RowId>, target: Resolution,
                                       bucket: Bucket)
    requires AllStored(rows, a) && AllStored(rows, b)
    ensures AllStored(rows, a + b)
    ensures Members(rows, a + b, target, bucket) == Members(rows, a, target, bucket) + Members(rows, b, target, bucket)
  {
    if b == [] {
      assert a + b == a;
    } else {
      assert Front(a + b) == a + Front(b) && Last(a + b) == Last(b);
      MembersJoin(rows, a, Front(b), target, bucket);
    }
  }

  lemma MembersOfOne(rows: map<RowId, Row>, id: RowId, target: Resolution, bucket: Bucket)
    requires id in rows
    ensures AllStored(rows, [id])
    ensures Members(rows, [id], target, bucket) == if BucketOf(rows[id], target) == bucket then [id] else []
  {
    assert Front([id]) == [] && Last([id]) == id && Members(rows, [], target, bucket) == [];
  }

  // ---- what a call inserts ----------------------------------------------------------------------

  /** The field's total over the rows of a batch that fall into a bucket, how many of them hold a number for it, and
      how many there are. */
  function BucketTotal(rows: map<RowId, Row>, batch: seq<RowId>, target: Resolution, b: Bucket, k: string): real {
    if batch == [] then 0.0
    else
      (if HasNumber(rows, batch[0], k) && BucketOf(rows[batch[0]], target) == b then rows[batch[0]].data.value[k].n
       else 0.0) + BucketTotal(rows, batch[1..], target, b, k)
  }

  function BucketCount(rows: map<RowId, Row>, batch: seq<RowId>, target: Resolution, b: Bucket, k: string): nat {
    if batch == [] then 0
    else
      (if HasNumber(rows, batch[0], k) && BucketOf(rows[batch[0]], target) == b then 1 else 0)
      + BucketCount(rows, batch[1..], target, b, k)
  }

  function BucketSize(rows: map<RowId, Row>, batch: seq<RowId>, target: Resolution, b: Bucket): nat {
    if batch == [] then 0
    else
      (if batch[0] in rows && BucketOf(rows[batch[0]], target) == b then 1 else 0)
      + BucketSize(rows, batch[1..], target, b)
  }

  lemma {:induction false} MembersTotals(rows: map<RowId, Row>, batch: seq<RowId>, target: Resolution, b: Bucket,
                                         k: string)
    requires AllStored(rows, batch)
    ensures RowTotal(rows, Members(rows, batch, target, b), k) == BucketTotal(rows, batch, target, b, k)
    ensures RowCount(rows, Members(rows, batch, target, b), k) == BucketCount(rows, batch, target, b, k)
    ensures |Members(rows, batch, target, b)| == BucketSize(rows, batch, target, b)
  {
    hide HasNumber, BucketOf;
    if batch != [] {
      var id, rest := batch[0], batch[1..];
      assert batch == [id] + rest && AllStored(rows, [id]);
      MembersTotals(rows, rest, target, b, k);
      MembersOfOne(rows, id, target, b);
      MembersJoin(rows, [id], rest, target, b);
      var ids := Members(rows, rest, target, b);
      assert [] + ids == ids && ([id] + ids)[0] == id && ([id] + ids)[1..] == ids;
    }
  }

  /** The aggregate a call inserts holds, field by field, the mean over the rows of its bucket in the batch, and their
      number as its sample count. */
  lemma InsertIsMean(w: World, source: Resolution, cutoff: int, db: Answers, agg: RowId, k: string)
    requires Enabled(w, Downsampled(source, cutoff, db))
    requires agg in db.newIds && agg in Step(w, Downsampled(source, cutoff, db)).rows
    ensures var row, b := Step(w, Downsampled(source, cutoff, db)).rows[agg], db.newIds[agg];
            && row.data.Some? && "_samples" in row.data.value
            && row.data.value["_samples"] == Num(BucketSize(w.rows, db.batch, Coarser(source), b) as real)
            && (k != "_samples" ==>
                  IsMean(row.data.value, k, BucketTotal(w.rows, db.batch, Coarser(source), b, k),
                         BucketCount(w.rows, db.batch, Coarser(source), b, k)))
  {
    var target, b := Coarser(source), db.newIds[agg];
    hide AverageDataOf, IsMean, RowTotal, RowCount, BucketTotal, BucketCount, BucketSize;
    assert agg !in w.rows;
    MembersTotals(w.rows, db.batch, target, b, k);
    AggregateIsMean(w.rows, Members(w.rows, db.batch, target, b), k);
  }
}
