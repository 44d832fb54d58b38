/**
 Keyset pagination of the log query (internal/hub/api/logs_routes.go). A row is identified by its
 timestamp in milliseconds and its id; the rows a request can see are the set that passes every filter
 other than the cursor. The reference answer is the whole set in descending order.
 */
module LogPaging {
  import opened Wrappers

  const DEFAULT_LIMIT: int := 100
  const MAX_LIMIT: int := 500
  const MIN_INT64: int := -0x8000_0000_0000_0000
  const MAX_INT64: int := 0x7fff_ffff_ffff_ffff

  datatype Pos = Pos(ts: int, id: string)

  // ---- order ------------------------------------------------------------------------------------

  predicate LexLess(a: string, b: string) {
    if b == [] then false
    else if a == [] then true
    else a[0] < b[0] || (a[0] == b[0] && LexLess(a[1..], b[1..]))
  }

  predicate Less(a: Pos, b: Pos) {
    a.ts < b.ts || (a.ts == b.ts && LexLess(a.id, b.id))
  }

  lemma {:induction false} LexTotal(a: string, b: string)
    ensures a == b || LexLess(a, b) || LexLess(b, a)
    ensures !(LexLess(a, b) && LexLess(b, a)) && !LexLess(a, a)
  {
    if a != [] {
      LexTotal(a[1..], a[1..]);
      if b != [] {
        LexTotal(a[1..], b[1..]);
        assert a == [a[0]] + a[1..] && b == [b[0]] + b[1..];
      }
    }
  }

  lemma {:induction false} LexTransitive(a: string, b: string, c: string)
    requires LexLess(a, b) && LexLess(b, c)
    ensures LexLess(a, c)
  {
    if a != [] && a[0] == b[0] && b[0] == c[0] {
      LexTransitive(a[1..], b[1..], c[1..]);
    }
  }

  lemma Total(a: Pos, b: Pos)
    ensures a == b || Less(a, b) || Less(b, a)
    ensures !(Less(a, b) && Less(b, a)) && !Less(a, a)
  {
    LexTotal(a.id, b.id);
    LexTotal(a.id, a.id);
  }

  lemma Transitive(a: Pos, b: Pos, c: Pos)
    requires Less(a, b) && Less(b, c)
    ensures Less(a, c)
  {
    if a.ts == b.ts == c.ts {
      LexTransitive(a.id, b.id, c.id);
    }
  }

  /** The first difference decides, and the shorter of two strings that do not differ is the smaller one. */
  predicate DiffersAt(a: string, b: string, k: nat) {
    k <= |a| && k < |b| && a[..k] == b[..k] && (k == |a| || a[k] < b[k])
  }

  lemma {:induction false} LexLessDiffers(a: string, b: string)
    ensures LexLess(a, b) <==> exists k: nat :: DiffersAt(a, b, k)
  {
    if a != [] && b != [] && a[0] == b[0] {
      LexLessDiffers(a[1..], b[1..]);
      assert a == [a[0]] + a[1..] && b == [b[0]] + b[1..];
      if k: nat :| DiffersAt(a[1..], b[1..], k) {
        assert a[..k + 1] == [a[0]] + a[1..][..k] && b[..k + 1] == [b[0]] + b[1..][..k];
        assert DiffersAt(a, b, k + 1);
      }
      if k: nat :| DiffersAt(a, b, k) {
        assert k > 0 && a[1..][..k - 1] == a[..k][1..] && b[1..][..k - 1] == b[..k][1..];
        assert DiffersAt(a[1..], b[1..], k - 1);
      }
    } else {
      assert LexLess(a, b) ==> DiffersAt(a, b, 0);
    }
  }

  // ---- the reference: everything, newest first --------------------------------------------------

  ghost predicate Descending(s: seq<Pos>) {
    forall i, j :: 0 <= i < j < |s| ==> Less(s[j], s[i])
  }

  /** s lists rows, newest first. */
  ghost predicate Lists(s: seq<Pos>, rows: set<Pos>) {
    |s| == |rows| && Descending(s) && forall r :: r in s <==> r in rows
  }

  lemma {:induction false} Newest(rows: set<Pos>) returns (newest: Pos)
    requires rows != {}
    ensures newest in rows && forall r <- rows :: r == newest || Less(r, newest)
    decreases |rows|
  {
    newest :| newest in rows;
    if rows != {newest} {
      var best := Newest(rows - {newest});
      Total(newest, best);
      if Less(newest, best) {
        newest := best;
      } else {
        forall r <- rows ensures r == newest || Less(r, newest) {
          if r != newest && r != best {
            Transitive(r, best, newest);
          }
        }
      }
    }
  }

  lemma {:induction false} ListExists(rows: set<Pos>) returns (s: seq<Pos>)
    ensures Lists(s, rows)
    decreases |rows|
  {
    if rows == {} {
      s := [];
    } else {
      var newest := Newest(rows);
      var rest := ListExists(rows - {newest});
      s := [newest] + rest;
      assert forall r <- rest :: Less(r, newest);
    }
  }

  lemma SomeList(rows: set<Pos>)
    ensures exists s :: Lists(s, rows)
  {
    var _ := ListExists(rows);
  }

  ghost function NewestFirst(rows: set<Pos>): (s: seq<Pos>)
    ensures Lists(s, rows)
  {
    SomeList(rows);
    var s :| Lists(s, rows);
    s
  }

  /** Descending sequences with the same elements are the same sequence. */
  lemma {:induction false} DescendingIsUnique(s: seq<Pos>, t: seq<Pos>)
    requires Descending(s) && Descending(t)
    requires forall r :: r in s <==> r in t
    ensures s == t
  {
    assert s == [] || s[0] in s;
    assert t == [] || t[0] in t;
    if s != [] && t != [] {
      HeadIsNewest(s, t[0]);
      HeadIsNewest(t, s[0]);
      Total(s[0], t[0]);
      forall r ensures r in s[1..] <==> r in t[1..] {
        TailMembers(s, r);
        TailMembers(t, r);
      }
      DescendingIsUnique(s[1..], t[1..]);
      assert s == [s[0]] + s[1..] && t == [t[0]] + t[1..];
    }
  }

  lemma HeadIsNewest(s: seq<Pos>, r: Pos)
    requires Descending(s) && r in s
    ensures r == s[0] || Less(r, s[0])
  {
  }

  lemma TailMembers(s: seq<Pos>, r: Pos)
    requires Descending(s) && s != []
    ensures r in s[1..] <==> r in s && r != s[0]
  {
    Total(s[0], s[0]);
    if r in s && r != s[0] {
      var i :| 0 <= i < |s| && s[i] == r;
      assert s[1..][i - 1] == r;
    }
    if r in s[1..] {
      var i :| 0 <= i < |s[1..]| && s[1..][i] == r;
      assert Less(s[i + 1], s[0]);
    }
  }

  // ---- one request ------------------------------------------------------------------------------

  ghost function Below(rows: set<Pos>, cursor: Option<Pos>): set<Pos> {
    set r <- rows | cursor.None? || Less(r, cursor.value)
  }

  function Min(a: int, b: int): int {
    if a < b then a else b
  }

  /** The newest rows below the cursor, at most limit of them. */
  ghost function Page(rows: set<Pos>, cursor: Option<Pos>, limit: nat): (page: seq<Pos>) {
    var all := NewestFirst(Below(rows, cursor));
    all[..Min(limit, |all|)]
  }

  /** limit is absent, or not a number, when limitParam is None. */
  function EffectiveLimit(limitParam: Option<int>): (limit: nat)
    ensures 1 <= limit <= 500
    ensures limitParam.Some? && 1 <= limitParam.value <= 500 ==> limit == limitParam.value
    ensures limitParam.Some? && limitParam.value > 500 ==> limit == 500
    ensures limitParam.None? || limitParam.value <= 0 ==> limit == 100
  {
    var limit := if limitParam.Some? && limitParam.value > 0 then limitParam.value else DEFAULT_LIMIT;
    if limit > MAX_LIMIT then MAX_LIMIT else limit
  }

  function CursorOf(before: string): Option<Pos> {
    if before == "" then None else ParseCursor(before)
  }

  ghost function NextBefore(page: seq<Pos>, limit: nat): Option<string>
    requires limit > 0
  {
    if |page| == limit then Some(FormatCursor(page[|page| - 1])) else None
  }

  // ---- the cursor -------------------------------------------------------------------------------

  function DigitChar(d: nat): (c: char)
    requires d < 10
    ensures '0' <= c <= '9' && c as int - '0' as int == d
  {
    '0' + d as char
  }

  function Digits(n: nat): (s: string)
    ensures s != "" && forall i :: 0 <= i < |s| ==> '0' <= s[i] <= '9'
  {
    if n < 10 then [DigitChar(n)] else Digits(n / 10) + [DigitChar(n % 10)]
  }

  function FormatInt(n: int): string {
    if n < 0 then "-" + Digits(-n) else Digits(n)
  }

  /** The value of a nonempty string of decimal digits. */
  function ParseDigits(s: string): Option<nat> {
    if s == "" || !('0' <= s[|s| - 1] <= '9') then None
    else
      var d := s[|s| - 1] as int - '0' as int;
      if |s| == 1 then Some(d)
      else
        var high := ParseDigits(s[..|s| - 1]);
        if high.None? then None else Some(10 * high.value + d)
  }

  /** strconv.ParseInt in base 10 and 64 bits. */
  function ParseInt(s: string): Option<int> {
    var negative := s != "" && s[0] == '-';
    var signed := s != "" && (s[0] == '-' || s[0] == '+');
    var digits := ParseDigits(if signed then s[1..] else s);
    if digits.None? then None
    else
      var magnitude: int := digits.value;
      var n := if negative then -magnitude else magnitude;
      if MIN_INT64 <= n <= MAX_INT64 then Some(n) else None
  }

  function LastIndex(s: string, c: char): (i: int)
    ensures -1 <= i < |s|
    ensures i >= 0 ==> s[i] == c
    ensures forall j :: i < j < |s| ==> s[j] != c
  {
    if s == "" then -1
    else if s[|s| - 1] == c then |s| - 1
    else LastIndex(s[..|s| - 1], c)
  }

  function FormatCursor(p: Pos): string {
    FormatInt(p.ts) + "_" + p.id
  }

  function ParseCursor(cursor: string): Option<Pos> {
    var idx := LastIndex(cursor, '_');
    if idx < 0 || idx == |cursor| - 1 then None
    else
      var ms := ParseInt(cursor[..idx]);
      if ms.None? then None else Some(Pos(ms.value, cursor[idx + 1..]))
  }

  predicate CursorSafe(p: Pos) {
    p.id != "" && '_' !in p.id
  }

  predicate IsInt64(n: int) {
    MIN_INT64 <= n <= MAX_INT64
  }

  lemma {:induction false} DigitsParse(n: nat)
    ensures ParseDigits(Digits(n)) == Some(n)
  {
    if n >= 10 {
      DigitsParse(n / 10);
      var s := Digits(n);
      assert s[..|s| - 1] == Digits(n / 10);
    }
  }

  lemma IntParses(n: int)
    requires IsInt64(n)
    ensures ParseInt(FormatInt(n)) == Some(n)
    ensures FormatInt(n) != "" && '_' !in FormatInt(n)
  {
    var magnitude := if n < 0 then -n else n;
    DigitsParse(magnitude);
    hide DigitChar, Digits, ParseDigits;
    SignedParses(n, Digits(magnitude));
  }

  lemma SignedParses(n: int, digits: string)
    requires IsInt64(n) && digits != "" && (forall i :: 0 <= i < |digits| ==> '0' <= digits[i] <= '9')
    requires ParseDigits(digits) == Some(if n < 0 then -n else n)
    ensures ParseInt(if n < 0 then "-" + digits else digits) == Some(n)
    ensures '_' !in (if n < 0 then "-" + digits else digits)
  {
    hide ParseDigits;
    if n < 0 {
      assert ("-" + digits)[0] == '-' && ("-" + digits)[1..] == digits;
    } else {
      assert digits[0] != '-' && digits[0] != '+';
    }
  }

  // ---- what counts as a cursor ------------------------------------------------------------------

  function DigitValue(c: char): int {
    c as int - '0' as int
  }

  predicate AreDigits(s: string) {
    s != "" && forall i :: 0 <= i < |s| ==> '0' <= s[i] <= '9'
  }

  function PowerOfTen(n: nat): nat {
    if n == 0 then 1 else 10 * PowerOfTen(n - 1)
  }

  /** The number the digits stand for, by the place of each. */
  function PlaceValue(s: string): int {
    if s == "" then 0 else DigitValue(s[0]) * PowerOfTen(|s| - 1) + PlaceValue(s[1..])
  }

  lemma {:induction false} OneMoreDigit(s: string, c: char)
    ensures PlaceValue(s + [c]) == 10 * PlaceValue(s) + DigitValue(c)
  {
    if s == "" {
      assert s + [c] == [c] && [c][1..] == "" && PowerOfTen(0) == 1;
    } else {
      assert (s + [c])[1..] == s[1..] + [c] && (s + [c])[0] == s[0];
      OneMoreDigit(s[1..], c);
      assert PowerOfTen(|s|) == 10 * PowerOfTen(|s| - 1);
    }
  }

  lemma {:induction false} DigitsByPlace(s: string)
    ensures ParseDigits(s).Some? <==> AreDigits(s)
    ensures AreDigits(s) ==> ParseDigits(s) == Some(PlaceValue(s))
  {
    if s != "" {
      var high, c := s[..|s| - 1], s[|s| - 1];
      assert s == high + [c];
      DigitsByPlace(high);
      OneMoreDigit(high, c);
      if high == "" {
        assert PlaceValue("") == 0;
      }
      assert high != "" && AreDigits(s) ==> AreDigits(high);
    }
  }

  /** A sign or none, then digits that stand for the number's magnitude. */
  predicate IsNumeral(t: string, sign: string, digits: string, n: int) {
    && t == sign + digits && AreDigits(digits)
    && ((sign == "-" && n == -PlaceValue(digits)) || ((sign == "" || sign == "+") && n == PlaceValue(digits)))
  }

  lemma SignIsApart(t: string, sign: string, digits: string, n: int)
    requires IsNumeral(t, sign, digits, n) && IsInt64(n)
    ensures ParseInt(t) == Some(n)
  {
    DigitsByPlace(digits);
    if sign == "" {
      assert t == digits && t[0] == digits[0];
    } else {
      assert t[0] == sign[0] && t[1..] == digits;
    }
  }

  lemma {:induction false} DigitsArePlain(n: nat)
    ensures AreDigits(Digits(n)) && (Digits(n)[0] == '0' ==> n == 0 && |Digits(n)| == 1)
  {
    if n >= 10 {
      DigitsArePlain(n / 10);
      assert Digits(n)[0] == Digits(n / 10)[0];
    }
  }

  /** A formatted number is its plain decimal numeral: a minus sign if it is negative, and no leading zero. */
  lemma FormatsPlainly(n: int)
    ensures exists digits ::
              && IsNumeral(FormatInt(n), if n < 0 then "-" else "", digits, n)
              && (digits[0] == '0' ==> digits == "0")
  {
    var magnitude := if n < 0 then -n else n;
    var digits := Digits(magnitude);
    DigitsParse(magnitude);
    DigitsByPlace(digits);
    DigitsArePlain(magnitude);
    assert "" + digits == digits;
    assert IsNumeral(FormatInt(n), if n < 0 then "-" else "", digits, n);
  }

  /** Exactly the numerals of 64-bit integers parse, and to the number they stand for. */
  lemma ParsesNumerals(t: string, n: int)
    ensures ParseInt(t) == Some(n) <==> IsInt64(n) && exists sign, digits :: IsNumeral(t, sign, digits, n)
  {
    if ParseInt(t) == Some(n) {
      var signed := t != "" && (t[0] == '-' || t[0] == '+');
      var digits := if signed then t[1..] else t;
      var sign := if signed then t[..1] else "";
      DigitsByPlace(digits);
      assert t == sign + digits;
      assert IsNumeral(t, sign, digits, n);
    }
    if IsInt64(n) {
      forall sign, digits | IsNumeral(t, sign, digits, n) ensures ParseInt(t) == Some(n) {
        SignIsApart(t, sign, digits, n);
      }
    }
  }

  /** A number, an underscore, and a nonempty id without one. */
  predicate IsCursor(s: string, t: string, p: Pos) {
    s == t + "_" + p.id && p.id != "" && '_' !in p.id && ParseInt(t) == Some(p.ts)
  }

  lemma ParsedIsCursor(s: string, p: Pos)
    requires ParseCursor(s) == Some(p)
    ensures IsCursor(s, s[..LastIndex(s, '_')], p)
  {
    hide ParseInt, LastIndex;
    var idx := LastIndex(s, '_');
    assert s == s[..idx] + "_" + s[idx + 1..];
    forall i | 0 <= i < |p.id| ensures p.id[i] != '_' {
      assert s[idx + 1 + i] == p.id[i];
    }
  }

  lemma CursorParses(s: string, t: string, p: Pos)
    requires IsCursor(s, t, p)
    ensures ParseCursor(s) == Some(p)
  {
    hide ParseInt, LastIndex;
    assert s[|t|] == '_' && s[..|t|] == t && s[|t| + 1..] == p.id;
    forall i | |t| < i < |s| ensures s[i] != '_' {
      assert s[i] == p.id[i - |t| - 1];
    }
  }

  /** A string is taken for a cursor if and only if it is a number, an underscore, and a nonempty id without one. */
  lemma CursorsHaveThisForm(s: string, p: Pos)
    ensures ParseCursor(s) == Some(p) <==> exists t :: IsCursor(s, t, p)
  {
    if ParseCursor(s) == Some(p) {
      ParsedIsCursor(s, p);
    }
    if t :| IsCursor(s, t, p) {
      CursorParses(s, t, p);
    }
  }

  /** A cursor parses back to the row it was built from exactly when the id is nonempty and has no underscore. */
  lemma CursorRoundTrips(p: Pos)
    requires IsInt64(p.ts)
    ensures ParseCursor(FormatCursor(p)) == Some(p) <==> CursorSafe(p)
  {
    IntParses(p.ts);
    var prefix, s := FormatInt(p.ts), FormatCursor(p);
    var idx := LastIndex(s, '_');
    assert s[|prefix|] == '_';
    assert s[|prefix| + 1..] == p.id;
    if CursorSafe(p) {
      assert idx == |prefix|;
      assert s[..idx] == prefix;
    } else if p.id != "" {
      var j :| 0 <= j < |p.id| && p.id[j] == '_';
      assert s[|prefix| + 1 + j] == '_';
      assert |s[idx + 1..]| < |p.id|;
    }
  }

  // ---- the handler ------------------------------------------------------------------------------

  /** The database query: filter on the cursor, sort by -ts,-id, take limit. */
  method FindLogs(ghost rows: set<Pos>, sorted: seq<Pos>, cursor: Option<Pos>, limit: nat) returns (records: seq<Pos>)
    requires sorted == NewestFirst(rows)
    ensures records == Page(rows, cursor, limit)
  {
    var k: nat := 0;
    while k < |sorted| && cursor.Some? && !Less(sorted[k], cursor.value)
      invariant NoneBelow(sorted, k, cursor)
    {
      k := k + 1;
    }
    var below := sorted[k..];
    forall r ensures r in below <==> r in Below(rows, cursor) {
      SuffixMembers(sorted, k, cursor, r);
    }
    DescendingIsUnique(below, NewestFirst(Below(rows, cursor)));
    records := below[..Min(limit, |below|)];
  }

  /** The first k rows are all at or above the cursor. */
  ghost predicate NoneBelow(sorted: seq<Pos>, k: nat, cursor: Option<Pos>) {
    k <= |sorted| && forall i :: 0 <= i < k ==> cursor.Some? && !Less(sorted[i], cursor.value)
  }

  lemma SuffixMembers(sorted: seq<Pos>, k: nat, cursor: Option<Pos>, r: Pos)
    requires Descending(sorted) && NoneBelow(sorted, k, cursor)
    requires k < |sorted| ==> cursor.None? || Less(sorted[k], cursor.value)
    ensures r in sorted[k..] <==> r in sorted && (cursor.None? || Less(r, cursor.value))
  {
    if r in sorted[k..] && cursor.Some? {
      var i :| k <= i < |sorted| && sorted[i] == r;
      if i > k {
        Transitive(r, sorted[k], cursor.value);
      }
    }
    if r in sorted && (cursor.None? || Less(r, cursor.value)) {
      var i :| 0 <= i < |sorted| && sorted[i] == r;
      assert sorted[k..][i - k] == r;
    }
  }

  method Entries(records: seq<Pos>) returns (entries: seq<Pos>)
    ensures entries == records
  {
    entries := [];
    for i := 0 to |records|
      invariant entries == records[..i]
    {
      entries := entries + [records[i]];
    }
  }

  method HandleLogsQuery(ghost rows: set<Pos>, sorted: seq<Pos>, limitParam: Option<int>, before: string)
    returns (entries: seq<Pos>, nextBefore: Option<string>)
    requires sorted == NewestFirst(rows)
    ensures var limit := EffectiveLimit(limitParam);
            && entries == Page(rows, CursorOf(before), limit)
            && nextBefore == NextBefore(entries, limit)
  {
    var limit := DEFAULT_LIMIT;
    if limitParam.Some? && limitParam.value > 0 {
      limit := limitParam.value;
    }
    if limit > MAX_LIMIT {
      limit := MAX_LIMIT;
    }
    var cursor := None;
    if before != "" {
      cursor := ParseCursor(before);
    }
    var records := FindLogs(rows, sorted, cursor, limit);
    entries := Entries(records);
    nextBefore := None;
    if |records| == limit {
      nextBefore := Some(FormatCursor(records[|records| - 1]));
    }
  }

  // ---- following next_before --------------------------------------------------------------------

  /** What a client gets by following next_before, when the i-th request finds the i-th of the given stores. */
  ghost function Follow(stores: seq<set<Pos>>, limit: nat, before: string): seq<seq<Pos>>
    requires limit > 0
  {
    if stores == [] then []
    else
      var page := Page(stores[0], CursorOf(before), limit);
      var next := NextBefore(page, limit);
      if next.Some? then [page] + Follow(stores[1..], limit, next.value) else [page]
  }

  /** The same walk with the rows themselves as cursors. */
  ghost function Walk(stores: seq<set<Pos>>, limit: nat, cursor: Option<Pos>): seq<seq<Pos>>
    requires limit > 0
  {
    if stores == [] then []
    else
      var page := Page(stores[0], cursor, limit);
      if |page| == limit then [page] + Walk(stores[1..], limit, Some(page[limit - 1])) else [page]
  }

  /** The walk has reached a page that offers no next one. */
  ghost predicate Finished(pages: seq<seq<Pos>>, limit: nat) {
    pages != [] && |pages[|pages| - 1]| < limit
  }

  ghost function Flatten(pages: seq<seq<Pos>>): seq<Pos> {
    if pages == [] then [] else pages[0] + Flatten(pages[1..])
  }

  ghost predicate Storable(stores: seq<set<Pos>>) {
    forall i :: 0 <= i < |stores| ==> forall r <- stores[i] :: CursorSafe(r) && IsInt64(r.ts)
  }

  lemma PageFacts(rows: set<Pos>, cursor: Option<Pos>, limit: nat)
    ensures var page := Page(rows, cursor, limit);
            && Descending(page) && |page| == Min(limit, |Below(rows, cursor)|)
            && (forall r <- page :: r in Below(rows, cursor))
            && (page != [] ==> forall r <- Below(rows, cursor) :: r in page || Less(r, page[|page| - 1]))
            && (|page| < limit ==> forall r <- Below(rows, cursor) :: r in page)
  {
    var all, page := NewestFirst(Below(rows, cursor)), Page(rows, cursor, limit);
    forall r <- Below(rows, cursor)
      ensures r in page || (|page| == limit && (page != [] ==> Less(r, page[|page| - 1])))
    {
      assert r in all;
      var i :| 0 <= i < |all| && all[i] == r;
      if i < |page| {
        assert page[i] == r;
      }
    }
    forall r <- page ensures r in Below(rows, cursor) {
      assert r in all;
    }
  }

  /** The rows that pass the cursor and come before r. */
  ghost function NewerThan(rows: set<Pos>, cursor: Option<Pos>, r: Pos): set<Pos> {
    set x <- rows |
      && (cursor.None? || x.ts < cursor.value.ts || (x.ts == cursor.value.ts && LexLess(x.id, cursor.value.id)))
      && (r.ts < x.ts || (r.ts == x.ts && LexLess(r.id, x.id)))
  }

  function Elements(s: seq<Pos>): set<Pos> {
    set x | x in s
  }

  lemma {:induction false} DistinctElements(s: seq<Pos>)
    requires forall i, j :: 0 <= i < j < |s| ==> s[i] != s[j]
    ensures |Elements(s)| == |s|
  {
    if s != [] {
      var n := |s| - 1;
      DistinctElements(s[..n]);
      assert s == s[..n] + [s[n]];
      assert Elements(s) == Elements(s[..n]) + {s[n]};
    }
  }

  lemma NewerAreBefore(rows: set<Pos>, cursor: Option<Pos>, i: nat)
    requires i < |NewestFirst(Below(rows, cursor))|
    ensures |NewerThan(rows, cursor, NewestFirst(Below(rows, cursor))[i])| == i
  {
    var all := NewestFirst(Below(rows, cursor));
    forall j, k | 0 <= j < k < |all| ensures all[j] != all[k] {
      Total(all[j], all[j]);
    }
    DistinctElements(all[..i]);
    forall x ensures x in NewerThan(rows, cursor, all[i]) <==> x in all[..i] {
      NewerIsBefore(rows, cursor, i, x);
    }
    assert NewerThan(rows, cursor, all[i]) == Elements(all[..i]);
  }

  lemma NewerIsBefore(rows: set<Pos>, cursor: Option<Pos>, i: nat, x: Pos)
    requires i < |NewestFirst(Below(rows, cursor))|
    ensures var all := NewestFirst(Below(rows, cursor));
            x in NewerThan(rows, cursor, all[i]) <==> x in all[..i]
  {
    var all := NewestFirst(Below(rows, cursor));
    if x in NewerThan(rows, cursor, all[i]) {
      assert x in all;
      var j :| 0 <= j < |all| && all[j] == x;
      Total(all[i], x);
    }
    if x in all[..i] {
      assert x in all;
    }
  }

  /** A row is on the page if and only if it is older than the cursor and fewer than limit such rows are newer, by
      time and then by id; and the page lists them newest first. */
  lemma PageHoldsNewest(rows: set<Pos>, cursor: Option<Pos>, limit: nat, r: Pos)
    ensures r in Page(rows, cursor, limit) <==>
            && r in rows && |NewerThan(rows, cursor, r)| < limit
            && (cursor.None? || r.ts < cursor.value.ts || (r.ts == cursor.value.ts && LexLess(r.id, cursor.value.id)))
    ensures var page := Page(rows, cursor, limit);
            forall i, j :: 0 <= i < j < |page| ==>
              page[j].ts < page[i].ts || (page[j].ts == page[i].ts && LexLess(page[j].id, page[i].id))
  {
    var all, page := NewestFirst(Below(rows, cursor)), Page(rows, cursor, limit);
    if r in page {
      var i :| 0 <= i < |page| && page[i] == r;
      assert all[i] == r && r in all;
      NewerAreBefore(rows, cursor, i);
    }
    if r in Below(rows, cursor) {
      assert r in all;
      var i :| 0 <= i < |all| && all[i] == r;
      NewerAreBefore(rows, cursor, i);
      assert i < |page| ==> page[i] == r;
    }
  }

  lemma PageLength(rows: set<Pos>, cursor: Option<Pos>, limit: nat)
    ensures |Page(rows, cursor, limit)| == Min(limit, |Below(rows, cursor)|)
  {
  }

  lemma CursorOfNext(p: Pos)
    requires CursorSafe(p) && IsInt64(p.ts)
    ensures CursorOf(FormatCursor(p)) == Some(p)
  {
    CursorRoundTrips(p);
    IntParses(p.ts);
  }

  lemma NextCursor(rows: set<Pos>, cursor: Option<Pos>, limit: nat) returns (next: string)
    requires limit > 0 && Storable([rows]) && |Page(rows, cursor, limit)| == limit
    ensures NextBefore(Page(rows, cursor, limit), limit) == Some(next)
    ensures CursorOf(next) == Some(Page(rows, cursor, limit)[limit - 1])
  {
    var last := Page(rows, cursor, limit)[limit - 1];
    PageFacts(rows, cursor, limit);
    assert [rows][0] == rows && last in Page(rows, cursor, limit) && last in rows;
    next := FormatCursor(last);
    CursorOfNext(last);
  }

  /** Through format and parse, the string cursors name exactly the rows they came from. */
  lemma {:induction false} FollowIsWalk(stores: seq<set<Pos>>, limit: nat, before: string, cursor: Option<Pos>)
    requires limit > 0 && Storable(stores) && CursorOf(before) == cursor
    ensures Follow(stores, limit, before) == Walk(stores, limit, cursor)
  {
    if stores != [] && |Page(stores[0], cursor, limit)| == limit {
      assert Storable([stores[0]]);
      var next := NextCursor(stores[0], cursor, limit);
      FollowIsWalk(stores[1..], limit, next, CursorOf(next));
    }
  }

  lemma FlattenCons(page: seq<Pos>, pages: seq<seq<Pos>>)
    ensures Flatten([page] + pages) == page + Flatten(pages)
    ensures pages == [] ==> [page] + pages == [page] && Flatten([page]) == page
  {
  }

  lemma DescendingJoin(page: seq<Pos>, rest: seq<Pos>, cursor: Option<Pos>)
    requires page != [] && Descending(page) && Descending(rest)
    requires forall r <- rest :: Less(r, page[|page| - 1])
    requires cursor.Some? ==> forall r <- page :: Less(r, cursor.value)
    ensures Descending(page + rest)
    ensures cursor.Some? ==> forall r <- page + rest :: Less(r, cursor.value)
  {
    var last := page[|page| - 1];
    forall r, p | r in rest && p in page ensures Less(r, p) {
      if p != last {
        Transitive(r, last, p);
      }
    }
    forall r <- page + rest ensures cursor.Some? ==> Less(r, cursor.value) {
      if r in rest && cursor.Some? {
        Transitive(r, last, cursor.value);
      }
    }
    var all := page + rest;
    forall i, j | 0 <= i < j < |all| ensures Less(all[j], all[i]) {
      if i < |page| && j >= |page| {
        assert all[i] in page && all[j] in rest;
      }
    }
  }

  lemma {:induction false} WalkDescends(stores: seq<set<Pos>>, limit: nat, cursor: Option<Pos>)
    requires limit > 0
    ensures var all := Flatten(Walk(stores, limit, cursor));
            Descending(all) && (cursor.Some? ==> forall r <- all :: Less(r, cursor.value))
  {
    if stores != [] {
      var page := Page(stores[0], cursor, limit);
      PageFacts(stores[0], cursor, limit);
      if |page| == limit {
        var rest := Walk(stores[1..], limit, Some(page[limit - 1]));
        WalkDescends(stores[1..], limit, Some(page[limit - 1]));
        FlattenCons(page, rest);
        DescendingJoin(page, Flatten(rest), cursor);
      } else {
        FlattenCons(page, []);
      }
    }
  }

  /** However the store changes between requests, the pages together are strictly descending: nothing repeats. */
  lemma NothingRepeats(stores: seq<set<Pos>>, limitParam: Option<int>)
    requires Storable(stores)
    ensures Descending(Flatten(Follow(stores, EffectiveLimit(limitParam), "")))
  {
    FollowIsWalk(stores, EffectiveLimit(limitParam), "", None);
    WalkDescends(stores, EffectiveLimit(limitParam), None);
  }

  lemma {:induction false} WalkFinds(stores: seq<set<Pos>>, limit: nat, cursor: Option<Pos>, r: Pos)
    requires limit > 0 && Finished(Walk(stores, limit, cursor), limit)
    requires forall i :: 0 <= i < |stores| ==> r in stores[i]
    requires cursor.None? || Less(r, cursor.value)
    ensures r in Flatten(Walk(stores, limit, cursor))
  {
    var page, pages := Page(stores[0], cursor, limit), Walk(stores, limit, cursor);
    PageFacts(stores[0], cursor, limit);
    assert r in Below(stores[0], cursor);
    if |page| == limit {
      var rest := Walk(stores[1..], limit, Some(page[limit - 1]));
      FlattenCons(page, rest);
      if r !in page {
        assert pages[|pages| - 1] == rest[|rest| - 1];
        WalkFinds(stores[1..], limit, Some(page[limit - 1]), r);
      }
    } else {
      FlattenCons(page, []);
    }
  }

  /** A finished walk has returned every row that was there at each of its requests. */
  lemma NothingStableIsMissed(stores: seq<set<Pos>>, limitParam: Option<int>, r: Pos)
    requires Storable(stores) && Finished(Follow(stores, EffectiveLimit(limitParam), ""), EffectiveLimit(limitParam))
    requires forall i :: 0 <= i < |stores| ==> r in stores[i]
    ensures r in Flatten(Follow(stores, EffectiveLimit(limitParam), ""))
  {
    FollowIsWalk(stores, EffectiveLimit(limitParam), "", None);
    WalkFinds(stores, EffectiveLimit(limitParam), None, r);
  }

  ghost function Repeat(rows: set<Pos>, n: nat): (stores: seq<set<Pos>>)
    ensures |stores| == n && forall i :: 0 <= i < n ==> stores[i] == rows
  {
    if n == 0 then [] else [rows] + Repeat(rows, n - 1)
  }

  lemma SplitAt(all: seq<Pos>, k: nat, rest: set<Pos>)
    requires Descending(all) && k <= |all|
    requires forall r :: r in all[k..] <==> r in rest
    ensures all == all[..k] + NewestFirst(rest) && |all| == k + |rest|
  {
    DescendingIsUnique(all[k..], NewestFirst(rest));
    assert all == all[..k] + all[k..];
  }

  lemma RestMembers(rows: set<Pos>, cursor: Option<Pos>, limit: nat, r: Pos)
    requires limit > 0 && |Page(rows, cursor, limit)| == limit
    ensures r in NewestFirst(Below(rows, cursor))[limit..]
            <==> r in Below(rows, Some(Page(rows, cursor, limit)[limit - 1]))
  {
    var all := NewestFirst(Below(rows, cursor));
    var last := all[limit - 1];
    forall i | 0 <= i < limit ensures !Less(all[i], last) {
      Total(all[i], last);
    }
    SuffixMembers(all, limit, Some(last), r);
    assert last in all;
    if Less(r, last) && cursor.Some? {
      Transitive(r, last, cursor.value);
    }
  }

  lemma RestAfterPage(rows: set<Pos>, cursor: Option<Pos>, limit: nat)
    requires limit > 0 && |Page(rows, cursor, limit)| == limit
    ensures var page := Page(rows, cursor, limit);
            && NewestFirst(Below(rows, cursor)) == page + NewestFirst(Below(rows, Some(page[limit - 1])))
            && |Below(rows, cursor)| == limit + |Below(rows, Some(page[limit - 1]))|
  {
    var all, last := NewestFirst(Below(rows, cursor)), Page(rows, cursor, limit)[limit - 1];
    forall r ensures r in all[limit..] <==> r in Below(rows, Some(last)) {
      RestMembers(rows, cursor, limit, r);
    }
    SplitAt(all, limit, Below(rows, Some(last)));
  }

  /** The number of full pages. */
  function FullPages(count: nat, limit: nat): nat
    requires limit > 0
  {
    if count < limit then 0 else 1 + FullPages(count - limit, limit)
  }

  lemma {:induction false} FullPagesIsQuotient(count: nat, limit: nat)
    requires limit > 0
    ensures FullPages(count, limit) == count / limit
  {
    if count < limit {
      QuotientIs(count, limit, 0, count);
    } else {
      FullPagesIsQuotient(count - limit, limit);
      var q, r := (count - limit) / limit, (count - limit) % limit;
      assert (q + 1) * limit == q * limit + limit;
      QuotientIs(count, limit, q + 1, r);
    }
  }

  lemma QuotientIs(n: nat, d: nat, q: nat, r: nat)
    requires d > 0 && n == q * d + r && r < d
    ensures n / d == q
  {
    var p, s := n / d, n % d;
    MultipleInRange(d, p - q, r - s);
  }

  /** A multiple of d strictly between -d and d is zero. */
  lemma MultipleInRange(d: int, k: int, m: int)
    requires d > 0 && k * d == m && -d < m < d
    ensures k == 0
  {
    assert k >= 1 ==> (k - 1) * d >= 0;
    assert k <= -1 ==> (-k - 1) * d >= 0;
  }

  lemma WalkRepeat(rows: set<Pos>, n: nat, limit: nat, cursor: Option<Pos>)
    requires limit > 0 && n > 0
    ensures var page := Page(rows, cursor, limit);
            Walk(Repeat(rows, n), limit, cursor) ==
              if |page| == limit then [page] + Walk(Repeat(rows, n - 1), limit, Some(page[limit - 1])) else [page]
  {
  }

  ghost predicate WalksThrough(rows: set<Pos>, n: nat, limit: nat, cursor: Option<Pos>)
    requires limit > 0
  {
    var pages := Walk(Repeat(rows, n), limit, cursor);
    && Finished(pages, limit) && Flatten(pages) == NewestFirst(Below(rows, cursor))
    && |pages| == FullPages(|Below(rows, cursor)|, limit) + 1
  }

  lemma WalksOn(rows: set<Pos>, n: nat, limit: nat, cursor: Option<Pos>)
    requires limit > 0 && n > 0 && |Page(rows, cursor, limit)| == limit
    requires WalksThrough(rows, n - 1, limit, Some(Page(rows, cursor, limit)[limit - 1]))
    ensures WalksThrough(rows, n, limit, cursor)
  {
    var page := Page(rows, cursor, limit);
    var rest := Walk(Repeat(rows, n - 1), limit, Some(page[limit - 1]));
    WalkRepeat(rows, n, limit, cursor);
    RestAfterPage(rows, cursor, limit);
    PageBefore(page, rest, limit);
  }

  lemma PageBefore(page: seq<Pos>, rest: seq<seq<Pos>>, limit: nat)
    requires Finished(rest, limit)
    ensures Finished([page] + rest, limit) && |[page] + rest| == |rest| + 1
    ensures Flatten([page] + rest) == page + Flatten(rest)
  {
  }

  lemma WalksLast(rows: set<Pos>, n: nat, limit: nat, cursor: Option<Pos>)
    requires limit > 0 && n > 0 && |Below(rows, cursor)| < limit
    ensures WalksThrough(rows, n, limit, cursor)
  {
  }

  lemma {:induction false} FixedStoreWalk(rows: set<Pos>, n: nat, limit: nat, cursor: Option<Pos>)
    requires limit > 0 && n > FullPages(|Below(rows, cursor)|, limit)
    ensures WalksThrough(rows, n, limit, cursor)
    decreases n
  {
    PageLength(rows, cursor, limit);
    hide WalksThrough, Page, Below, NewestFirst;
    if |Below(rows, cursor)| < limit {
      WalksLast(rows, n, limit, cursor);
    } else {
      RestAfterPage(rows, cursor, limit);
      FixedStoreWalk(rows, n - 1, limit, Some(Page(rows, cursor, limit)[limit - 1]));
      WalksOn(rows, n, limit, cursor);
    }
  }

  /** On a store that does not change, following next_before from the first page returns every matching row once,
      newest first, in floor(n / limit) + 1 requests. */
  lemma FollowReturnsEverything(rows: set<Pos>, n: nat, limitParam: Option<int>)
    requires Storable([rows]) && n > |rows| / EffectiveLimit(limitParam)
    ensures var limit := EffectiveLimit(limitParam);
            var pages := Follow(Repeat(rows, n), limit, "");
            Finished(pages, limit) && Flatten(pages) == NewestFirst(rows) && |pages| == |rows| / limit + 1
  {
    var limit := EffectiveLimit(limitParam);
    assert Below(rows, None) == rows;
    FullPagesIsQuotient(|rows|, limit);
    FixedStoreWalk(rows, n, limit, None);
    StorableRepeat(rows, n);
    FollowIsWalk(Repeat(rows, n), limit, "", None);
  }

  lemma StorableRepeat(rows: set<Pos>, n: nat)
    requires Storable([rows])
    ensures Storable(Repeat(rows, n))
  {
  }
}
