/**
 Cutting a message to a byte limit without splitting a character (truncateUTF8 in internal/hub/logs/service.go).
 Characters are those of section 4 of RFC 3629.
 */
module Utf8 {
  import opened Octets

  predicate IsTail(b: Byte) {
    0x80 <= b <= 0xBF
  }

  /** The four productions of section 4 of RFC 3629. */
  predicate IsRune(c: Bytes) {
    match |c|
    case 1 => c[0] <= 0x7F
    case 2 => 0xC2 <= c[0] <= 0xDF && IsTail(c[1])
    case 3 =>
      && IsTail(c[2])
      && ((c[0] == 0xE0 && 0xA0 <= c[1] <= 0xBF)
          || (0xE1 <= c[0] <= 0xEC && IsTail(c[1]))
          || (c[0] == 0xED && 0x80 <= c[1] <= 0x9F)
          || (0xEE <= c[0] <= 0xEF && IsTail(c[1])))
    case 4 =>
      && IsTail(c[2]) && IsTail(c[3])
      && ((c[0] == 0xF0 && 0x90 <= c[1] <= 0xBF)
          || (0xF1 <= c[0] <= 0xF3 && IsTail(c[1]))
          || (c[0] == 0xF4 && 0x80 <= c[1] <= 0x8F))
    case _ => false
  }

  // ---- characters and code points ---------------------------------------------------------------

  /** A code point: at most U+10FFFF, and not one of the surrogates. */
  predicate IsScalar(cp: int) {
    0 <= cp <= 0x10FFFF && !(0xD800 <= cp <= 0xDFFF)
  }

  /** The table in section 3 of RFC 3629, six bits to each following byte. */
  function Encoded(cp: int): Bytes
    requires IsScalar(cp)
  {
    if cp < 0x80 then [cp as Byte]
    else if cp < 0x800 then [(0xC0 + cp / 64) as Byte, (0x80 + cp % 64) as Byte]
    else if cp < 0x10000 then [(0xE0 + cp / 4096) as Byte, (0x80 + cp / 64 % 64) as Byte, (0x80 + cp % 64) as Byte]
    else
      [(0xF0 + cp / 262144) as Byte, (0x80 + cp / 4096 % 64) as Byte, (0x80 + cp / 64 % 64) as Byte,
       (0x80 + cp % 64) as Byte]
  }

  lemma EncodedIsRune(cp: int)
    requires IsScalar(cp)
    ensures IsRune(Encoded(cp))
  {
    if 0x800 <= cp < 0x10000 {
      assert cp / 4096 == 0 ==> cp / 64 >= 32;
      assert cp / 4096 == 13 ==> cp / 64 < 13 * 64 + 32;
    } else if cp >= 0x10000 {
      assert cp / 262144 == 0 ==> cp / 4096 >= 16;
      assert cp / 262144 == 4 ==> cp / 4096 < 4 * 64 + 16;
    }
  }

  function CodePoint(c: Bytes): int
    requires IsRune(c)
  {
    match |c|
    case 1 => c[0] as int
    case 2 => (c[0] as int - 0xC0) * 64 + (c[1] as int - 0x80)
    case 3 => (c[0] as int - 0xE0) * 4096 + (c[1] as int - 0x80) * 64 + (c[2] as int - 0x80)
    case _ =>
      (c[0] as int - 0xF0) * 262144 + (c[1] as int - 0x80) * 4096 + (c[2] as int - 0x80) * 64 + (c[3] as int - 0x80)
  }

  lemma SixBits(x: int, y: int)
    requires 0 <= y < 64
    ensures (x * 64 + y) / 64 == x && (x * 64 + y) % 64 == y
  {
  }

  lemma TwelveBits(x: int, y: int, z: int)
    requires 0 <= y < 64 && 0 <= z < 64
    ensures var cp := x * 4096 + y * 64 + z; cp / 4096 == x && cp / 64 % 64 == y && cp % 64 == z
  {
    SixBits(x * 64 + y, z);
    SixBits(x, y);
  }

  lemma EighteenBits(w: int, x: int, y: int, z: int)
    requires 0 <= x < 64 && 0 <= y < 64 && 0 <= z < 64
    ensures var cp := w * 262144 + x * 4096 + y * 64 + z;
            cp / 262144 == w && cp / 4096 % 64 == x && cp / 64 % 64 == y && cp % 64 == z
  {
    TwelveBits(w * 64 + x, y, z);
    SixBits(w, x);
  }

  lemma RuneIsScalar(c: Bytes)
    requires IsRune(c)
    ensures IsScalar(CodePoint(c))
    ensures if |c| == 1 then CodePoint(c) < 0x80
            else if |c| == 2 then 0x80 <= CodePoint(c) < 0x800
            else if |c| == 3 then 0x800 <= CodePoint(c) < 0x10000
            else |c| == 4 && 0x10000 <= CodePoint(c)
  {
  }

  lemma RuneIsEncoded(c: Bytes)
    requires IsRune(c)
    ensures IsScalar(CodePoint(c)) && Encoded(CodePoint(c)) == c
  {
    RuneIsScalar(c);
    if |c| == 2 {
      SixBits(c[0] as int - 0xC0, c[1] as int - 0x80);
    } else if |c| == 3 {
      TwelveBits(c[0] as int - 0xE0, c[1] as int - 0x80, c[2] as int - 0x80);
    } else if |c| == 4 {
      EighteenBits(c[0] as int - 0xF0, c[1] as int - 0x80, c[2] as int - 0x80, c[3] as int - 0x80);
    }
  }

  /** The productions admit exactly the encodings of code points. */
  lemma RunesAreCodePoints(c: Bytes)
    ensures IsRune(c) <==> exists cp: int :: IsScalar(cp) && Encoded(cp) == c
  {
    if IsRune(c) {
      RuneIsEncoded(c);
    }
    forall cp: int | IsScalar(cp) && Encoded(cp) == c ensures IsRune(c) {
      EncodedIsRune(cp);
    }
  }

  // ---- boundaries -------------------------------------------------------------------------------

  predicate RuneAt(s: Bytes, i: nat, j: nat) {
    i < j <= |s| && IsRune(s[i..j])
  }

  /** The first n bytes are whole characters. */
  ghost predicate Boundary(s: Bytes, n: nat)
    requires n <= |s|
  {
    n == 0 || exists m: nat :: m < n && RuneAt(s, m, n) && Boundary(s, m)
  }

  ghost predicate WellFormed(s: Bytes) {
    Boundary(s, |s|)
  }

  // ---- the decoder of the Go standard library ---------------------------------------------------

  /** Whether the rune is the error rune U+FFFD, and the number of bytes it takes. */
  datatype Decoded = Decoded(isError: bool, size: nat)

  const BROKEN := Decoded(true, 1)

  /** The length a first byte announces; 0 when no character starts with it. */
  function LeadSize(b: Byte): nat {
    if b <= 0x7F then 1
    else if 0xC2 <= b <= 0xDF then 2
    else if 0xE0 <= b <= 0xEF then 3
    else if 0xF0 <= b <= 0xF4 then 4
    else 0
  }

  function DecodeRune(s: Bytes): Decoded {
    if s == [] then Decoded(true, 0)
    else
      var n := LeadSize(s[0]);
      if n == 0 || |s| < n || !IsRune(s[..n]) then BROKEN
      else Decoded(s[..n] == [0xEF, 0xBF, 0xBD], n)
  }

  /** The last character start at or before i, or the position before lim when there is none. */
  function LastStart(s: Bytes, i: int, lim: nat): (start: int)
    requires lim - 1 <= i < |s|
    ensures lim - 1 <= start <= i
    ensures start >= lim ==> !IsTail(s[start])
    ensures forall j :: start < j <= i ==> IsTail(s[j])
    decreases i + 1 - lim
  {
    if i < lim || !IsTail(s[i]) then i else LastStart(s, i - 1, lim)
  }

  function DecodeLastRune(s: Bytes): Decoded {
    if s == [] then Decoded(true, 0)
    else if s[|s| - 1] <= 0x7F then Decoded(false, 1)
    else
      var found := LastStart(s, |s| - 2, if |s| < 4 then 0 else |s| - 4);
      var start := if found < 0 then 0 else found;
      var d := DecodeRune(s[start..]);
      if start + d.size != |s| then BROKEN else d
  }

  // ---- truncateUTF8 -----------------------------------------------------------------------------

  /** The bytes just before position n are one character. */
  ghost predicate EndsInRune(s: Bytes, n: nat) {
    exists i: nat :: RuneAt(s, i, n)
  }

  /** The longest prefix of at most maxBytes bytes that is empty or ends in a whole character has n bytes. */
  ghost predicate IsLongestCut(s: Bytes, maxBytes: nat, n: nat) {
    && n <= maxBytes && (n == 0 || EndsInRune(s, n))
    && forall m: nat :: n < m <= maxBytes ==> !EndsInRune(s, m)
  }

  lemma TakeOfTake(s: Bytes, n: nat, m: nat)
    requires m <= n <= |s|
    ensures s[..n][..m] == s[..m]
  {
  }

  /** For any bytes the result is the longest cut; for well-formed text, the longest well-formed prefix that fits,
      at most three bytes short of the limit. */
  method TruncateUTF8(s: Bytes, maxBytes: nat) returns (b: Bytes)
    ensures |s| <= maxBytes ==> b == s
    ensures |s| > maxBytes ==> b <= s && IsLongestCut(s, maxBytes, |b|)
    ensures |s| > maxBytes && WellFormed(s) ==>
              && WellFormed(b) && |b| >= maxBytes - 3
              && forall n: nat :: n <= maxBytes && WellFormed(s[..n]) ==> n <= |b|
  {
    if |s| <= maxBytes {
      return s;
    }
    b := s[..maxBytes];
    var trimming := true;
    while trimming && |b| > 0
      invariant |b| <= maxBytes && b == s[..|b|]
      invariant forall m: nat :: |b| < m <= maxBytes ==> !EndsInRune(s, m)
      invariant trimming || EndsInRune(s, |b|)
      decreases |b| + if trimming then 1 else 0
    {
      LastRuneIsWhole(s, |b|);
      var d := DecodeLastRune(b);
      if !d.isError || d.size > 1 {
        trimming := false;
      } else {
        TakeOfTake(s, |b|, |b| - 1);
        b := b[..|b| - 1];
      }
    }
    if WellFormed(s) {
      LongestCutOfWellFormed(s, maxBytes, |b|);
    }
  }

  // ---- the decoder sees whole characters --------------------------------------------------------

  predicate Accepts(d: Decoded) {
    !d.isError || d.size > 1
  }

  lemma RuneShape(s: Bytes, i: nat, j: nat)
    requires RuneAt(s, i, j)
    ensures 1 <= j - i <= 4 && LeadSize(s[i]) == j - i && !IsTail(s[i])
    ensures forall k :: i < k < j ==> IsTail(s[k])
  {
  }

  /** Go accepts the last rune of a prefix exactly when the prefix ends in a character of the RFC. */
  lemma LastRuneIsWhole(s: Bytes, n: nat)
    requires 0 < n <= |s|
    ensures Accepts(DecodeLastRune(s[..n])) <==> EndsInRune(s, n)
  {
    if s[n - 1] <= 0x7F {
      assert s[n - 1..n] == [s[n - 1]];
      assert RuneAt(s, n - 1, n);
    } else {
      if i: nat :| RuneAt(s, i, n) {
        WholeIsAccepted(s, i, n);
      }
      if Accepts(DecodeLastRune(s[..n])) {
        AcceptedIsWhole(s, n);
      }
    }
  }

  lemma WholeIsAccepted(s: Bytes, i: nat, n: nat)
    requires RuneAt(s, i, n)
    ensures Accepts(DecodeLastRune(s[..n]))
  {
    RuneShape(s, i, n);
    hide IsRune;
    if i < n - 1 {
      var found := LastStart(s[..n], n - 2, if n < 4 then 0 else n - 4);
      assert found == i;
      assert s[..n][i..] == s[i..n] && s[i..n][..n - i] == s[i..n];
    }
  }

  lemma AcceptedIsWhole(s: Bytes, n: nat)
    requires 0 < n <= |s| && s[n - 1] > 0x7F && Accepts(DecodeLastRune(s[..n]))
    ensures EndsInRune(s, n)
  {
    hide IsRune, LeadSize, LastStart;
    var found := LastStart(s[..n], n - 2, if n < 4 then 0 else n - 4);
    var start := if found < 0 then 0 else found;
    assert s[..n][start..] == s[start..n] && s[start..n][..n - start] == s[start..n];
    assert RuneAt(s, start, n);
  }

  // ---- well-formed text -------------------------------------------------------------------------

  lemma {:induction false} PrefixBoundary(s: Bytes, n: nat, j: nat)
    requires j <= n <= |s|
    ensures Boundary(s[..n], j) <==> Boundary(s, j)
    decreases j
  {
    forall m: nat | m < j ensures RuneAt(s[..n], m, j) == RuneAt(s, m, j) && Boundary(s[..n], m) == Boundary(s, m) {
      assert s[..n][m..j] == s[m..j];
      PrefixBoundary(s, n, m);
    }
  }

  /** Two characters of the same text that overlap are the same. */
  lemma RunesDoNotOverlap(s: Bytes, i: nat, j: nat, k: nat, l: nat)
    requires RuneAt(s, i, j) && RuneAt(s, k, l) && i < l && k < j
    ensures i == k && j == l
  {
  }

  /** In well-formed text a prefix that ends in a character is well formed itself. */
  lemma {:induction false} EndingInRuneIsBoundary(s: Bytes, b: nat, n: nat)
    requires n <= b <= |s| && Boundary(s, b) && EndsInRune(s, n)
    ensures Boundary(s, n)
    decreases b
  {
    if n < b {
      var m: nat :| m < b && RuneAt(s, m, b) && Boundary(s, m);
      var i: nat :| RuneAt(s, i, n);
      if m < n {
        RunesDoNotOverlap(s, i, n, m, b);
      } else {
        EndingInRuneIsBoundary(s, m, n);
      }
    }
  }

  /** Every position of well-formed text has a character boundary at most three bytes before it. */
  lemma {:induction false} BoundaryIsNear(s: Bytes, b: nat, n: nat) returns (j: nat)
    requires n <= b <= |s| && Boundary(s, b)
    ensures n - 3 <= j <= n && Boundary(s, j)
    decreases b
  {
    j := n;
    if n < b {
      var m: nat :| m < b && RuneAt(s, m, b) && Boundary(s, m);
      RuneShape(s, m, b);
      if m < n {
        j := m;
      } else {
        j := BoundaryIsNear(s, m, n);
      }
    }
  }

  lemma LongestCutOfWellFormed(s: Bytes, maxBytes: nat, cut: nat)
    requires WellFormed(s) && maxBytes < |s| && IsLongestCut(s, maxBytes, cut)
    ensures WellFormed(s[..cut]) && cut >= maxBytes - 3
    ensures forall n: nat :: n <= maxBytes && WellFormed(s[..n]) ==> n <= cut
  {
    if cut > 0 {
      EndingInRuneIsBoundary(s, |s|, cut);
    }
    PrefixBoundary(s, cut, cut);
    forall n: nat | n <= maxBytes && WellFormed(s[..n]) ensures n <= cut {
      PrefixBoundary(s, n, n);
      assert n > 0 ==> EndsInRune(s, n);
    }
    var j := BoundaryIsNear(s, |s|, maxBytes);
    assert j > 0 ==> EndsInRune(s, j);
  }
}
