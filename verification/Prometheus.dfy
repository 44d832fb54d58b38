/**
 Sample lines of the metrics endpoint (internal/hub/api/prometheus.go) and a reader for them: the Prometheus
 text exposition format, version 0.0.4, restricted to what one sample line can contain.
 */
module Prometheus {
  import opened Sequences
  import opened Wrappers

  // ---- escaping ---------------------------------------------------------------------------------

  /** strings.ReplaceAll for a one-character pattern. */
  function ReplaceAll(s: string, c: char, with: string): string {
    if s == "" then "" else (if s[0] == c then with else [s[0]]) + ReplaceAll(s[1..], c, with)
  }

  function EscapeLabelValue(v: string): string {
    ReplaceAll(ReplaceAll(ReplaceAll(v, '\\', "\\\\"), '"', "\\\""), '\n', "\\n")
  }

  /** What the format asks for one character. */
  function EscapedChar(c: char): string {
    if c == '\\' then "\\\\" else if c == '"' then "\\\"" else if c == '\n' then "\\n" else [c]
  }

  function Escaped(v: string): string {
    if v == "" then "" else EscapedChar(v[0]) + Escaped(v[1..])
  }

  lemma {:induction false} ReplaceConcat(a: string, b: string, c: char, with: string)
    ensures ReplaceAll(a + b, c, with) == ReplaceAll(a, c, with) + ReplaceAll(b, c, with)
  {
    if a == "" {
      assert a + b == b;
    } else {
      assert (a + b)[1..] == a[1..] + b;
      ReplaceConcat(a[1..], b, c, with);
    }
  }

  lemma ReplaceChar(x: char, c: char, with: string)
    ensures ReplaceAll([x], c, with) == if x == c then with else [x]
  {
  }

  lemma ReplaceTwo(x: char, y: char, c: char, with: string)
    requires x != c && y != c
    ensures ReplaceAll([x, y], c, with) == [x, y]
  {
    assert [x, y][1..] == [y] && [y][1..] == "";
    assert ReplaceAll([y], c, with) == [y] && [x] + [y] == [x, y];
  }

  /** One character through the three passes: no later pass touches what an earlier one wrote. */
  lemma ThreePassesOnChar(x: char)
    ensures EscapeLabelValue([x]) == EscapedChar(x)
  {
    ReplaceChar(x, '\\', "\\\\");
    if x == '\\' {
      ReplaceTwo('\\', '\\', '"', "\\\"");
      ReplaceTwo('\\', '\\', '\n', "\\n");
    } else {
      ReplaceChar(x, '"', "\\\"");
      if x == '"' {
        ReplaceTwo('\\', '"', '\n', "\\n");
      } else {
        ReplaceChar(x, '\n', "\\n");
      }
    }
  }

  /** The three replacements in a row are the substitution character by character. */
  lemma {:induction false} EscapeIsSubstitution(v: string)
    ensures EscapeLabelValue(v) == Escaped(v)
  {
    if v != "" {
      assert v == [v[0]] + v[1..];
      var once := ReplaceAll([v[0]], '\\', "\\\\");
      var rest := ReplaceAll(v[1..], '\\', "\\\\");
      ReplaceConcat([v[0]], v[1..], '\\', "\\\\");
      ReplaceConcat(once, rest, '"', "\\\"");
      ReplaceConcat(ReplaceAll(once, '"', "\\\""), ReplaceAll(rest, '"', "\\\""), '\n', "\\n");
      ThreePassesOnChar(v[0]);
      EscapeIsSubstitution(v[1..]);
    }
  }

  // ---- reading a quoted value -------------------------------------------------------------------

  /** A value read from the front of a string, and the rest of the string. */
  datatype Parsed<T> = Parsed(value: T, rest: string)

  /** What a backslash and c stand for. */
  function Unescaped(c: char): Option<char> {
    if c == '\\' || c == '"' then Some(c) else if c == 'n' then Some('\n') else None
  }

  /** Everything up to the first quote that no backslash precedes; a raw newline is an error. */
  function ReadQuoted(s: string): (p: Option<Parsed<string>>)
    ensures p.Some? ==> |p.value.rest| < |s|
  {
    if s == "" || s[0] == '\n' then None
    else if s[0] == '"' then Some(Parsed("", s[1..]))
    else
      var escape := s[0] == '\\';
      var c := if !escape then Some(s[0]) else if |s| > 1 then Unescaped(s[1]) else None;
      var p := ReadQuoted(if escape && |s| > 1 then s[2..] else s[1..]);
      if c.None? || p.None? then None else Some(Parsed([c.value] + p.value.value, p.value.rest))
  }

  lemma ReadsOneChar(x: char, s: string)
    ensures var p := ReadQuoted(s);
            ReadQuoted(EscapedChar(x) + s) ==
              if p.Some? then Some(Parsed([x] + p.value.value, p.value.rest)) else None
  {
  }

  lemma EscapedCons(v: string, rest: string)
    requires v != ""
    ensures Escaped(v) + "\"" + rest == EscapedChar(v[0]) + (Escaped(v[1..]) + "\"" + rest)
    ensures [v[0]] + v[1..] == v
  {
    hide EscapedChar;
    var head, tail := EscapedChar(v[0]), Escaped(v[1..]);
    Reassociate(head, tail, "\"");
    Reassociate(head, tail + "\"", rest);
  }

  lemma {:induction false} SubstitutedReadsBack(v: string, rest: string)
    ensures ReadQuoted(Escaped(v) + "\"" + rest) == Some(Parsed(v, rest))
  {
    if v == "" {
      var s := Escaped(v) + "\"" + rest;
      assert s[0] == '"' && s[1..] == rest;
    } else {
      SubstitutedReadsBack(v[1..], rest);
      ReadsOneChar(v[0], Escaped(v[1..]) + "\"" + rest);
      EscapedCons(v, rest);
    }
  }

  /** An escaped value in quotes reads back as the value, and the quote that ends it is the one written after it:
      escaping loses nothing and leaves no raw newline and no bare quote. */
  lemma EscapedReadsBack(v: string, rest: string)
    ensures ReadQuoted(EscapeLabelValue(v) + "\"" + rest) == Some(Parsed(v, rest))
  {
    EscapeIsSubstitution(v);
    SubstitutedReadsBack(v, rest);
  }

  lemma EscapeIsInjective(v: string, w: string)
    requires EscapeLabelValue(v) == EscapeLabelValue(w)
    ensures v == w
  {
    EscapedReadsBack(v, "");
    EscapedReadsBack(w, "");
  }

  lemma {:induction false} EscapeHasNoNewline(v: string)
    ensures '\n' !in EscapeLabelValue(v)
  {
    EscapeIsSubstitution(v);
    if v != "" {
      EscapeHasNoNewline(v[1..]);
      EscapeIsSubstitution(v[1..]);
    }
  }

  // ---- sample lines -----------------------------------------------------------------------------

  /** One call of add: label names and values in turn, and the formatted number. */
  datatype Sample = Sample(labelPairs: seq<string>, number: string)

  datatype Label = Label(name: string, value: string)

  /** The pairs add writes; an odd last argument is ignored. */
  function Labels(labelPairs: seq<string>): seq<Label> {
    if |labelPairs| < 2 then [] else [Label(labelPairs[0], labelPairs[1])] + Labels(labelPairs[2..])
  }

  /** The i-th label has the arguments at 2i and 2i + 1 for its name and its value. */
  lemma {:induction false} LabelsAreArguments(labelPairs: seq<string>, i: nat)
    ensures |Labels(labelPairs)| == |labelPairs| / 2
    ensures i < |Labels(labelPairs)| ==> Labels(labelPairs)[i] == Label(labelPairs[2 * i], labelPairs[2 * i + 1])
  {
    if |labelPairs| >= 2 {
      LabelsAreArguments(labelPairs[2..], if i == 0 then 0 else i - 1);
    }
  }

  function LabelText(l: Label): string {
    l.name + "=\"" + EscapeLabelValue(l.value) + "\""
  }

  /** The labels in order, with a comma before each but the first of the line. */
  function LabelsText(labels: seq<Label>, first: bool): string {
    if labels == [] then ""
    else (if first then "" else ",") + (LabelText(labels[0]) + LabelsText(labels[1..], false))
  }

  function Line(name: string, s: Sample): string {
    if s.labelPairs == [] then name + " " + s.number + "\n"
    else name + "{" + LabelsText(Labels(s.labelPairs), true) + "} " + s.number + "\n"
  }

  function Lines(name: string, samples: seq<Sample>): string {
    if samples == [] then "" else Lines(name, Front(samples)) + Line(name, Last(samples))
  }

  class MetricFamily {
    const name: string
    var buf: string
    ghost var samples: seq<Sample>

    ghost predicate Valid()
      reads this
    {
      buf == Lines(name, samples)
    }

    constructor (name: string)
      ensures Valid() && this.name == name && samples == []
    {
      this.name, buf, samples := name, "", [];
    }

    method Add(number: string, labelPairs: seq<string>)
      requires Valid()
      modifies this
      ensures Valid() && samples == old(samples) + [Sample(labelPairs, number)]
      ensures buf == old(buf) + Line(name, Sample(labelPairs, number))
    {
      LinesAppend(name, samples, Sample(labelPairs, number));
      samples := samples + [Sample(labelPairs, number)];
      if |labelPairs| == 0 {
        buf := buf + name;
        buf := buf + " ";
        buf := buf + number;
        buf := buf + "\n";
        FourParts(old(buf), name, " ", number, "\n");
        return;
      }
      WriteLabels(labelPairs);
      buf := buf + "} ";
      buf := buf + number;
      buf := buf + "\n";
      SixParts(old(buf), name, "{", LabelsText(Labels(labelPairs), true), "} ", number, "\n");
    }

    method WriteLabels(labelPairs: seq<string>)
      modifies this`buf
      ensures buf == old(buf) + name + "{" + LabelsText(Labels(labelPairs), true)
    {
      buf := buf + name + "{";
      ghost var start, all := buf, LabelsText(Labels(labelPairs), true);
      var i := 0;
      assert labelPairs[0..] == labelPairs;
      while i + 1 < |labelPairs|
        invariant 0 <= i <= |labelPairs|
        invariant buf + LabelsText(Labels(labelPairs[i..]), i == 0) == start + all
      {
        ghost var before, l := buf, Label(labelPairs[i], labelPairs[i + 1]);
        assert labelPairs[i..][2..] == labelPairs[i + 2..];
        assert Labels(labelPairs[i..]) == [l] + Labels(labelPairs[i + 2..]);
        LabelsTextCons(l, Labels(labelPairs[i + 2..]), i == 0);
        if i > 0 {
          buf := buf + ",";
        }
        buf := buf + labelPairs[i];
        buf := buf + "=\"";
        buf := buf + EscapeLabelValue(labelPairs[i + 1]);
        buf := buf + "\"";
        Appended(before, if i == 0 then "" else ",", labelPairs[i], EscapeLabelValue(labelPairs[i + 1]),
                 LabelsText(Labels(labelPairs[i + 2..]), false));
        i := i + 2;
      }
      assert LabelsText([], i == 0) == "" && buf + "" == buf;
    }
  }

  lemma LinesAppend(name: string, samples: seq<Sample>, s: Sample)
    ensures Lines(name, samples + [s]) == Lines(name, samples) + Line(name, s)
  {
  }

  lemma FourParts(buf: string, a: string, b: string, c: string, d: string)
    ensures buf + a + b + c + d == buf + (a + b + c + d)
  {
  }

  lemma SixParts(buf: string, a: string, b: string, c: string, d: string, e: string, f: string)
    ensures buf + a + b + c + d + e + f == buf + (a + b + c + d + e + f)
  {
  }

  lemma LabelsTextCons(l: Label, labels: seq<Label>, first: bool)
    ensures LabelsText([l] + labels, first) == (if first then "" else ",") + (LabelText(l) + LabelsText(labels, false))
  {
  }

  lemma Appended(buf: string, comma: string, name: string, escaped: string, rest: string)
    ensures buf + (comma + ((name + "=\"" + escaped + "\"") + rest))
         == buf + comma + name + "=\"" + escaped + "\"" + rest
    ensures comma == "" ==> buf + comma == buf
  {
  }

  // ---- reading sample lines ---------------------------------------------------------------------

  predicate IsNameChar(c: char) {
    'a' <= c <= 'z' || 'A' <= c <= 'Z' || '0' <= c <= '9' || c == '_' || c == ':'
  }

  predicate IsName(s: string) {
    s != "" && forall i :: 0 <= i < |s| ==> IsNameChar(s[i])
  }

  predicate IsReadable(s: Sample) {
    '\n' !in s.number && forall i :: 0 <= i < |s.labelPairs| - 1 && i % 2 == 0 ==> IsName(s.labelPairs[i])
  }

  /** The longest prefix without a stop character. */
  function ReadUntil(s: string, stops: set<char>): (p: Parsed<string>)
    ensures |p.rest| <= |s|
  {
    if s == "" || s[0] in stops then Parsed("", s)
    else
      var p := ReadUntil(s[1..], stops);
      Parsed([s[0]] + p.value, p.rest)
  }

  lemma {:induction false} ReadUntilStop(a: string, rest: string, stops: set<char>)
    requires rest != "" && rest[0] in stops && forall i :: 0 <= i < |a| ==> a[i] !in stops
    ensures ReadUntil(a + rest, stops) == Parsed(a, rest)
  {
    if a == "" {
      assert a + rest == rest;
    } else {
      assert (a + rest)[1..] == a[1..] + rest && (a + rest)[0] == a[0];
      ReadUntilStop(a[1..], rest, stops);
      assert [a[0]] + a[1..] == a;
    }
  }

  function Expect(s: string, prefix: string): Option<string> {
    if prefix <= s then Some(s[|prefix|..]) else None
  }

  function ReadLabel(s: string): (p: Option<Parsed<Label>>)
    ensures p.Some? ==> |p.value.rest| < |s|
  {
    var name := ReadUntil(s, {'='});
    var s1 := Expect(name.rest, "=\"");
    if s1.None? then None
    else
      var value := ReadQuoted(s1.value);
      if value.None? then None else Some(Parsed(Label(name.value, value.value.value), value.value.rest))
  }

  /** The labels after the opening brace, through the closing one. */
  function ReadLabels(s: string, first: bool): (p: Option<Parsed<seq<Label>>>)
    ensures p.Some? ==> |p.value.rest| < |s|
    decreases |s|
  {
    if s != "" && s[0] == '}' then Some(Parsed([], s[1..]))
    else
      var s1 := if first then Some(s) else Expect(s, ",");
      var l := if s1.Some? then ReadLabel(s1.value) else None;
      if l.None? then None
      else
        var more := ReadLabels(l.value.rest, false);
        if more.None? then None
        else Some(Parsed([l.value.value] + more.value.value, more.value.rest))
  }

  datatype Read = Read(name: string, labels: seq<Label>, number: string)

  function ReadLine(s: string): (p: Option<Parsed<Read>>)
    ensures p.Some? ==> |p.value.rest| < |s|
  {
    var name := ReadUntil(s, {'{', ' '});
    if name.rest == "" then None
    else
      var labels := if name.rest[0] == '{' then ReadLabels(name.rest[1..], true) else Some(Parsed([], name.rest));
      if labels.None? then None
      else
        var number := ReadNumber(labels.value.rest);
        if number.None? then None
        else Some(Parsed(Read(name.value, labels.value.value, number.value.value), number.value.rest))
  }

  function ReadLines(s: string): Option<seq<Read>>
    decreases |s|
  {
    if s == "" then Some([])
    else
      var line := ReadLine(s);
      if line.None? then None
      else
        var more := ReadLines(line.value.rest);
        if more.None? then None else Some([line.value.value] + more.value)
  }

  lemma LabelParts(l: Label, later: string)
    ensures LabelText(l) + later == l.name + ("=\"" + (EscapeLabelValue(l.value) + "\"" + later))
    ensures forall value: string :: ("=\"" + value)[2..] == value
  {
  }

  /** One label, then whatever the rest reads as. */
  lemma LabelReadsBack(l: Label, later: string)
    requires IsName(l.name)
    ensures ReadLabel(LabelText(l) + later) == Some(Parsed(l, later))
    ensures LabelText(l) + later != "" && (LabelText(l) + later)[0] == l.name[0] != '}'
  {
    var value := EscapeLabelValue(l.value) + "\"" + later;
    LabelParts(l, later);
    assert forall i :: 0 <= i < |l.name| ==> IsNameChar(l.name[i]);
    ReadUntilStop(l.name, "=\"" + value, {'='});
    EscapedReadsBack(l.value, later);
  }

  lemma {:induction false} LabelsReadBack(labels: seq<Label>, first: bool, rest: string)
    requires forall i :: 0 <= i < |labels| ==> IsName(labels[i].name)
    ensures ReadLabels(LabelsText(labels, first) + ("}" + rest), first) == Some(Parsed(labels, rest))
  {
    if labels == [] {
      var s := LabelsText(labels, first) + ("}" + rest);
      assert s == "}" + rest && s[1..] == rest;
    } else {
      var later := LabelsText(labels[1..], false) + ("}" + rest);
      LabelsReadBack(labels[1..], false, rest);
      LabelReadsBack(labels[0], later);
      LabelsStep(labels[0], later, first);
      LabelsTextParts(labels, first, "}" + rest);
    }
  }

  lemma LabelsTextParts(labels: seq<Label>, first: bool, rest: string)
    requires labels != []
    ensures LabelsText(labels, first) + rest ==
            (if first then "" else ",") + (LabelText(labels[0]) + (LabelsText(labels[1..], false) + rest))
    ensures [labels[0]] + labels[1..] == labels
  {
    ThreeParts(if first then "" else ",", LabelText(labels[0]), LabelsText(labels[1..], false), rest);
  }

  lemma ThreeParts(a: string, b: string, c: string, rest: string)
    ensures a + (b + c) + rest == a + (b + (c + rest))
  {
  }

  lemma LabelsStep(l: Label, later: string, first: bool)
    requires ReadLabel(LabelText(l) + later) == Some(Parsed(l, later))
    requires LabelText(l) + later != "" && (LabelText(l) + later)[0] != '}'
    ensures var p := ReadLabels(later, false);
            ReadLabels((if first then "" else ",") + (LabelText(l) + later), first) ==
              if p.Some? then Some(Parsed([l] + p.value.value, p.value.rest)) else None
  {
    var s := LabelText(l) + later;
    assert "" + s == s && ("," + s)[1..] == s;
  }

  function ReadOf(name: string, s: Sample): Read {
    Read(name, Labels(s.labelPairs), s.number)
  }

  /** What was read is the family's name, the number, and the arguments in pairs as label names and values. */
  predicate IsReadOf(r: Read, name: string, s: Sample) {
    && r.name == name && r.number == s.number && |r.labels| == |s.labelPairs| / 2
    && forall i :: 0 <= i < |r.labels| ==>
         r.labels[i].name == s.labelPairs[2 * i] && r.labels[i].value == s.labelPairs[2 * i + 1]
  }

  lemma ReadOfIsRead(name: string, s: Sample)
    ensures IsReadOf(ReadOf(name, s), name, s)
  {
    LabelsAreArguments(s.labelPairs, 0);
    forall i | 0 <= i < |Labels(s.labelPairs)|
      ensures Labels(s.labelPairs)[i] == Label(s.labelPairs[2 * i], s.labelPairs[2 * i + 1])
    {
      LabelsAreArguments(s.labelPairs, i);
    }
  }

  lemma NamesAreNames(s: Sample)
    requires IsReadable(s)
    ensures forall i :: 0 <= i < |Labels(s.labelPairs)| ==> IsName(Labels(s.labelPairs)[i].name)
  {
    forall i | 0 <= i < |Labels(s.labelPairs)| ensures IsName(Labels(s.labelPairs)[i].name) {
      LabelsAreArguments(s.labelPairs, i);
      assert (2 * i) % 2 == 0;
    }
  }

  /** The number after the labels, to the end of the line. */
  function ReadNumber(s: string): (p: Option<Parsed<string>>)
    ensures p.Some? ==> |p.value.rest| < |s|
  {
    var s1 := Expect(s, " ");
    if s1.None? then None
    else
      var number := ReadUntil(s1.value, {'\n'});
      if number.rest == "" then None else Some(Parsed(number.value, number.rest[1..]))
  }

  function NumberText(number: string, rest: string): string {
    " " + (number + ("\n" + rest))
  }

  lemma NumberReadsBack(number: string, rest: string)
    requires '\n' !in number
    ensures ReadNumber(NumberText(number, rest)) == Some(Parsed(number, rest))
  {
    assert (" " + (number + ("\n" + rest)))[1..] == number + ("\n" + rest);
    ReadUntilStop(number, "\n" + rest, {'\n'});
    assert ("\n" + rest)[1..] == rest;
  }

  lemma LineParts(name: string, s: Sample, rest: string)
    ensures s.labelPairs == [] ==> Line(name, s) + rest == name + NumberText(s.number, rest)
    ensures s.labelPairs != [] ==>
              Line(name, s) + rest ==
              name + ("{" + (LabelsText(Labels(s.labelPairs), true) + ("}" + NumberText(s.number, rest))))
    ensures forall t: string :: ("{" + t)[1..] == t
  {
  }

  /** A line add wrote reads back as the family's name, the label pairs and the number. */
  lemma LineReadsBack(name: string, s: Sample, rest: string)
    requires IsName(name) && IsReadable(s)
    ensures ReadLine(Line(name, s) + rest) == Some(Parsed(ReadOf(name, s), rest))
    ensures IsReadOf(ReadOf(name, s), name, s)
  {
    ReadOfIsRead(name, s);
    NamesAreNames(s);
    hide IsReadOf, IsReadable;
    assert forall i :: 0 <= i < |name| ==> IsNameChar(name[i]);
    LineParts(name, s, rest);
    assert '\n' !in s.number;
    NumberReadsBack(s.number, rest);
    var tail := NumberText(s.number, rest);
    if s.labelPairs == [] {
      ReadUntilStop(name, tail, {'{', ' '});
    } else {
      var text := LabelsText(Labels(s.labelPairs), true) + ("}" + tail);
      ReadUntilStop(name, "{" + text, {'{', ' '});
      LabelsReadBack(Labels(s.labelPairs), true, tail);
    }
  }

  /** One read for each sample, in order. */
  predicate AreReadsOf(found: seq<Read>, name: string, samples: seq<Sample>) {
    |found| == |samples| && forall i :: 0 <= i < |found| ==> IsReadOf(found[i], name, samples[i])
  }

  lemma {:induction false} LinesCons(name: string, samples: seq<Sample>)
    requires samples != []
    ensures Lines(name, samples) == Line(name, samples[0]) + Lines(name, samples[1..])
  {
    hide Line;
    if |samples| == 1 {
      assert Front(samples) == [] && samples[1..] == [];
      assert "" + Line(name, samples[0]) == Line(name, samples[0]) + "";
    } else {
      var between, last := Front(samples)[1..], Last(samples);
      LinesCons(name, Front(samples));
      assert samples[1..] == between + [last];
      LinesAppend(name, between, last);
      Reassociate(Line(name, samples[0]), Lines(name, between), Line(name, last));
    }
  }

  /** The whole buffer of a family reads back as its samples, in order. */
  lemma {:induction false} BufferReadsBack(name: string, samples: seq<Sample>)
    requires IsName(name) && forall i :: 0 <= i < |samples| ==> IsReadable(samples[i])
    ensures var found := ReadLines(Lines(name, samples)); found.Some? && AreReadsOf(found.value, name, samples)
  {
    if samples != [] {
      LinesCons(name, samples);
      LineReadsBack(name, samples[0], Lines(name, samples[1..]));
      BufferReadsBack(name, samples[1..]);
      hide Lines, Line, IsReadOf, IsReadable;
      var more := ReadLines(Lines(name, samples[1..])).value;
      assert ReadLines(Lines(name, samples)) == Some([ReadOf(name, samples[0])] + more);
    }
  }
}
