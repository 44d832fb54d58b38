/**
 The agent's file tailer (internal/agent/logs/file.go): bytes arrive in reads and poll ticks of any size, and
 complete lines go out. What a read or a stat returns is a parameter.
 */
module FileTailer {
  import opened Octets
  import opened Sequences
  import opened Wrappers

  const LF: Byte := 10
  const CR: Byte := 13

  // ---- lines, one byte at a time ----------------------------------------------------------------

  datatype Split = Split(lines: seq<Bytes>, rest: Bytes)

  /** The complete lines of b without their newlines, and what follows the last newline. */
  function Scan(b: Bytes): Split {
    if b == [] then Split([], [])
    else
      var s := Scan(Front(b));
      if Last(b) == LF then Split(s.lines + [s.rest], []) else Split(s.lines, s.rest + [Last(b)])
  }

  function Lines(b: Bytes): seq<Bytes> {
    Scan(b).lines
  }

  function Rest(b: Bytes): Bytes {
    Scan(b).rest
  }

  function Joined(lines: seq<Bytes>): Bytes {
    if lines == [] then [] else Joined(Front(lines)) + Last(lines) + [LF]
  }

  /** Cutting the bytes anywhere: the rest of the first part is the start of the second. */
  lemma {:induction false} ScanResumes(a: Bytes, b: Bytes)
    ensures Lines(a + b) == Lines(a) + Lines(Rest(a) + b)
    ensures Rest(a + b) == Rest(Rest(a) + b)
  {
    if b == [] {
      assert a + b == a && Rest(a) + b == Rest(a);
      RestHasNoNewline(a);
      NoNewline(Rest(a));
    } else {
      assert Front(a + b) == a + Front(b) && Front(Rest(a) + b) == Rest(a) + Front(b);
      ScanResumes(a, Front(b));
    }
  }

  lemma {:induction false} RestHasNoNewline(b: Bytes)
    ensures LF !in Rest(b)
  {
    if b != [] {
      RestHasNoNewline(Front(b));
    }
  }

  lemma {:induction false} NoNewline(b: Bytes)
    requires LF !in b
    ensures Scan(b) == Split([], b)
  {
    if b != [] {
      NoNewline(Front(b));
      assert Front(b) + [Last(b)] == b;
    }
  }

  lemma FirstLine(b: Bytes, i: nat)
    requires i < |b| && b[i] == LF && LF !in b[..i]
    ensures Lines(b) == [b[..i]] + Lines(b[i + 1..]) && Rest(b) == Rest(b[i + 1..])
  {
    var head := b[..i + 1];
    assert Front(head) == b[..i];
    NoNewline(b[..i]);
    assert Scan(head) == Split([b[..i]], []);
    ScanResumes(head, b[i + 1..]);
    assert head + b[i + 1..] == b && Rest(head) + b[i + 1..] == b[i + 1..];
  }

  /** The lines and the rest give the bytes back. */
  lemma {:induction false} ScanIsLossless(b: Bytes)
    ensures Joined(Lines(b)) + Rest(b) == b
    ensures LF !in Rest(b) && forall i :: 0 <= i < |Lines(b)| ==> LF !in Lines(b)[i]
  {
    if b != [] {
      ScanIsLossless(Front(b));
      RestHasNoNewline(Front(b));
      var s := Scan(Front(b));
      assert Front(b) + [Last(b)] == b;
      if Last(b) == LF {
        assert Front(s.lines + [s.rest]) == s.lines && Joined(s.lines + [s.rest]) + [] == Joined(s.lines + [s.rest]);
      } else {
        Reassociate(Joined(s.lines), s.rest, [Last(b)]);
      }
    }
  }

  /** And no other newline-free lines and rest do. */
  lemma {:induction false} ScanIsTheOnlySplit(lines: seq<Bytes>, rest: Bytes)
    requires LF !in rest && forall i :: 0 <= i < |lines| ==> LF !in lines[i]
    ensures Scan(Joined(lines) + rest) == Split(lines, rest)
  {
    if lines == [] {
      assert Joined(lines) + rest == rest;
      NoNewline(rest);
    } else {
      ScanIsTheOnlySplit(Front(lines), Last(lines));
      var closed := Joined(Front(lines)) + Last(lines) + [LF];
      assert Front(closed) == Joined(Front(lines)) + Last(lines);
      assert Scan(closed) == Split(lines, []) by {
        assert Front(lines) + [Last(lines)] == lines;
      }
      ScanResumes(closed, rest);
      NoNewline(rest);
      assert [] + rest == rest;
    }
  }

  // ---- messages ---------------------------------------------------------------------------------

  function TrimCR(b: Bytes): (line: Bytes)
    ensures b == line || b == line + [CR]
    ensures b == line ==> b == [] || Last(b) != CR
  {
    if b != [] && Last(b) == CR then Front(b) else b
  }

  function Shown(lines: seq<Bytes>): seq<Bytes> {
    if lines == [] then []
    else if TrimCR(Last(lines)) != [] then Shown(Front(lines)) + [TrimCR(Last(lines))]
    else Shown(Front(lines))
  }

  lemma {:induction false} ShownConcat(a: seq<Bytes>, b: seq<Bytes>)
    ensures Shown(a + b) == Shown(a) + Shown(b)
  {
    if b == [] {
      assert a + b == a && Shown(a) + [] == Shown(a);
    } else {
      assert Front(a + b) == a + Front(b) && Last(a + b) == Last(b);
      ShownConcat(a, Front(b));
      var line := [TrimCR(Last(b))];
      assert Shown(a) + (Shown(Front(b)) + line) == Shown(a) + Shown(Front(b)) + line;
    }
  }

  /** One round of the line loop: the next line moves from the pending bytes to the lines done. */
  lemma LineDone(done: seq<Bytes>, pending: Bytes, i: nat)
    requires i < |pending| && pending[i] == LF && LF !in pending[..i]
    ensures var more := done + [pending[..i]];
            && more + Lines(pending[i + 1..]) == done + Lines(pending) && Rest(pending[i + 1..]) == Rest(pending)
            && Shown(more) == Shown(done) + if TrimCR(pending[..i]) != [] then [TrimCR(pending[..i])] else []
  {
    FirstLine(pending, i);
    Reassociate(done, [pending[..i]], Lines(pending[i + 1..]));
    assert Front(done + [pending[..i]]) == done;
  }

  /** Each line is shown once, without its carriage return, or not at all when nothing else is in it. */
  lemma ShownOnce(line: Bytes)
    ensures Shown([line]) == if line == [] || line == [CR] then [] else [TrimCR(line)]
  {
    assert Front([line]) == [] && Last([line]) == line;
    assert Shown([]) == [] && [] + [TrimCR(line)] == [TrimCR(line)];
  }

  /** The messages of everything read from one open file. */
  function Messages(b: Bytes): seq<Bytes> {
    Shown(Lines(b))
  }

  /** The messages of one open file after another. */
  function AllMessages(epochs: seq<Bytes>): seq<Bytes> {
    if epochs == [] then [] else AllMessages(Front(epochs)) + Messages(Last(epochs))
  }

  lemma EpochGrows(epochs: seq<Bytes>, data: Bytes)
    requires epochs != []
    ensures var was := Last(epochs);
            var grown := epochs[|epochs| - 1 := was + data];
            && AllMessages(grown) == AllMessages(epochs) + Messages(Rest(was) + data)
            && Last(grown) == was + data && Rest(was + data) == Rest(Rest(was) + data)
  {
    var was := Last(epochs);
    var grown := epochs[|epochs| - 1 := was + data];
    assert Front(grown) == Front(epochs);
    ScanResumes(was, data);
    ShownConcat(Lines(was), Lines(Rest(was) + data));
    assert AllMessages(Front(epochs)) + (Messages(was) + Messages(Rest(was) + data))
        == AllMessages(Front(epochs)) + Messages(was) + Messages(Rest(was) + data);
  }

  // ---- reads ------------------------------------------------------------------------------------

  /** One Read call: some bytes, and whether it also returned an error (end of file included). */
  datatype Read = Read(data: Bytes, failed: bool)

  predicate EndsDrain(r: Read) {
    r.failed || r.data == []
  }

  function Concatenated(chunks: seq<Read>): Bytes {
    if chunks == [] then [] else Concatenated(Front(chunks)) + Last(chunks).data
  }

  /** Every byte a Read returned counts, also those that came with an error. */
  lemma {:induction false} ReadsJoin(a: seq<Read>, b: seq<Read>)
    ensures Concatenated(a + b) == Concatenated(a) + Concatenated(b)
    ensures forall r: Read :: Concatenated([r]) == r.data
  {
    forall r: Read ensures Concatenated([r]) == r.data {
      assert Front([r]) == [] && Last([r]) == r && Concatenated([]) == [];
      assert [] + r.data == r.data;
    }
    if b == [] {
      assert a + b == a;
    } else {
      assert Front(a + b) == a + Front(b) && Last(a + b) == Last(b);
      ReadsJoin(a, Front(b));
      Reassociate(Concatenated(a), Concatenated(Front(b)), Last(b).data);
    }
  }

  /** The reads of one tick: the last one, and only it, ends the loop. */
  predicate IsDrain(chunks: seq<Read>) {
    && chunks != [] && EndsDrain(Last(chunks))
    && forall i :: 0 <= i < |chunks| - 1 ==> !EndsDrain(chunks[i])
  }

  datatype FileInfo = FileInfo(inode: nat, size: nat)

  function IndexByte(b: Bytes, c: Byte): (i: int)
    ensures -1 <= i < |b|
    ensures if i < 0 then c !in b else b[i] == c && c !in b[..i]
  {
    if b == [] then -1
    else if b[0] == c then 0
    else
      var i := IndexByte(b[1..], c);
      assert b == [b[0]] + b[1..];
      if i < 0 then -1
      else
        assert b[..i + 1] == [b[0]] + b[1..][..i];
        i + 1
  }

  // ---- ticks ------------------------------------------------------------------------------------

  /** One poll tick: the stat of the path, whether it can be opened and what the opened file's stat says, and the
      reads. */
  datatype Tick = Tick(stat: Option<FileInfo>, found: Option<FileInfo>, openOk: bool, chunks: seq<Read>)

  /** What the tailer has last seen of the file it has open, and the bytes read from each open file. */
  datatype Tail = Tail(file: Option<FileInfo>, epochs: seq<Bytes>)

  function Reopened(s: Tail, found: Option<FileInfo>): Tail {
    if found.Some? then Tail(found, s.epochs + [[]]) else s
  }

  function AfterTick(s: Tail, t: Tick): (s': Tail)
    requires s.epochs != []
    ensures s'.epochs != []
  {
    if s.file.None? then Reopened(s, t.found)
    else if t.stat.None? then s
    else if s.file.value.inode != t.stat.value.inode || t.stat.value.size < s.file.value.size then
      if t.openOk then Reopened(s, t.found) else s.(file := None)
    else Tail(t.stat, s.epochs[|s.epochs| - 1 := Last(s.epochs) + Concatenated(t.chunks)])
  }

  function AfterTicks(s: Tail, ticks: seq<Tick>): (s': Tail)
    requires s.epochs != []
    ensures s'.epochs != []
  {
    if ticks == [] then s else AfterTick(AfterTicks(s, Front(ticks)), Last(ticks))
  }

  /** The tick starts a new file. */
  predicate Restarts(s: Tail, t: Tick)
    requires s.epochs != []
  {
    |AfterTick(s, t).epochs| > |s.epochs|
  }

  lemma {:induction false} TicksAppend(s: Tail, a: seq<Tick>, b: seq<Tick>)
    requires s.epochs != []
    ensures AfterTicks(s, a + b) == AfterTicks(AfterTicks(s, a), b)
  {
    if b == [] {
      assert a + b == a;
    } else {
      assert Front(a + b) == a + Front(b) && Last(a + b) == Last(b);
      TicksAppend(s, a, Front(b));
    }
  }

  lemma {:induction false} FailedStatsChangeNothing(s: Tail, gap: seq<Tick>)
    requires s.epochs != [] && s.file.Some? && forall t <- gap :: t.stat.None?
    ensures AfterTicks(s, gap) == s
  {
    if gap != [] {
      assert Last(gap) in gap;
      FailedStatsChangeNothing(s, Front(gap));
    }
  }

  /** The path's file is another one, or shorter, than this stat of the open file said. */
  predicate Replaced(last: FileInfo, stat: Option<FileInfo>) {
    stat.Some? && (stat.value.inode != last.inode || stat.value.size < last.size)
  }

  /** After a tick that read on, or opened a file, and any number of failed stats, the next tick starts a new file if
      and only if its stat has another inode or a smaller size than that one saw, and the path can be opened. */
  lemma ComparesWithLastStat(s: Tail, before: seq<Tick>, t: Tick, gap: seq<Tick>, next: Tick, last: FileInfo)
    requires s.epochs != [] && (forall g <- gap :: g.stat.None?)
    requires var w := AfterTicks(s, before);
             if Restarts(w, t) then t.found == Some(last)
             else w.file.Some? && t.stat == Some(last) && !Replaced(w.file.value, t.stat)
    ensures Restarts(AfterTicks(s, before + [t] + gap), next)
            <==> Replaced(last, next.stat) && next.openOk && next.found.Some?
  {
    var w := AfterTicks(s, before);
    TicksAppend(s, before + [t], gap);
    TicksAppend(s, before, [t]);
    assert Front([t]) == [] && AfterTicks(w, [t]) == AfterTick(w, t);
    FailedStatsChangeNothing(AfterTick(w, t), gap);
  }

  /** The sizes never shrink, from this one on. */
  predicate Growing(size: nat, ticks: seq<Tick>)
    requires forall t <- ticks :: t.stat.Some?
  {
    ticks == [] ||
      (Growing(size, Front(ticks)) &&
       Last(ticks).stat.value.size >= if |ticks| == 1 then size else ticks[|ticks| - 2].stat.value.size)
  }

  predicate SameFile(info: FileInfo, ticks: seq<Tick>) {
    forall t <- ticks :: t.stat.Some? && t.stat.value.inode == info.inode && t.openOk && t.found.Some?
  }

  lemma {:induction false} EpochsOnlyGrow(s: Tail, ticks: seq<Tick>)
    requires s.epochs != []
    ensures |AfterTicks(s, ticks).epochs| >= |s.epochs|
  {
    if ticks != [] {
      EpochsOnlyGrow(s, Front(ticks));
    }
  }

  /** While the path keeps its inode the tailer reads on without starting over if and only if the sizes never shrink
      from one tick to the next, and then it has last seen the last of them. */
  lemma {:induction false} ReadsOnWhileGrowing(s: Tail, ticks: seq<Tick>)
    requires s.epochs != [] && s.file.Some? && SameFile(s.file.value, ticks)
    ensures |AfterTicks(s, ticks).epochs| == |s.epochs| <==> Growing(s.file.value.size, ticks)
    ensures Growing(s.file.value.size, ticks) && ticks != [] ==> AfterTicks(s, ticks).file == Last(ticks).stat
  {
    if ticks != [] {
      var before := Front(ticks);
      assert Last(ticks) in ticks && forall t <- before :: t in ticks;
      ReadsOnWhileGrowing(s, before);
      EpochsOnlyGrow(s, before);
      if before != [] {
        assert Last(before) in ticks && Last(before) == ticks[|ticks| - 2];
      }
    }
  }

  // ---- the tailer -------------------------------------------------------------------------------

  /** tailState, with every byte read so far by open file as history. */
  class TailState {
    var file: Option<FileInfo>
    var pending: Bytes
    var emitted: seq<Bytes>
    ghost var epochs: seq<Bytes>

    /** What came out is the messages of all that was read, and what is pending is the unfinished line. */
    ghost predicate Valid()
      reads this
    {
      epochs != [] && pending == Rest(Last(epochs)) && emitted == AllMessages(epochs)
    }

    constructor ()
      ensures Valid() && epochs == [[]] && file == None
    {
      file, pending, emitted, epochs := None, [], [], [[]];
      new;
      assert Front(epochs) == [];
    }

    method OpenAtEnd(found: Option<FileInfo>)
      requires Valid()
      modifies this`file, this`pending, this`epochs
      ensures Valid()
      ensures file == if found.Some? then found else old(file)
      ensures epochs == if found.Some? then old(epochs) + [[]] else old(epochs)
    {
      if found.None? {
        return;
      }
      file, pending := found, [];
      epochs := epochs + [[]];
      assert Front(epochs) == old(epochs);
    }

    method ReopenFromStart(openOk: bool, info: Option<FileInfo>)
      requires Valid()
      modifies this`file, this`pending, this`epochs
      ensures Valid()
      ensures file == if !openOk then None else if info.Some? then info else old(file)
      ensures epochs == if openOk && info.Some? then old(epochs) + [[]] else old(epochs)
    {
      if !openOk {
        file := None;
        return;
      }
      if info.None? {
        return;
      }
      file, pending := info, [];
      epochs := epochs + [[]];
      assert Front(epochs) == old(epochs);
    }

    method DrainNewLines(chunks: seq<Read>)
      requires Valid() && IsDrain(chunks)
      modifies this`pending, this`emitted, this`epochs
      ensures Valid()
      ensures epochs == old(epochs)[|old(epochs)| - 1 := Last(old(epochs)) + Concatenated(chunks)]
    {
      EpochGrows(epochs, Concatenated(chunks));
      ReadAll(chunks);
      EmitLines();
      epochs := epochs[|epochs| - 1 := Last(epochs) + Concatenated(chunks)];
    }

    /** The read loop. */
    method ReadAll(chunks: seq<Read>)
      requires IsDrain(chunks)
      modifies this`pending
      ensures pending == old(pending) + Concatenated(chunks)
    {
      var i, more := 0, true;
      while more
        invariant 0 <= i <= |chunks| && (more <==> i < |chunks|)
        invariant pending == old(pending) + Concatenated(chunks[..i])
        decreases |chunks| - i
      {
        assert Front(chunks[..i + 1]) == chunks[..i];
        var r := chunks[i];
        if |r.data| > 0 {
          pending := pending + r.data;
        }
        if r.failed || |r.data| == 0 {
          more := false;
        }
        i := i + 1;
      }
      assert chunks[..i] == chunks;
    }

    /** The line loop. */
    method EmitLines()
      modifies this`pending, this`emitted
      ensures pending == Rest(old(pending))
      ensures emitted == old(emitted) + Shown(Lines(old(pending)))
    {
      hide Scan, TrimCR;
      ghost var done: seq<Bytes> := [];
      var idx := IndexByte(pending, LF);
      assert done + Lines(pending) == Lines(old(pending));
      while idx >= 0
        invariant idx == IndexByte(pending, LF)
        invariant done + Lines(pending) == Lines(old(pending)) && Rest(pending) == Rest(old(pending))
        invariant emitted == old(emitted) + Shown(done)
        decreases |pending|
      {
        LineDone(done, pending, idx);
        done := done + [pending[..idx]];
        var line := TrimCR(pending[..idx]);
        pending := pending[idx + 1..];
        if |line| > 0 {
          emitted := emitted + [line];
        }
        idx := IndexByte(pending, LF);
      }
      NoNewline(pending);
      assert done + [] == done;
    }

    /** One poll tick of Run. */
    method Poll(stat: Option<FileInfo>, found: Option<FileInfo>, openOk: bool, chunks: seq<Read>)
      requires Valid() && IsDrain(chunks)
      modifies this
      ensures Valid()
      ensures var sameFile := old(file).Some? && stat.Some? && stat.value.inode == old(file.value.inode);
              var grows := sameFile && stat.value.size >= old(file.value.size);
              var restarts := if old(file).None? then found.Some?
                              else stat.Some? && !grows && openOk && found.Some?;
              epochs == if grows then old(epochs)[|old(epochs)| - 1 := Last(old(epochs)) + Concatenated(chunks)]
                        else if restarts then old(epochs) + [[]]
                        else old(epochs)
      ensures Tail(file, epochs) == AfterTick(old(Tail(file, epochs)), Tick(stat, found, openOk, chunks))
    {
      if file.None? {
        OpenAtEnd(found);
        return;
      }
      if stat.None? {
        return;
      }
      if file.value.inode != stat.value.inode {
        ReopenFromStart(openOk, found);
        return;
      }
      if stat.value.size < file.value.size {
        ReopenFromStart(openOk, found);
        return;
      }
      file := stat;
      DrainNewLines(chunks);
    }
  }

  /** What one tick after another emits, starting from a fresh open. */
  function Tailed(ticks: seq<Bytes>): (seq<Bytes>, Bytes) {
    if ticks == [] then ([], [])
    else
      var (emitted, pending) := Tailed(Front(ticks));
      (emitted + Messages(pending + Last(ticks)), Rest(pending + Last(ticks)))
  }

  function Flat(ticks: seq<Bytes>): Bytes {
    if ticks == [] then [] else Flat(Front(ticks)) + Last(ticks)
  }

  /** However the bytes are cut into ticks, the messages are those of the whole and the unfinished line is pending. */
  lemma {:induction false} TicksDoNotMatter(ticks: seq<Bytes>)
    ensures Tailed(ticks) == (Messages(Flat(ticks)), Rest(Flat(ticks)))
  {
    if ticks != [] {
      var before := Flat(Front(ticks));
      TicksDoNotMatter(Front(ticks));
      ScanResumes(before, Last(ticks));
      ShownConcat(Lines(before), Lines(Rest(before) + Last(ticks)));
    }
  }

  ghost predicate IsTrimmed(lines: seq<Bytes>, m: Bytes) {
    exists i :: 0 <= i < |lines| && TrimCR(lines[i]) == m
  }

  lemma TrimmedInFront(lines: seq<Bytes>, m: Bytes)
    requires lines != []
    ensures IsTrimmed(lines, m) <==> IsTrimmed(Front(lines), m) || TrimCR(Last(lines)) == m
  {
    hide TrimCR;
    if i :| 0 <= i < |Front(lines)| && TrimCR(Front(lines)[i]) == m {
      assert TrimCR(lines[i]) == m;
    }
    if i :| 0 <= i < |lines| && TrimCR(lines[i]) == m {
      assert i < |lines| - 1 ==> Front(lines)[i] == lines[i];
    }
  }

  /** A message is a nonempty complete line without the carriage return before its newline. */
  lemma {:induction false} MessageComesFromLine(lines: seq<Bytes>, m: Bytes)
    ensures m in Shown(lines) <==> m != [] && exists i :: 0 <= i < |lines| && TrimCR(lines[i]) == m
  {
    assert IsTrimmed(lines, m) <==> exists i :: 0 <= i < |lines| && TrimCR(lines[i]) == m;
    if lines != [] {
      MessageComesFromLine(Front(lines), m);
      assert IsTrimmed(Front(lines), m) <==> exists i :: 0 <= i < |Front(lines)| && TrimCR(Front(lines)[i]) == m;
      TrimmedInFront(lines, m);
      hide TrimCR, IsTrimmed;
    }
  }
}
