/**
 The bounded reader of append-only JSONL files, `_read_jsonl_tail`.
 `parse` stands for UTF-8 decoding followed by `json.loads`: it yields a record for a line
 that holds a JSON object and nothing otherwise.
 */
module JsonlTail {
  import opened Wrappers
  import Sequences

  newtype byte = b: int | 0 <= b < 256

  const NEWLINE: byte := 10
  const RETURN: byte := 13
  const CHUNK: nat := 64 * 1024
  const MAX_JSONL_LINE_BYTES: nat := 64 * 1024

  // ---- Bytes and lines ----

  /** Index of the first newline at or after `from`, or `|s|`. */
  function FindNewline(s: seq<byte>, from: nat): (i: nat)
    requires from <= |s|
    ensures from <= i <= |s|
    ensures forall k :: from <= k < i ==> s[k] != NEWLINE
    ensures i < |s| ==> s[i] == NEWLINE
    decreases |s| - from
  {
    if from == |s| || s[from] == NEWLINE then from else FindNewline(s, from + 1)
  }

  /** One past the last newline, or 0. */
  function AfterLastNewline(s: seq<byte>): (i: nat)
    ensures i <= |s|
    ensures forall k :: i <= k < |s| ==> s[k] != NEWLINE
    ensures i > 0 ==> s[i - 1] == NEWLINE
  {
    if s == [] then 0 else if s[|s| - 1] == NEWLINE then |s| else AfterLastNewline(s[..|s| - 1])
  }

  predicate EndsLine(s: seq<byte>) {
    s == [] || s[|s| - 1] == NEWLINE
  }

  predicate IsBreak(b: byte) {
    b == NEWLINE || b == RETURN
  }

  function FindBreak(s: seq<byte>, from: nat): (i: nat)
    requires from <= |s|
    ensures from <= i <= |s|
    ensures forall k :: from <= k < i ==> !IsBreak(s[k])
    ensures i < |s| ==> IsBreak(s[i])
    decreases |s| - from
  {
    if from == |s| || IsBreak(s[from]) then from else FindBreak(s, from + 1)
  }

  /** Width of the line break at `i`: a carriage return and newline count as one break. */
  function BreakWidth(s: seq<byte>, i: nat): nat
    requires i < |s|
  {
    if s[i] == RETURN && i + 1 < |s| && s[i + 1] == NEWLINE then 2 else 1
  }

  /** `bytes.splitlines()`. */
  function SplitLines(s: seq<byte>): seq<seq<byte>>
    decreases |s|
  {
    if s == [] then []
    else
      var i := FindBreak(s, 0);
      if i == |s| then [s] else [s[..i]] + SplitLines(s[i + BreakWidth(s, i)..])
  }

  /** A line the writer can produce: nonempty, without breaks, within the limit once terminated. */
  predicate WriterLine(line: seq<byte>, maxLine: nat) {
    line != [] && |line| < maxLine && forall k :: 0 <= k < |line| ==> !IsBreak(line[k])
  }

  /** Each line is one the writer can produce for its record. */
  ghost predicate Writes<R(!new)>(lines: seq<seq<byte>>, recs: seq<R>, maxLine: nat, parse: seq<byte> -> Option<R>) {
    && |lines| == |recs|
    && forall i :: 0 <= i < |lines| ==> WriterLine(lines[i], maxLine) && parse(lines[i]) == Some(recs[i])
  }

  /** What `_append_jsonl` puts on disk for these lines. */
  function Encode(lines: seq<seq<byte>>): seq<byte> {
    if lines == [] then [] else lines[0] + [NEWLINE] + Encode(lines[1..])
  }

  /** Lines that are nonempty, within the limit and parse to an object, in order. */
  function Parsed<R>(lines: seq<seq<byte>>, maxLine: nat, parse: seq<byte> -> Option<R>): seq<R> {
    if lines == [] then []
    else
      var front, line := lines[..|lines| - 1], lines[|lines| - 1];
      if line == [] || |line| > maxLine then Parsed(front, maxLine, parse)
      else match parse(line)
           case None => Parsed(front, maxLine, parse)
           case Some(r) => Parsed(front, maxLine, parse) + [r]
  }

  // ---- The reader ----

  function Offset(size: nat, maxBytes: nat): nat {
    if size > maxBytes then size - maxBytes else 0
  }

  /** Where the committed part of the window starts: after a first, possibly cut, line. */
  function Start(file: seq<byte>, maxBytes: nat): (s: nat)
    ensures s <= |file|
  {
    var offset := Offset(|file|, maxBytes);
    if offset == 0 then 0
    else
      var newline := FindNewline(file, offset);
      if newline == |file| then |file| else newline + 1
  }

  function Committed(file: seq<byte>, maxBytes: nat): seq<byte> {
    var rest := file[Start(file, maxBytes)..];
    rest[..AfterLastNewline(rest)]
  }

  function TailRecords<R>(file: seq<byte>, maxBytes: nat, maxLine: nat, parse: seq<byte> -> Option<R>): seq<R> {
    Parsed(SplitLines(Committed(file, maxBytes)), maxLine, parse)
  }

  /** The chunked read loop: everything from `offset` on. */
  method ReadWindow(file: seq<byte>, maxBytes: nat) returns (data: seq<byte>)
    ensures data == file[Offset(|file|, maxBytes)..]
  {
    var offset := Offset(|file|, maxBytes);
    data := [];
    while |data| < maxBytes
      invariant offset + |data| <= |file|
      invariant data == file[offset..offset + |data|]
      invariant |data| <= maxBytes
    {
      var want := if CHUNK < maxBytes - |data| then CHUNK else maxBytes - |data|;
      var left := |file| - offset - |data|;
      var n := if want < left then want else left;
      if n == 0 {
        break;
      }
      data := data + file[offset + |data|..offset + |data| + n];
    }
  }

  method ReadJsonlTail<R(!new)>(file: seq<byte>, maxBytes: nat, maxLine: nat, parse: seq<byte> -> Option<R>)
      returns (records: seq<R>)
    ensures records == TailRecords(file, maxBytes, maxLine, parse)
  {
    var offset := Offset(|file|, maxBytes);
    var raw := ReadWindow(file, maxBytes);
    if offset > 0 {
      var newline := FindNewline(raw, 0);
      WindowNewline(file, offset);
      raw := if newline == |raw| then [] else raw[newline + 1..];
    }
    assert raw == file[Start(file, maxBytes)..];
    if raw != [] && raw[|raw| - 1] != NEWLINE {
      raw := raw[..AfterLastNewline(raw)];
    }
    assert raw == Committed(file, maxBytes);
    var lines := SplitLines(raw);
    records := [];
    for i := 0 to |lines|
      invariant records == Parsed(lines[..i], maxLine, parse)
    {
      assert lines[..i + 1][..i] == lines[..i] && lines[..i + 1][i] == lines[i];
      if lines[i] == [] || |lines[i]| > maxLine {
        continue;
      }
      match parse(lines[i])
      case None =>
      case Some(r) => records := records + [r];
    }
    assert lines[..|lines|] == lines;
  }

  lemma FindNewlineIs(s: seq<byte>, from: nat, i: nat)
    requires from <= i <= |s| && (forall k :: from <= k < i ==> s[k] != NEWLINE) && (i < |s| ==> s[i] == NEWLINE)
    ensures FindNewline(s, from) == i
    decreases i - from
  {
    if from < i { FindNewlineIs(s, from + 1, i); }
  }

  lemma FindBreakIs(s: seq<byte>, from: nat, i: nat)
    requires from <= i <= |s| && (forall k :: from <= k < i ==> !IsBreak(s[k])) && (i < |s| ==> IsBreak(s[i]))
    ensures FindBreak(s, from) == i
    decreases i - from
  {
    if from < i { FindBreakIs(s, from + 1, i); }
  }

  lemma AfterLastNewlineIs(s: seq<byte>, i: nat)
    requires i <= |s| && (forall k :: i <= k < |s| ==> s[k] != NEWLINE) && (i > 0 ==> s[i - 1] == NEWLINE)
    ensures AfterLastNewline(s) == i
  {
    if i < |s| { AfterLastNewlineIs(s[..|s| - 1], i); }
  }

  lemma WindowNewline(file: seq<byte>, offset: nat)
    requires offset <= |file|
    ensures offset + FindNewline(file[offset..], 0) == FindNewline(file, offset)
  {
    var w := file[offset..];
    var i := FindNewline(w, 0);
    assert forall k :: offset <= k < |file| ==> file[k] == w[k - offset];
    FindNewlineIs(file, offset, offset + i);
  }

  // ---- Splitting and encoding ----

  lemma FirstBreakKept(a: seq<byte>, b: seq<byte>)
    requires a != [] && EndsLine(a)
    ensures FindBreak(a, 0) < |a| && FindBreak(a + b, 0) == FindBreak(a, 0)
    ensures BreakWidth(a + b, FindBreak(a, 0)) == BreakWidth(a, FindBreak(a, 0))
    ensures FindBreak(a, 0) + BreakWidth(a, FindBreak(a, 0)) <= |a|
  {
    var i := FindBreak(a, 0);
    assert IsBreak(a[|a| - 1]);
    assert forall k :: 0 <= k < |a| ==> (a + b)[k] == a[k];
    FindBreakIs(a + b, 0, i);
  }

  /** Splitting off the first line of `a` is the same with and without `b` behind it. */
  lemma SplitStep(a: seq<byte>, b: seq<byte>) returns (line: seq<byte>, rest: seq<byte>)
    requires a != [] && EndsLine(a)
    ensures |rest| < |a| && EndsLine(rest)
    ensures SplitLines(a) == [line] + SplitLines(rest)
    ensures SplitLines(a + b) == [line] + SplitLines(rest + b)
  {
    FirstBreakKept(a, b);
    var i := FindBreak(a, 0);
    FirstLine(a, i);
    FirstLine(a + b, i);
    hide *;
    var next := i + BreakWidth(a, i);
    line, rest := a[..i], a[next..];
    CutWithin(a, b, next);
    CutWithin(a, b, i);
    RestEndsLine(a, next);
  }

  lemma RestEndsLine(a: seq<byte>, next: nat)
    requires next <= |a| && EndsLine(a)
    ensures EndsLine(a[next..])
  {
  }

  lemma CutWithin(a: seq<byte>, b: seq<byte>, i: nat)
    requires i <= |a|
    ensures (a + b)[i..] == a[i..] + b && (a + b)[..i] == a[..i]
  {
  }

  lemma {:induction false} SplitAppend(a: seq<byte>, b: seq<byte>)
    requires EndsLine(a)
    ensures SplitLines(a + b) == SplitLines(a) + SplitLines(b)
    decreases |a|
  {
    assert SplitLines([]) == [];
    hide SplitLines;
    if a == [] {
      Sequences.EmptyLeft(b);
      Sequences.EmptyLeft(SplitLines(b));
    } else {
      var line, rest := SplitStep(a, b);
      SplitAppend(rest, b);
      Sequences.Associative([line], SplitLines(rest), SplitLines(b));
    }
  }

  lemma {:induction false} SplitOneLine(line: seq<byte>)
    requires forall k :: 0 <= k < |line| ==> !IsBreak(line[k])
    ensures SplitLines(line + [NEWLINE]) == [line]
  {
    var s := line + [NEWLINE];
    assert IsBreak(s[|line|]);
    assert FindBreak(s, 0) == |line|;
    assert s[|line| + 1..] == [] && s[..|line|] == line;
  }

  lemma {:induction false} SplitEncode(lines: seq<seq<byte>>, maxLine: nat)
    requires forall i :: 0 <= i < |lines| ==> WriterLine(lines[i], maxLine)
    ensures SplitLines(Encode(lines)) == lines
    ensures EndsLine(Encode(lines))
  {
    if lines != [] {
      SplitOneLine(lines[0]);
      SplitEncode(lines[1..], maxLine);
      SplitAppend(lines[0] + [NEWLINE], Encode(lines[1..]));
    }
  }

  lemma {:induction false} ParsedAppend<R(!new)>(a: seq<seq<byte>>, b: seq<seq<byte>>, maxLine: nat,
                                                 parse: seq<byte> -> Option<R>)
    ensures Parsed(a + b, maxLine, parse) == Parsed(a, maxLine, parse) + Parsed(b, maxLine, parse)
  {
    if b == [] {
      assert a + b == a;
    } else {
      assert (a + b)[..|a + b| - 1] == a + b[..|b| - 1];
      ParsedAppend(a, b[..|b| - 1], maxLine, parse);
    }
  }

  lemma {:induction false} ParsedBlock<R(!new)>(lines: seq<seq<byte>>, recs: seq<R>, maxLine: nat,
                                                parse: seq<byte> -> Option<R>)
    requires Writes(lines, recs, maxLine, parse)
    ensures Parsed(lines, maxLine, parse) == recs
  {
    if lines != [] {
      var n := |lines| - 1;
      ParsedBlock(lines[..n], recs[..n], maxLine, parse);
      assert recs == recs[..n] + [recs[n]];
    }
  }

  // ---- Main results ----

  /** The records are those of a suffix of the file made of whole, newline-terminated lines. */
  lemma TailIsCommittedSuffix<R(!new)>(file: seq<byte>, maxBytes: nat, maxLine: nat, parse: seq<byte> -> Option<R>)
      returns (s: nat, e: nat)
    ensures s <= e <= |file|
    ensures TailRecords(file, maxBytes, maxLine, parse) == Parsed(SplitLines(file[s..e]), maxLine, parse)
    ensures EndsLine(file[..s]) || s == |file|
    ensures EndsLine(file[s..e])
    ensures forall k :: e <= k < |file| ==> file[k] != NEWLINE
    ensures e - s <= maxBytes
  {
    s := Start(file, maxBytes);
    StartIsLineStart(file, maxBytes);
    hide Start, Parsed, SplitLines;
    var rest := file[s..];
    e := s + AfterLastNewline(rest);
    hide AfterLastNewline;
    assert rest[..AfterLastNewline(rest)] == file[s..e];
    forall k | e <= k < |file| ensures file[k] != NEWLINE { assert file[k] == rest[k - s]; }
  }

  lemma StartIsLineStart(file: seq<byte>, maxBytes: nat)
    ensures var s := Start(file, maxBytes);
            (EndsLine(file[..s]) || s == |file|) && |file| - s <= maxBytes
  {
    hide FindNewline;
  }

  lemma CommittedOfBlock(pre: seq<byte>, block: seq<byte>, torn: seq<byte>, maxBytes: nat) returns (kept: seq<byte>)
    requires EndsLine(pre) && EndsLine(block) && forall k :: 0 <= k < |torn| ==> torn[k] != NEWLINE
    requires pre == [] || |block| + |torn| < maxBytes
    requires |block| + |torn| <= maxBytes
    ensures Committed(pre + block + torn, maxBytes) == kept + block
    ensures EndsLine(kept)
    ensures |pre + block + torn| <= maxBytes ==> kept == pre
  {
    var file := pre + block + torn;
    var s := Start(file, maxBytes);
    var offset := Offset(|file|, maxBytes);
    if offset > 0 {
      assert file[|pre| - 1] == NEWLINE;
      assert s <= |pre|;
    }
    kept := pre[s..];
    var rest := file[s..];
    assert rest == kept + block + torn;
    LastNewlineBefore(kept + block, torn);
  }

  lemma CommittedWhole(block: seq<byte>, torn: seq<byte>, maxBytes: nat)
    requires EndsLine(block) && (forall k :: 0 <= k < |torn| ==> torn[k] != NEWLINE)
    requires |block + torn| <= maxBytes
    ensures Committed(block + torn, maxBytes) == block
  {
    LastNewlineBefore(block, torn);
    hide AfterLastNewline, EndsLine;
    assert (block + torn)[0..] == block + torn;
  }

  lemma LastNewlineBefore(a: seq<byte>, torn: seq<byte>)
    requires EndsLine(a) && forall k :: 0 <= k < |torn| ==> torn[k] != NEWLINE
    ensures (a + torn)[..AfterLastNewline(a + torn)] == a
  {
    AfterLastNewlineIs(a + torn, |a|);
  }

  /**
   A final block of writer lines that fits the margin is recovered whole, whatever precedes it,
   even behind a torn tail shorter than one line limit.
   */
  lemma FinalBlockRecovered<R(!new)>(pre: seq<byte>, lines: seq<seq<byte>>, recs: seq<R>, torn: seq<byte>,
                               maxBytes: nat, maxLine: nat, parse: seq<byte> -> Option<R>)
    requires EndsLine(pre) && Writes(lines, recs, maxLine, parse)
    requires |torn| < maxLine && forall k :: 0 <= k < |torn| ==> torn[k] != NEWLINE
    requires maxLine <= maxBytes && |Encode(lines)| <= maxBytes - maxLine
    ensures var got := TailRecords(pre + Encode(lines) + torn, maxBytes, maxLine, parse);
            |got| >= |recs| && got[|got| - |recs|..] == recs
  {
    SplitEncode(lines, maxLine);
    var kept := CommittedOfBlock(pre, Encode(lines), torn, maxBytes);
    SplitAppend(kept, Encode(lines));
    ParsedAppend(SplitLines(kept), lines, maxLine, parse);
    ParsedBlock(lines, recs, maxLine, parse);
  }

  /** A log that fits its window, with or without a torn tail, reads back as exactly its records. */
  lemma WholeLogReadBack<R(!new)>(lines: seq<seq<byte>>, recs: seq<R>, torn: seq<byte>, maxBytes: nat, maxLine: nat,
                            parse: seq<byte> -> Option<R>)
    requires Writes(lines, recs, maxLine, parse)
    requires forall k :: 0 <= k < |torn| ==> torn[k] != NEWLINE
    requires |Encode(lines)| + |torn| <= maxBytes
    ensures TailRecords(Encode(lines) + torn, maxBytes, maxLine, parse) == recs
  {
    SplitEncode(lines, maxLine);
    CommittedWhole(Encode(lines), torn, maxBytes);
    ParsedBlock(lines, recs, maxLine, parse);
  }

  /** Bytes a stopped append may leave: the start of a line, without any break. */
  predicate Fragment(torn: seq<byte>) {
    forall k :: 0 <= k < |torn| ==> !IsBreak(torn[k])
  }

  /** The lines on disk once `more` is appended behind a torn tail: its first line merges with the tail. */
  function Merged(lines: seq<seq<byte>>, torn: seq<byte>, more: seq<seq<byte>>): seq<seq<byte>>
    requires more != []
  {
    lines + ([torn + more[0]] + more[1..])
  }

  lemma {:induction false} EncodeAppend(a: seq<seq<byte>>, b: seq<seq<byte>>)
    ensures Encode(a + b) == Encode(a) + Encode(b)
  {
    if a == [] {
      assert a + b == b;
    } else {
      assert (a + b)[1..] == a[1..] + b;
      EncodeAppend(a[1..], b);
    }
  }

  lemma MergedEncoding(lines: seq<seq<byte>>, torn: seq<byte>, more: seq<seq<byte>>)
    requires more != []
    ensures Encode(Merged(lines, torn, more)) == Encode(lines) + torn + Encode(more)
  {
    var tail := [torn + more[0]] + more[1..];
    EncodeAppend(lines, tail);
    assert tail[1..] == more[1..];
    assert Encode(tail) == torn + more[0] + [NEWLINE] + Encode(more[1..]);
    hide Encode;
    assert Encode(lines) + (torn + more[0] + [NEWLINE] + Encode(more[1..]))
        == Encode(lines) + torn + (more[0] + [NEWLINE] + Encode(more[1..]));
  }

  /** Splitting whole lines that fit the window, however long each is. */
  lemma CommittedLines(lines: seq<seq<byte>>, maxLine: nat, maxBytes: nat)
    requires forall i :: 0 <= i < |lines| ==> WriterLine(lines[i], maxLine)
    requires |Encode(lines)| <= maxBytes
    ensures SplitLines(Committed(Encode(lines), maxBytes)) == lines
  {
    SplitEncode(lines, maxLine);
    CommittedWhole(Encode(lines), [], maxBytes);
    hide SplitLines, Encode, Committed;
    assert Encode(lines) + [] == Encode(lines);
  }

  lemma MergedLines(lines: seq<seq<byte>>, torn: seq<byte>, more: seq<seq<byte>>, maxLine: nat) returns (long: nat)
    requires forall i :: 0 <= i < |lines| ==> WriterLine(lines[i], maxLine)
    requires more != [] && forall i :: 0 <= i < |more| ==> WriterLine(more[i], maxLine)
    requires Fragment(torn)
    ensures forall i :: 0 <= i < |Merged(lines, torn, more)| ==> WriterLine(Merged(lines, torn, more)[i], long)
  {
    long := |torn| + maxLine;
    var all := Merged(lines, torn, more);
    forall i | 0 <= i < |all| ensures WriterLine(all[i], long) {
      if i < |lines| {
        assert all[i] == lines[i];
      } else if i == |lines| {
        assert all[i] == torn + more[0] && WriterLine(more[0], maxLine);
      } else {
        assert all[i] == more[i - |lines|];
      }
    }
  }

  lemma MergedTail<R(!new)>(torn: seq<byte>, more: seq<seq<byte>>, added: seq<R>, maxLine: nat,
                            parse: seq<byte> -> Option<R>)
    requires Writes(more, added, maxLine, parse) && more != []
    requires torn != [] ==> parse(torn + more[0]).None?
    ensures Parsed([torn + more[0]] + more[1..], maxLine, parse) == if torn == [] then added else added[1..]
  {
    ParsedAppend([torn + more[0]], more[1..], maxLine, parse);
    ParsedBlock(more[1..], added[1..], maxLine, parse);
    ParsedSingleton(torn + more[0], maxLine, parse);
    if torn == [] {
      assert torn + more[0] == more[0];
      hide Parsed, WriterLine;
      assert added == [added[0]] + added[1..];
    }
  }

  lemma MergedRecords<R(!new)>(lines: seq<seq<byte>>, recs: seq<R>, torn: seq<byte>, more: seq<seq<byte>>,
                               added: seq<R>, maxLine: nat, parse: seq<byte> -> Option<R>)
    requires Writes(lines, recs, maxLine, parse) && Writes(more, added, maxLine, parse) && more != []
    requires torn != [] ==> parse(torn + more[0]).None?
    ensures Parsed(Merged(lines, torn, more), maxLine, parse) == recs + if torn == [] then added else added[1..]
  {
    ParsedAppend(lines, [torn + more[0]] + more[1..], maxLine, parse);
    ParsedBlock(lines, recs, maxLine, parse);
    MergedTail(torn, more, added, maxLine, parse);
  }

  /**
   A retry appends its records whether or not a stopped append left a fragment behind the last newline. When
   no record parses behind such a fragment, all of them are read back if and only if the log ended in a
   newline; otherwise exactly the first of them is lost.
   */
  lemma RetryAfterTornAppend<R(!new)>(lines: seq<seq<byte>>, recs: seq<R>, torn: seq<byte>, more: seq<seq<byte>>,
                                      added: seq<R>, maxBytes: nat, maxLine: nat, parse: seq<byte> -> Option<R>)
    requires Writes(lines, recs, maxLine, parse) && Writes(more, added, maxLine, parse) && more != []
    requires Fragment(torn) && (torn != [] ==> parse(torn + more[0]).None?)
    requires |Encode(lines) + torn + Encode(more)| <= maxBytes
    ensures var log := Encode(lines) + torn;
            var got := TailRecords(log + Encode(more), maxBytes, maxLine, parse);
            && (got == recs + added <==> EndsLine(log))
            && (EndsLine(log) <==> torn == [])
            && (!EndsLine(log) ==> got == recs + added[1..])
  {
    MergedEncoding(lines, torn, more);
    var long := MergedLines(lines, torn, more, maxLine);
    CommittedLines(Merged(lines, torn, more), long, maxBytes);
    MergedRecords(lines, recs, torn, more, added, maxLine, parse);
    SplitEncode(lines, maxLine);
    TornEndsNoLine(Encode(lines), torn);
    hide Encode, SplitLines, Committed, Parsed, Merged, EndsLine, Writes, Fragment;
    assert |recs + added[1..]| != |recs + added|;
  }

  lemma TornEndsNoLine(whole: seq<byte>, torn: seq<byte>)
    requires EndsLine(whole) && Fragment(torn)
    ensures EndsLine(whole + torn) <==> torn == []
  {
    var log := whole + torn;
    if torn == [] {
      assert log == whole;
    } else {
      assert log[|log| - 1] == torn[|torn| - 1];
    }
  }

  const BRACES: seq<byte> := [123, 125]

  /** A parser that knows one object, `{}`. */
  function ParseBraces(line: seq<byte>): Option<bool> {
    if line == BRACES then Some(true) else None
  }

  /** At an input: `{}` appended behind a lone `{` is lost, and appended to an empty log is read back. */
  lemma RecordLostBehindATornLine()
    ensures TailRecords([123] + (BRACES + [NEWLINE]), 100, 50, ParseBraces) == []
    ensures TailRecords(BRACES + [NEWLINE], 100, 50, ParseBraces) == [true]
  {
    assert [BRACES][1..] == [];
    assert Encode([BRACES]) == BRACES + [NEWLINE];
    RetryAfterTornAppend([], [], [123], [BRACES], [true], 100, 50, ParseBraces);
    RetryAfterTornAppend([], [], [], [BRACES], [true], 100, 50, ParseBraces);
    assert Encode([]) + [123] == [123];
    assert Encode([]) + [] + Encode([BRACES]) == BRACES + [NEWLINE];
  }

  lemma ParsedSingleton<R(!new)>(line: seq<byte>, maxLine: nat, parse: seq<byte> -> Option<R>)
    requires line != []
    ensures Parsed([line], maxLine, parse)
            == if |line| <= maxLine && parse(line).Some? then [parse(line).value] else []
  {
    assert [line][..0] == [];
    assert Parsed([], maxLine, parse) == [];
  }

  // ---- The same window seen on whole lines ----

  /** The longest suffix of `lines` whose encoding takes at most `budget` bytes. */
  function LastLinesWithin(lines: seq<seq<byte>>, budget: nat): seq<seq<byte>> {
    if |Encode(lines)| <= budget || lines == [] then lines else LastLinesWithin(lines[1..], budget)
  }

  /** The lines of a cleanly written log that the reader sees; a cut costs one byte of the window. */
  function VisibleLines(lines: seq<seq<byte>>, maxBytes: nat): seq<seq<byte>>
    requires maxBytes > 0
  {
    if |Encode(lines)| <= maxBytes then lines else LastLinesWithin(lines, maxBytes - 1)
  }

  lemma CutInFirstLine(line: seq<byte>, rest: seq<byte>, offset: nat)
    requires offset <= |line| && forall k :: 0 <= k < |line| ==> !IsBreak(line[k])
    ensures var file := line + [NEWLINE] + rest;
            FindNewline(file, offset) == |line| && file[|line| + 1..] == rest
  {
    var file := line + [NEWLINE] + rest;
    assert forall k :: 0 <= k < |line| ==> file[k] == line[k];
    FindNewlineIs(file, offset, |line|);
  }

  lemma {:induction false} SuffixAfterCut(lines: seq<seq<byte>>, maxLine: nat, maxBytes: nat, offset: nat)
    requires forall i :: 0 <= i < |lines| ==> WriterLine(lines[i], maxLine)
    requires maxBytes > 0 && |Encode(lines)| == offset + maxBytes
    ensures var newline := FindNewline(Encode(lines), offset);
            newline < |Encode(lines)|
            && Encode(lines)[newline + 1..] == Encode(LastLinesWithin(lines, maxBytes - 1))
    decreases |lines|
  {
    var head, rest := lines[0] + [NEWLINE], Encode(lines[1..]);
    assert Encode(lines) == head + rest
           && LastLinesWithin(lines, maxBytes - 1) == LastLinesWithin(lines[1..], maxBytes - 1);
    if offset < |head| {
      assert WriterLine(lines[0], maxLine);
      assert LastLinesWithin(lines[1..], maxBytes - 1) == lines[1..];
      hide Encode, FindNewline, LastLinesWithin;
      CutInFirstLine(lines[0], rest, offset);
    } else {
      SuffixAfterCut(lines[1..], maxLine, maxBytes, offset - |head|);
      hide Encode, FindNewline, LastLinesWithin, WriterLine;
      SuffixShift(head, rest, offset - |head|);
    }
  }

  lemma SuffixShift(a: seq<byte>, b: seq<byte>, from: nat)
    requires from <= |b| && FindNewline(b, from) < |b|
    ensures FindNewline(a + b, |a| + from) == |a| + FindNewline(b, from)
    ensures (a + b)[|a| + FindNewline(b, from) + 1..] == b[FindNewline(b, from) + 1..]
  {
    ShiftNewline(a, b, from);
  }

  lemma ShiftNewline(a: seq<byte>, b: seq<byte>, from: nat)
    requires from <= |b|
    ensures FindNewline(a + b, |a| + from) == |a| + FindNewline(b, from)
    decreases |b| - from
  {
    var s := a + b;
    if from < |b| {
      assert s[|a| + from] == b[from];
      if b[from] != NEWLINE { ShiftNewline(a, b, from + 1); }
    }
  }

  /** On a cleanly written log the byte window is exactly the longest suffix of whole lines that fits. */
  lemma WindowOfWholeLines<R(!new)>(lines: seq<seq<byte>>, maxBytes: nat, maxLine: nat, parse: seq<byte> -> Option<R>)
    requires forall i :: 0 <= i < |lines| ==> WriterLine(lines[i], maxLine)
    requires maxBytes > 0
    ensures TailRecords(Encode(lines), maxBytes, maxLine, parse)
            == Parsed(VisibleLines(lines, maxBytes), maxLine, parse)
  {
    var visible := VisibleLines(lines, maxBytes);
    LastLinesAreWriterLines(lines, maxBytes - 1, maxLine);
    SplitEncode(visible, maxLine);
    StartOfWholeLines(lines, maxBytes, maxLine);
    LastNewlineBefore(Encode(visible), []);
    hide SplitLines, Parsed, Encode, VisibleLines, Start, AfterLastNewline;
    assert Encode(visible) + [] == Encode(visible);
  }

  lemma {:induction false} StartOfWholeLines(lines: seq<seq<byte>>, maxBytes: nat, maxLine: nat)
    requires forall i :: 0 <= i < |lines| ==> WriterLine(lines[i], maxLine)
    requires maxBytes > 0
    ensures Encode(lines)[Start(Encode(lines), maxBytes)..] == Encode(VisibleLines(lines, maxBytes))
  {
    hide Encode, LastLinesWithin, FindNewline;
    var file := Encode(lines);
    if |file| > maxBytes {
      SuffixAfterCut(lines, maxLine, maxBytes, |file| - maxBytes);
    } else {
      assert file[0..] == file;
    }
  }

  lemma LastLinesAreWriterLines(lines: seq<seq<byte>>, budget: nat, maxLine: nat)
    requires forall i :: 0 <= i < |lines| ==> WriterLine(lines[i], maxLine)
    ensures forall i :: 0 <= i < |LastLinesWithin(lines, budget)| ==>
              WriterLine(LastLinesWithin(lines, budget)[i], maxLine)
  {
    if |Encode(lines)| > budget && lines != [] { LastLinesAreWriterLines(lines[1..], budget, maxLine); }
  }

  // ---- Line breaks and skipped lines ----

  lemma FirstLine(s: seq<byte>, i: nat)
    requires i < |s| && IsBreak(s[i]) && forall k :: 0 <= k < i ==> !IsBreak(s[k])
    ensures i + BreakWidth(s, i) <= |s|
    ensures SplitLines(s) == [s[..i]] + SplitLines(s[i + BreakWidth(s, i)..])
  {
    FindBreakIs(s, 0, i);
    hide IsBreak, FindBreak;
  }

  /** A break the mark of which ends a line whatever follows it. */
  predicate Ends(mark: seq<byte>, b: seq<byte>) {
    mark == [RETURN, NEWLINE] || mark == [NEWLINE] || (mark == [RETURN] && (b == [] || b[0] != NEWLINE))
  }

  lemma BreakBehind(a: seq<byte>, mark: seq<byte>, b: seq<byte>)
    requires Ends(mark, b) && forall k :: 0 <= k < |a| ==> !IsBreak(a[k])
    ensures SplitLines(a + mark + b) == [a] + SplitLines(b)
  {
    var s := a + mark + b;
    assert s[|a|] == mark[0] && s[..|a|] == a && s[|a| + |mark|..] == b;
    assert forall k :: 0 <= k < |a| ==> s[k] == a[k];
    assert |mark| == 2 ==> s[|a| + 1] == NEWLINE;
    assert |mark| == 1 && b != [] ==> s[|a| + 1] == b[0];
    assert BreakWidth(s, |a|) == |mark|;
    FirstLine(s, |a|);
    hide SplitLines;
  }

  lemma BreakWithin(a: seq<byte>, more: seq<byte>, i: nat)
    requires i < |a| && IsBreak(a[i]) && (forall k :: 0 <= k < i ==> !IsBreak(a[k])) && a[|a| - 1] != RETURN
    ensures i + BreakWidth(a, i) <= |a|
    ensures SplitLines(a + more) == [a[..i]] + SplitLines(a[i + BreakWidth(a, i)..] + more)
  {
    var s, w := a + more, BreakWidth(a, i);
    assert forall k :: 0 <= k < |a| ==> s[k] == a[k];
    assert BreakWidth(s, i) == w;
    assert s[i + w..] == a[i + w..] + more && s[..i] == a[..i];
    FirstLine(s, i);
    hide SplitLines, IsBreak, BreakWidth;
  }

  /** Behind a text that does not end in a carriage return, every kind of break ends the line like a newline. */
  lemma {:induction false} BreaksAreAlike(a: seq<byte>, mark: seq<byte>, b: seq<byte>)
    requires a == [] || a[|a| - 1] != RETURN
    requires mark == [RETURN, NEWLINE] || (mark == [RETURN] && (b == [] || b[0] != NEWLINE))
    ensures SplitLines(a + mark + b) == SplitLines(a + [NEWLINE] + b)
    decreases |a|
  {
    var i := FindBreak(a, 0);
    if i == |a| {
      BreakBehind(a, mark, b);
      BreakBehind(a, [NEWLINE], b);
    } else {
      var rest := a[i + BreakWidth(a, i)..];
      BreakWithin(a, mark + b, i);
      BreakWithin(a, [NEWLINE] + b, i);
      hide SplitLines, IsBreak, BreakWidth, Ends;
      Sequences.Associative(a, mark, b);
      Sequences.Associative(a, [NEWLINE], b);
      Sequences.Associative(rest, mark, b);
      Sequences.Associative(rest, [NEWLINE], b);
      BreaksAreAlike(rest, mark, b);
    }
  }

  /** A line that is empty or over the limit is as good as not there, whatever it would parse to. */
  lemma {:induction false} SkippedLines<R>(a: seq<seq<byte>>, line: seq<byte>, b: seq<seq<byte>>, maxLine: nat,
                                           parse: seq<byte> -> Option<R>)
    requires line == [] || |line| > maxLine
    ensures Parsed(a + [line] + b, maxLine, parse) == Parsed(a + b, maxLine, parse)
  {
    if b == [] {
      assert (a + [line] + b)[..|a|] == a && a + b == a;
    } else {
      var n := |b| - 1;
      assert (a + [line] + b)[..|a| + 1 + n] == a + [line] + b[..n];
      assert (a + b)[..|a| + n] == a + b[..n];
      SkippedLines(a, line, b[..n], maxLine, parse);
    }
  }
}
