/** Repository-relative paths: splitting, UTF-8 length, and the checkpoint's path rules. */
module Paths {
  import opened Wrappers

  const MAX_PATH_BYTES: nat := 4096

  /** Index of the first `c` at or after `from`, or `|s|`. */
  function IndexOf(s: string, c: char, from: nat): (i: nat)
    requires from <= |s|
    ensures from <= i <= |s|
    ensures forall k :: from <= k < i ==> s[k] != c
    ensures i < |s| ==> s[i] == c
    decreases |s| - from
  {
    if from == |s| || s[from] == c then from else IndexOf(s, c, from + 1)
  }

  /** `path.split("/")`. */
  function Components(path: string): seq<string>
    decreases |path|
  {
    var i := IndexOf(path, '/', 0);
    if i == |path| then [path] else [path[..i]] + Components(path[i + 1..])
  }

  function Utf8Width(c: char): nat {
    var code := c as int;
    if code < 0x80 then 1 else if code < 0x800 then 2 else if code < 0x10000 then 3 else 4
  }

  function Utf8Length(s: string): nat {
    if s == [] then 0 else Utf8Width(s[0]) + Utf8Length(s[1..])
  }

  predicate ControlCharacter(c: char) {
    (c as int) < 32 || (c as int) == 127
  }

  /** `_repo_path`: what a batch file path must look like. */
  predicate ValidRepoPath(path: string) {
    && path != []
    && path[0] != '/'
    && (forall i :: 0 <= i < |Components(path)| ==> Components(path)[i] !in {"", ".", ".."})
    && (forall i :: 0 <= i < |path| ==> !ControlCharacter(path[i]))
    && Utf8Length(path) <= MAX_PATH_BYTES
  }

  // ---- What a valid path is ----

  /** `"/".join(components)`. */
  function Join(components: seq<string>): string {
    if components == [] then ""
    else if |components| == 1 then components[0]
    else components[0] + "/" + Join(components[1..])
  }

  /** Splitting loses nothing and leaves no separator. */
  lemma {:induction false} JoinSplit(path: string)
    ensures Join(Components(path)) == path && Components(path) != []
    ensures forall c :: c in Components(path) ==> '/' !in c
    decreases |path|
  {
    var i := IndexOf(path, '/', 0);
    if i == |path| {
      forall k | 0 <= k < |path| ensures path[k] != '/' {}
    } else {
      JoinSplit(path[i + 1..]);
      assert path == path[..i] + "/" + path[i + 1..];
      forall k | 0 <= k < i ensures path[..i][k] != '/' {}
      var rest := Components(path[i + 1..]);
      assert Components(path)[1..] == rest && Components(path) == [path[..i]] + rest;
    }
  }

  predicate Descends(component: string) {
    component != "" && component != "." && component != ".."
  }

  /**
   Where a relative path leads from the root of the repository: empty and "." components stay, ".." goes back up, and
   a path that goes above the root leads nowhere.
   */
  function Walk(components: seq<string>): Option<seq<string>> {
    if components == [] then Some([])
    else
      match Walk(components[..|components| - 1])
      case None => None
      case Some(at) => Enter(at, components[|components| - 1])
  }

  function Enter(at: seq<string>, component: string): Option<seq<string>> {
    if Descends(component) then Some(at + [component])
    else if component != ".." then Some(at)
    else if at == [] then None
    else Some(at[..|at| - 1])
  }

  lemma EntersStraight(at: seq<string>, front: seq<string>, last: string)
    requires |at| <= |front|
    ensures Enter(at, last) == Some(front + [last]) <==> at == front && Descends(last)
    ensures Enter(at, last).Some? ==> |Enter(at, last).value| <= |at| + 1
  {
    hide Descends;
    if Descends(last) { assert (at + [last])[..|at|] == at && |at| == |front| ==> (front + [last])[..|at|] == front; }
  }

  /** Components lead to themselves exactly when none of them stays in place or goes back up. */
  lemma {:induction false} WalksStraight(components: seq<string>)
    ensures Walk(components) == Some(components) <==>
              forall i :: 0 <= i < |components| ==> Descends(components[i])
    ensures Walk(components).Some? ==> |Walk(components).value| <= |components|
  {
    hide Descends;
    if components != [] {
      var front, last := components[..|components| - 1], components[|components| - 1];
      WalksStraight(front);
      assert components == front + [last];
      if Walk(front).Some? { EntersStraight(Walk(front).value, front, last); }
      hide Enter;
    }
  }

  /**
   A path is valid exactly when it is relative and leads straight to itself below the root, and is printable and
   short enough.
   */
  lemma ValidPathLeadsToItself(path: string)
    ensures ValidRepoPath(path) <==>
              && Walk(Components(path)) == Some(Components(path)) && Join(Components(path)) == path
              && (forall i :: 0 <= i < |path| ==> path[i] as int >= 32 && path[i] as int != 127)
              && Utf8Length(path) <= 4096
  {
    JoinSplit(path);
    StartsBelow(path);
    ComponentsDescend(path);
    hide Components, Walk, Join, Utf8Length, Descends;
  }

  lemma StartsBelow(path: string)
    ensures path == "" || path[0] == '/' ==> !Descends(Components(path)[0])
  {
  }

  lemma ComponentsDescend(path: string)
    ensures Walk(Components(path)) == Some(Components(path)) <==>
              forall i :: 0 <= i < |Components(path)| ==> Components(path)[i] !in {"", ".", ".."}
    ensures Components(path) != []
    ensures Walk(Components(path)) == Some(Components(path)) ==> Descends(Components(path)[0])
  {
    JoinSplit(path);
    WalksStraight(Components(path));
    hide Components, Walk, Join;
    var components := Components(path);
    forall i | 0 <= i < |components| ensures Descends(components[i]) <==> components[i] !in {"", ".", ".."} {
      DescendsIs(components[i]);
    }
    hide Descends;
  }

  lemma DescendsIs(component: string)
    ensures Descends(component) <==> component !in {"", ".", ".."}
  {
  }

  // ---- UTF-8 ----

  function Power(bits: nat): nat {
    if bits == 0 then 1 else 2 * Power(bits - 1)
  }

  /** The payload bits of an encoding of `width` bytes: section 3 of RFC 3629. */
  function PayloadBits(width: nat): nat {
    if width == 1 then 7 else 5 * width + 1
  }

  /** A character takes the fewest bytes whose payload holds its code point, and the lengths of texts add up. */
  lemma {:induction false} Utf8IsShortest(c: char, width: nat, a: string, b: string)
    ensures 1 <= Utf8Width(c) <= 4
    ensures 1 <= width <= 4 ==> (c as int < Power(PayloadBits(width)) <==> Utf8Width(c) <= width)
    ensures Utf8Length([c]) == Utf8Width(c) && Utf8Length(a + b) == Utf8Length(a) + Utf8Length(b)
  {
    Powers();
    hide Power;
    Utf8Append(a, b);
    assert [c][1..] == [];
  }

  lemma Powers()
    ensures Power(7) == 0x80 && Power(11) == 0x800 && Power(16) == 0x10000 && Power(21) == 0x200000
  {
    assert Power(8) == 0x100 && Power(12) == 0x1000 && Power(20) == 0x100000;
  }

  lemma {:induction false} Utf8Append(a: string, b: string)
    ensures Utf8Length(a + b) == Utf8Length(a) + Utf8Length(b)
  {
    hide Utf8Width;
    if a == [] {
      assert a + b == b;
    } else {
      assert (a + b)[1..] == a[1..] + b;
      Utf8Append(a[1..], b);
    }
  }
}
