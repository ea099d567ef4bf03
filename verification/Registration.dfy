/** The owned block in an instructions file (scripts/installer_helper.py, `registration_content`). */
module Registration {
  import opened Wrappers

  function OpenMarker(): string { "<!-- bugsweep-skill -->" }

  function CloseMarker(): string { "<!-- /bugsweep-skill -->" }

  // ---- The fixed text of the block, around the four uses of the skill root ----

  function Heading(): string { "\n## bugsweep skill\n" }
  function When1(): string { "When the user types `/bugsweep`" }
  function When2(): string { " (with any flags) or asks to " }
  function When3(): string { "find/fix bugs autonomously,\n" }
  function Read1(): string { "read the full skill instructions" }
  function Read2(): string { " from:\n  " }
  function SkillText1(): string { "/SKILL.md\nAll referenced" }
  function SkillText2(): string { " scripts live in " }
  function ScriptsText(): string { "/scripts/, prompts in " }
  function PromptsText(): string { "/prompts/,\nand config in " }
  function ConfigText1(): string { "/config/. Expand relative script " }
  function ConfigText2(): string { "paths to absolute ones when running.\n" }

  function Lead(): string {
    Heading() + When1() + When2() + When3() + Read1() + Read2()
  }

  function SkillText(): string {
    SkillText1() + SkillText2()
  }

  function ConfigText(): string {
    ConfigText1() + ConfigText2()
  }

  /** The text between the markers, followed by `rest`. */
  function BodyThen(root: string, rest: string): string {
    Lead()
    + (root + (SkillText() + (root + (ScriptsText() + (root + (PromptsText() + (root + (ConfigText() + rest))))))))
  }

  function Body(root: string): string {
    BodyThen(root, "")
  }

  /** `_block`. */
  function Block(root: string): string {
    OpenMarker() + (Body(root) + (CloseMarker() + "\n"))
  }

  // ---- Python's string searches ----

  predicate At(s: string, t: string, i: nat) {
    i + |t| <= |s| && s[i..i + |t|] == t
  }

  ghost predicate Occurs(t: string, s: string) {
    exists i: nat :: At(s, t, i)
  }

  /** `s.find(t, start)`. */
  function Find(s: string, t: string, start: nat): (r: Option<nat>)
    ensures r.Some? ==> start <= r.value && At(s, t, r.value) && forall i: nat :: start <= i < r.value ==> !At(s, t, i)
    ensures r.None? ==> forall i: nat :: start <= i ==> !At(s, t, i)
    decreases |s| - start
  {
    if start + |t| > |s| then None
    else if At(s, t, start) then Some(start)
    else Find(s, t, start + 1)
  }

  /** `s[start:].count(t)`: occurrences that do not overlap. */
  function Count(s: string, t: string, start: nat): nat
    requires t != []
    decreases |s| - start
  {
    match Find(s, t, start)
    case None => 0
    case Some(i) => 1 + Count(s, t, i + |t|)
  }

  /** `s[start:].replace(t, "")`. */
  function Remove(s: string, t: string, start: nat): string
    requires t != [] && start <= |s|
    decreases |s| - start
  {
    match Find(s, t, start)
    case None => s[start..]
    case Some(i) => s[start..i] + Remove(s, t, i + |t|)
  }

  /** `_legacy`: the block without its closing marker line. */
  function Legacy(root: string): string {
    Remove(Block(root), CloseMarker() + "\n", 0)
  }

  function Separator(existing: string): string {
    if existing == [] || existing[|existing| - 1] == '\n' then "" else "\n"
  }

  /** `registration_content`. */
  function RegistrationContent(existing: string, root: string): Result<string> {
    var block := Block(root);
    MarkersNonempty();
    match Find(existing, OpenMarker(), 0)
    case None => Success(existing + Separator(existing) + block)
    case Some(start) =>
      if Count(existing, OpenMarker(), 0) != 1 then Failure("ambiguous bugsweep registration markers")
      else
        match Find(existing, CloseMarker(), start)
        case Some(close) =>
          var end := close + |CloseMarker()|;
          var end' := if end < |existing| && existing[end..end + 1] == "\n" then end + 1 else end;
          if existing[start..end'] != block then Failure("ambiguous bugsweep registration ownership")
          else Success(existing[..start] + block + existing[end'..])
        case None =>
          var legacy := Legacy(root);
          if !At(existing, legacy, start) then Failure("ambiguous legacy bugsweep registration ownership")
          else Success(existing[..start] + block + existing[start + |legacy|..])
  }

  // ---- The markers and the fixed text ----

  lemma MarkersNonempty()
    ensures |OpenMarker()| == 23 && |CloseMarker()| == 24
  {
  }

  /** A text whose only `<` is its first character, and whose only `/`, if any, is followed by `b`. */
  ghost predicate MarkerLike(t: string) {
    && |t| > 0 && t[0] == '<'
    && (forall k :: 0 < k < |t| ==> t[k] != '<')
    && (forall k :: 0 <= k < |t| && t[k] == '/' ==> k + 1 < |t| && t[k + 1] == 'b')
  }

  lemma Markers()
    ensures MarkerLike(OpenMarker()) && MarkerLike(CloseMarker())
    ensures |OpenMarker()| == 23 && |CloseMarker()| == 24 && OpenMarker()[5] == 'b' && CloseMarker()[5] == '/'
  {
  }

  predicate Plain(s: string) {
    forall k :: 0 <= k < |s| ==> s[k] != '<'
  }

  /** Text that follows a use of the root: no `<`, and it starts with a slash that is not followed by `b`. */
  ghost predicate Follows(s: string) {
    Plain(s) && |s| >= 2 && s[0] == '/' && s[1] != 'b'
  }

  lemma PlainAppend(a: string, b: string)
    requires Plain(a) && Plain(b)
    ensures Plain(a + b)
  {
  }

  /** The pieces are stated one literal at a time, so that each stays small. */
  lemma LeadPiecesArePlain()
    ensures Plain(Heading())
    ensures Plain(When1())
    ensures Plain(When2())
    ensures Plain(When3())
    ensures Plain(Read1())
    ensures Plain(Read2())
  {
  }

  lemma LeadIsPlain()
    ensures Plain(Lead())
  {
    LeadPiecesArePlain();
    hide Plain, Heading, When1, When2, When3, Read1, Read2;
    PlainAppend(Heading(), When1());
    PlainAppend(Heading() + When1(), When2());
    PlainAppend(Heading() + When1() + When2(), When3());
    PlainAppend(Heading() + When1() + When2() + When3(), Read1());
    PlainAppend(Heading() + When1() + When2() + When3() + Read1(), Read2());
  }

  lemma SkillPiecesFollow()
    ensures Follows(SkillText1())
    ensures Plain(SkillText2())
    ensures Follows(ScriptsText())
  {
  }

  lemma ConfigPiecesFollow()
    ensures Follows(PromptsText())
    ensures Follows(ConfigText1())
    ensures Plain(ConfigText2())
  {
  }

  lemma UsesFollow()
    ensures Follows(SkillText()) && Follows(ScriptsText()) && Follows(PromptsText()) && Follows(ConfigText())
  {
    SkillPiecesFollow();
    ConfigPiecesFollow();
    hide SkillText1, SkillText2, ScriptsText, PromptsText, ConfigText1, ConfigText2;
  }

  // ---- Occurrences across a join ----

  lemma AtLeft(a: string, b: string, t: string, i: nat)
    requires i + |t| <= |a|
    ensures At(a + b, t, i) <==> At(a, t, i)
  {
    assert (a + b)[i..i + |t|] == a[i..i + |t|];
  }

  lemma AtRight(a: string, b: string, t: string, i: nat)
    ensures At(a + b, t, |a| + i) <==> At(b, t, i)
  {
    if i + |t| <= |b| { assert (a + b)[|a| + i..|a| + i + |t|] == b[i..i + |t|]; }
  }

  lemma CharAt(s: string, t: string, i: nat, k: nat)
    requires At(s, t, i) && k < |t|
    ensures s[i + k] == t[k]
  {
    assert s[i..i + |t|][k] == s[i + k];
  }

  /** A marker never straddles into text that starts like a marker or follows a use of the root. */
  lemma NoStraddle(a: string, b: string, t: string, i: nat)
    requires MarkerLike(t) && At(a + b, t, i) && i < |a|
    requires b != [] && (b[0] == '<' || (|b| >= 2 && b[0] == '/' && b[1] != 'b'))
    ensures At(a, t, i)
  {
    if i + |t| > |a| {
      CharAt(a + b, t, i, |a| - i);
      assert t[|a| - i] == b[0];
      CharAt(a + b, t, i, |a| - i + 1);
    } else {
      AtLeft(a, b, t, i);
    }
  }

  /** A marker does not start in plain text. */
  lemma SkipPlain(a: string, b: string, t: string, i: nat)
    requires MarkerLike(t) && At(a + b, t, i) && Plain(a)
    ensures i >= |a| && At(b, t, i - |a|)
  {
    CharAt(a + b, t, i, 0);
    assert i >= |a|;
    AtRight(a, b, t, i - |a|);
  }

  /** Nor inside a marker, other than at its first character. */
  lemma SkipMarker(m: string, b: string, t: string, i: nat)
    requires MarkerLike(t) && MarkerLike(m) && At(m + b, t, i) && i > 0
    ensures i >= |m| && At(b, t, i - |m|)
  {
    CharAt(m + b, t, i, 0);
    assert i >= |m|;
    AtRight(m, b, t, i - |m|);
  }

  /** One marker does not start where the other one does. */
  lemma OtherMarker(m: string, b: string, t: string, i: nat)
    requires |m| > 5 && |t| > 5 && m[5] != t[5] && At(m + b, t, i)
    ensures i > 0
  {
    CharAt(m + b, t, i, 5);
  }

  /** One use of the root and the text after it. */
  lemma SkipUse(root: string, text: string, rest: string, t: string, i: nat)
    requires MarkerLike(t) && !Occurs(t, root) && Follows(text) && At(root + (text + rest), t, i)
    ensures i >= |root| + |text| && At(rest, t, i - |root| - |text|)
  {
    if i < |root| {
      NoStraddle(root, text + rest, t, i);
    }
    assert i >= |root|;
    AtRight(root, text + rest, t, i - |root|);
    SkipPlain(text, rest, t, i - |root|);
  }

  lemma BodyLength(root: string, rest: string)
    ensures |BodyThen(root, rest)| == |Body(root)| + |rest|
    ensures BodyThen(root, rest) == Body(root) + rest
  {
    hide Lead, SkillText, ScriptsText, PromptsText, ConfigText;
    var a0 := root + (ConfigText() + "");
    var a1 := root + (PromptsText() + a0);
    var a2 := root + (ScriptsText() + a1);
    var a3 := root + (SkillText() + a2);
    assert root + (ConfigText() + rest) == a0 + rest;
    assert root + (PromptsText() + (a0 + rest)) == a1 + rest;
    assert root + (ScriptsText() + (a1 + rest)) == a2 + rest;
    assert root + (SkillText() + (a2 + rest)) == a3 + rest;
    assert Lead() + (a3 + rest) == Lead() + a3 + rest;
  }

  /** A marker that is not in the root is not in the body either, whatever follows the body. */
  lemma BodyClean(root: string, rest: string, t: string, i: nat)
    requires MarkerLike(t) && !Occurs(t, root) && At(Body(root) + rest, t, i)
    ensures i >= |Body(root)| && At(rest, t, i - |Body(root)|)
  {
    BodyLength(root, rest);
    LeadIsPlain();
    UsesFollow();
    hide Lead, SkillText, ScriptsText, PromptsText, ConfigText, Occurs, MarkerLike, At, Follows, Plain;
    var a0 := root + (ConfigText() + rest);
    var a1 := root + (PromptsText() + a0);
    var a2 := root + (ScriptsText() + a1);
    var a3 := root + (SkillText() + a2);
    SkipPlain(Lead(), a3, t, i);
    var i3 := i - |Lead()|;
    SkipUse(root, SkillText(), a2, t, i3);
    var i2 := i3 - |root| - |SkillText()|;
    SkipUse(root, ScriptsText(), a1, t, i2);
    var i1 := i2 - |root| - |ScriptsText()|;
    SkipUse(root, PromptsText(), a0, t, i1);
    var i0 := i1 - |root| - |PromptsText()|;
    SkipUse(root, ConfigText(), rest, t, i0);
  }

  /** The first use of the root lies inside the body, before some more text. */
  lemma RootInBody(root: string, rest: string, t: string, j: nat)
    requires At(root, t, j)
    ensures At(Body(root) + rest, t, |Lead()| + j) && |Lead()| + j + |t| + 1 < |Body(root)|
  {
    BodyLength(root, rest);
    hide Lead, SkillText, ScriptsText, PromptsText, ConfigText;
    var tail := SkillText() + (root + (ScriptsText() + (root + (PromptsText() + (root + (ConfigText() + rest))))));
    AtLeft(root, tail, t, j);
    AtRight(Lead(), root + tail, t, j);
    UsesFollow();
  }

  // ---- The three forms of an instructions file ----

  /** The root contains neither marker. */
  ghost predicate Clean(root: string) {
    !Occurs(OpenMarker(), root) && !Occurs(CloseMarker(), root)
  }

  lemma BlockThen(root: string, q: string)
    ensures Block(root) + q == OpenMarker() + (Body(root) + (CloseMarker() + ("\n" + q)))
    ensures |Block(root)| == 23 + |Body(root)| + 25
  {
    MarkersNonempty();
    hide Body, OpenMarker, CloseMarker;
    var m := CloseMarker() + "\n";
    assert m + q == CloseMarker() + ("\n" + q);
    assert Body(root) + m + q == Body(root) + (m + q);
  }

  /** In a block followed by text without an open marker, the only open marker is the first. */
  lemma OpenInBlock(root: string, q: string, i: nat)
    requires !Occurs(OpenMarker(), root) && !Occurs(OpenMarker(), q) && At(Block(root) + q, OpenMarker(), i)
    ensures i == 0
  {
    Markers();
    BlockThen(root, q);
    hide Body, Block, OpenMarker, CloseMarker, MarkerLike;
    var close := CloseMarker() + ("\n" + q);
    if i > 0 {
      SkipMarker(OpenMarker(), Body(root) + close, OpenMarker(), i);
      BodyClean(root, close, OpenMarker(), i - 23);
      OpenAfterClose(q, i - 23 - |Body(root)|);
    }
  }

  lemma OpenAfterClose(q: string, i: nat)
    requires At(CloseMarker() + ("\n" + q), OpenMarker(), i)
    ensures Occurs(OpenMarker(), q)
  {
    Markers();
    hide OpenMarker, CloseMarker;
    OtherMarker(CloseMarker(), "\n" + q, OpenMarker(), i);
    SkipMarker(CloseMarker(), "\n" + q, OpenMarker(), i);
    SkipPlain("\n", q, OpenMarker(), i - 24);
  }

  /** Before the block, too, nothing but the block's own marker. */
  lemma OpenBefore(p: string, rest: string, i: nat)
    requires !Occurs(OpenMarker(), p) && rest != [] && rest[0] == '<' && At(p + rest, OpenMarker(), i)
    ensures i >= |p| && At(rest, OpenMarker(), i - |p|)
  {
    Markers();
    hide OpenMarker;
    if i < |p| { NoStraddle(p, rest, OpenMarker(), i); }
    assert i >= |p|;
    AtRight(p, rest, OpenMarker(), i - |p|);
  }

  lemma BlockStarts(root: string, q: string)
    ensures At(Block(root) + q, OpenMarker(), 0) && (Block(root) + q)[0] == '<' && |Block(root)| > 0
  {
    Markers();
    hide Body, OpenMarker, CloseMarker;
    assert (Block(root) + q)[0..|OpenMarker()|] == OpenMarker();
  }

  /** A single occurrence is found, and counted once. */
  lemma SingleOccurrence(s: string, t: string, i: nat)
    requires t != [] && At(s, t, i) && forall k: nat :: At(s, t, k) ==> k == i
    ensures Find(s, t, 0) == Some(i) && Count(s, t, 0) == 1
  {
    assert Find(s, t, 0) == Some(i);
    assert Find(s, t, i + |t|).None?;
  }

  lemma CountedOnce(s: string, t: string, i: nat)
    requires t != [] && Find(s, t, 0) == Some(i) && Count(s, t, 0) == 1
    ensures forall k: nat :: k >= i + |t| ==> !At(s, t, k)
  {
    assert Count(s, t, i + |t|) == 0;
  }

  /** In a clean block the first close marker is the block's own. */
  lemma CloseInBlock(root: string, q: string, i: nat)
    requires !Occurs(CloseMarker(), root) && At(Block(root) + q, CloseMarker(), i)
    ensures i >= 23 + |Body(root)|
  {
    Markers();
    BlockThen(root, q);
    hide Body, Block, OpenMarker, CloseMarker;
    var close := CloseMarker() + ("\n" + q);
    OtherMarker(OpenMarker(), Body(root) + close, CloseMarker(), i);
    SkipMarker(OpenMarker(), Body(root) + close, CloseMarker(), i);
    BodyClean(root, close, CloseMarker(), i - 23);
  }

  lemma BlockCloses(root: string, q: string)
    ensures At(Block(root) + q, CloseMarker(), 23 + |Body(root)|)
  {
    Markers();
    BlockThen(root, q);
    hide Body, Block, OpenMarker, CloseMarker;
    AtLeft(CloseMarker(), "\n" + q, CloseMarker(), 0);
    AtRight(Body(root), CloseMarker() + ("\n" + q), CloseMarker(), 0);
    AtRight(OpenMarker(), Body(root) + (CloseMarker() + ("\n" + q)), CloseMarker(), |Body(root)|);
  }

  /** Current form: a file that already has the block, and no other open marker, is returned unchanged. */
  lemma CurrentIsUnchanged(p: string, root: string, q: string)
    requires Clean(root) && !Occurs(OpenMarker(), p) && !Occurs(OpenMarker(), q)
    ensures RegistrationContent(p + (Block(root) + q), root) == Success(p + (Block(root) + q))
  {
    hide Body, Block, OpenMarker, CloseMarker, MarkerLike, Occurs, Count, Find, At, Legacy;
    MarkersNonempty();
    CurrentSearches(p, root, q);
    EndOfBlock(p, root, q);
  }

  lemma CurrentSearches(p: string, root: string, q: string)
    requires Clean(root) && !Occurs(OpenMarker(), p) && !Occurs(OpenMarker(), q)
    ensures var x := p + (Block(root) + q);
            OpenMarker() != [] && Find(x, OpenMarker(), 0) == Some(|p|) && Count(x, OpenMarker(), 0) == 1
            && Find(x, CloseMarker(), |p|) == Some(|p| + 23 + |Body(root)|)
  {
    hide Body, Block, OpenMarker, CloseMarker, MarkerLike, Occurs, Count, At;
    var rest := Block(root) + q;
    var x := p + rest;
    Markers();
    BlockStarts(root, q);
    BlockThen(root, q);
    BlockCloses(root, q);
    AtRight(p, rest, OpenMarker(), 0);
    forall k: nat | At(x, OpenMarker(), k) ensures k == |p| {
      OpenBefore(p, rest, k);
      OpenInBlock(root, q, k - |p|);
    }
    SingleOccurrence(x, OpenMarker(), |p|);
    var close := |p| + 23 + |Body(root)|;
    AtRight(p, rest, CloseMarker(), 23 + |Body(root)|);
    forall k: nat | At(x, CloseMarker(), k) && k >= |p| ensures k >= close {
      AtRight(p, rest, CloseMarker(), k - |p|);
      CloseInBlock(root, q, k - |p|);
    }
  }

  lemma EndOfBlock(p: string, root: string, q: string)
    ensures var x, end := p + (Block(root) + q), |p| + 23 + |Body(root)| + 24;
            end < |x| && x[end..end + 1] == "\n" && x[|p|..end + 1] == Block(root)
            && x[..|p|] + Block(root) + x[end + 1..] == x
  {
    hide Body, Block, OpenMarker, CloseMarker;
    NewlineAt(root);
  }

  lemma NewlineAt(root: string)
    ensures |Block(root)| == 48 + |Body(root)| && Block(root)[47 + |Body(root)|] == '\n'
  {
    MarkersNonempty();
    hide Body, OpenMarker, CloseMarker;
  }

  /** The legacy form is the block without its close marker line. */
  lemma LegacyIs(root: string)
    requires Clean(root)
    ensures Legacy(root) == OpenMarker() + Body(root)
  {
    hide Body, OpenMarker, CloseMarker, Occurs, Block;
    var block, t := Block(root), CloseMarker() + "\n";
    var u := 23 + |Body(root)|;
    MarkersNonempty();
    BlockParts(root);
    FirstCloseLine(root);
    assert Remove(block, t, 0) == block[..u];
  }

  lemma BlockParts(root: string)
    ensures Block(root)[..23 + |Body(root)|] == OpenMarker() + Body(root)
    ensures |Block(root)| == 48 + |Body(root)|
  {
    MarkersNonempty();
    hide Body, OpenMarker, CloseMarker;
  }

  lemma FirstCloseLine(root: string)
    requires Clean(root)
    ensures At(Block(root), CloseMarker() + "\n", 23 + |Body(root)|)
    ensures forall k: nat :: At(Block(root), CloseMarker() + "\n", k) ==> k >= 23 + |Body(root)|
  {
    hide Body, OpenMarker, CloseMarker, Occurs, Block;
    var block, u := Block(root), 23 + |Body(root)|;
    MarkersNonempty();
    BlockCloses(root, "");
    assert block + "" == block;
    NewlineAt(root);
    assert block[u..u + 25] == block[u..u + 24] + [block[u + 24]];
    forall k: nat | At(block, CloseMarker() + "\n", k) ensures k >= u {
      assert block[k..k + 24] == block[k..k + 25][..24];
      CloseInBlock(root, "", k);
    }
  }

  /** Legacy form: a file with the block but no close marker has it replaced by the current block. */
  lemma LegacyIsUpgraded(p: string, root: string, q: string)
    requires Clean(root) && !Occurs(OpenMarker(), p) && !Occurs(OpenMarker(), q) && !Occurs(CloseMarker(), q)
    ensures RegistrationContent(p + (Legacy(root) + q), root) == Success(p + (Block(root) + q))
  {
    hide Body, Block, OpenMarker, CloseMarker, MarkerLike, Occurs, Count, Legacy, At, Find;
    var x := p + (Legacy(root) + q);
    MarkersNonempty();
    LegacySearches(p, root, q);
    LegacyAt(p, Legacy(root), q);
    assert p + Block(root) + q == p + (Block(root) + q);
  }

  lemma LegacyAt(p: string, l: string, q: string)
    ensures var x := p + (l + q); At(x, l, |p|) && x[..|p|] == p && x[|p| + |l|..] == q
  {
    assert (p + (l + q))[|p|..|p| + |l|] == l;
  }

  lemma {:induction false} LegacySearches(p: string, root: string, q: string)
    requires Clean(root) && !Occurs(OpenMarker(), p) && !Occurs(OpenMarker(), q) && !Occurs(CloseMarker(), q)
    ensures var x := p + (Legacy(root) + q);
            OpenMarker() != [] && Find(x, OpenMarker(), 0) == Some(|p|) && Count(x, OpenMarker(), 0) == 1
            && Find(x, CloseMarker(), |p|) == None
  {
    hide Body, Block, OpenMarker, CloseMarker, MarkerLike, Occurs, Count, Legacy;
    LegacyIs(root);
    Markers();
    var rest := OpenMarker() + (Body(root) + q);
    assert Legacy(root) + q == rest;
    var x := p + rest;
    AtRight(p, rest, OpenMarker(), 0);
    forall k: nat | At(x, OpenMarker(), k) ensures k == |p| {
      OpenBefore(p, rest, k);
      OpenInLegacy(root, q, k - |p|);
    }
    SingleOccurrence(x, OpenMarker(), |p|);
    forall k: nat | k >= |p| ensures !At(x, CloseMarker(), k) {
      AtRight(p, rest, CloseMarker(), k - |p|);
      NoCloseInLegacy(root, q, k - |p|);
    }
  }

  lemma OpenInLegacy(root: string, q: string, i: nat)
    requires !Occurs(OpenMarker(), root) && !Occurs(OpenMarker(), q)
             && At(OpenMarker() + (Body(root) + q), OpenMarker(), i)
    ensures i == 0
  {
    Markers();
    hide Body, OpenMarker, MarkerLike;
    if i > 0 {
      SkipMarker(OpenMarker(), Body(root) + q, OpenMarker(), i);
      BodyClean(root, q, OpenMarker(), i - 23);
    }
  }

  lemma NoCloseInLegacy(root: string, q: string, i: nat)
    requires !Occurs(CloseMarker(), root) && !Occurs(CloseMarker(), q)
    ensures !At(OpenMarker() + (Body(root) + q), CloseMarker(), i)
  {
    Markers();
    hide Body, OpenMarker, CloseMarker;
    if At(OpenMarker() + (Body(root) + q), CloseMarker(), i) {
      OtherMarker(OpenMarker(), Body(root) + q, CloseMarker(), i);
      SkipMarker(OpenMarker(), Body(root) + q, CloseMarker(), i);
      BodyClean(root, q, CloseMarker(), i - 23);
    }
  }

  /** A block whose root contains a marker is refused by the next rewrite. */
  lemma UncleanIsRefused(p: string, root: string, q: string)
    requires !Clean(root) && !Occurs(OpenMarker(), p)
    ensures RegistrationContent(p + (Block(root) + q), root).Failure?
  {
    hide Body, Block, OpenMarker, CloseMarker, MarkerLike, Legacy, Count, At, Find;
    var x := p + (Block(root) + q);
    MarkersNonempty();
    FirstOpen(p, root, q);
    if Occurs(OpenMarker(), root) {
      CountsAnother(p, root, q);
    } else {
      ClosesEarly(p, root, q);
    }
  }

  lemma FirstOpen(p: string, root: string, q: string)
    requires !Occurs(OpenMarker(), p)
    ensures OpenMarker() != [] && Find(p + (Block(root) + q), OpenMarker(), 0) == Some(|p|)
  {
    hide Body, Block, OpenMarker, Occurs, At;
    var rest := Block(root) + q;
    MarkersNonempty();
    BlockStarts(root, q);
    AtRight(p, rest, OpenMarker(), 0);
    forall k: nat | At(p + rest, OpenMarker(), k) ensures k >= |p| { OpenBefore(p, rest, k); }
  }

  lemma CountsAnother(p: string, root: string, q: string)
    requires !Occurs(OpenMarker(), p) && Occurs(OpenMarker(), root)
    ensures OpenMarker() != [] && Count(p + (Block(root) + q), OpenMarker(), 0) != 1
  {
    hide Body, Block, OpenMarker, Count, At, Lead;
    var x := p + (Block(root) + q);
    MarkersNonempty();
    FirstOpen(p, root, q);
    var j: nat :| At(root, OpenMarker(), j);
    InnerAt(p, root, q, OpenMarker(), j);
    if Count(x, OpenMarker(), 0) == 1 { CountedOnce(x, OpenMarker(), |p|); }
  }

  lemma ClosesEarly(p: string, root: string, q: string)
    requires Occurs(CloseMarker(), root)
    ensures var x := p + (Block(root) + q);
            var close := Find(x, CloseMarker(), |p|);
            close.Some? && close.value + |CloseMarker()| + 1 < |p| + |Block(root)| && close.value >= |p|
            && close.value + |CloseMarker()| <= |x|
  {
    hide Body, Block, CloseMarker, Lead;
    var j: nat :| At(root, CloseMarker(), j);
    InnerAt(p, root, q, CloseMarker(), j);
  }

  lemma InnerAt(p: string, root: string, q: string, t: string, j: nat)
    requires At(root, t, j)
    ensures var k := |p| + 23 + |Lead()| + j;
            At(p + (Block(root) + q), t, k) && k + |t| + 1 < |p| + |Block(root)|
  {
    MarkersNonempty();
    BlockThen(root, q);
    hide Body, Block, OpenMarker, CloseMarker, Lead;
    var close := CloseMarker() + ("\n" + q);
    RootInBody(root, close, t, j);
    AtRight(OpenMarker(), Body(root) + close, t, |Lead()| + j);
    AtRight(p, Block(root) + q, t, 23 + |Lead()| + j);
  }

  // ---- Main results ----

  /** How a successful rewrite splits the file: what is before and after the old block, and the old block. */
  datatype Split = Split(before: string, block: string, after: string)

  /** The rewrite replaces the split block by the block and keeps every byte around it. */
  ghost predicate Rewrites(existing: string, written: string, root: string, s: Split) {
    && existing == s.before + (s.block + s.after)
    && !Occurs(OpenMarker(), s.before)
    && if s.block == "" then s.after == "" && written == existing + Separator(existing) + Block(root)
       else s.block in {Block(root), Legacy(root)} && written == s.before + (Block(root) + s.after)
  }

  /** Every byte outside the owned block is preserved, whatever the root and the file contain. */
  lemma OutsideIsPreserved(existing: string, root: string) returns (s: Split)
    requires RegistrationContent(existing, root).Success?
    ensures Rewrites(existing, RegistrationContent(existing, root).value, root, s)
    ensures s.block != "" ==> !Occurs(OpenMarker(), s.after)
    ensures s.block != "" && s.block != Block(root) ==> !Occurs(CloseMarker(), s.after)
  {
    MarkersNonempty();
    BlockParts(root);
    hide Body, Block, OpenMarker, CloseMarker, Legacy, Count, At, Occurs, Separator, Find;
    match Find(existing, OpenMarker(), 0)
    case None =>
      NeverOccurs(existing);
      s := Split(existing, "", "");
      assert existing + ("" + "") == existing;
    case Some(start) =>
      NothingBefore(existing, start);
      match Find(existing, CloseMarker(), start)
      case Some(close) =>
        var end := close + |CloseMarker()|;
        var end' := if end < |existing| && existing[end..end + 1] == "\n" then end + 1 else end;
        AtIs(existing, CloseMarker(), close);
        s := SplitAt(existing, start, end', Block(root));
        assert s.block == Block(root);
        NothingAfter(existing, start, end');
      case None =>
        LegacyNonempty(root);
        AtIs(existing, Legacy(root), start);
        s := SplitAt(existing, start, start + |Legacy(root)|, Block(root));
        NothingAfter(existing, start, start + |Legacy(root)|);
        NoCloseAfter(existing, start, start + |Legacy(root)|);
  }

  lemma NoCloseAfter(existing: string, start: nat, j: nat)
    requires Find(existing, CloseMarker(), start) == None && start <= j <= |existing|
    ensures !Occurs(CloseMarker(), existing[j..])
  {
    hide CloseMarker;
    assert existing == existing[..j] + existing[j..];
    forall i: nat
      ensures !At(existing[j..], CloseMarker(), i)
    {
      AtRight(existing[..j], existing[j..], CloseMarker(), i);
    }
  }

  lemma SplitAt(x: string, i: nat, j: nat, block: string) returns (s: Split)
    requires i <= j <= |x|
    ensures s == Split(x[..i], x[i..j], x[j..]) && x == s.before + (s.block + s.after)
    ensures x[..i] + block + x[j..] == s.before + (block + s.after)
  {
    s := Split(x[..i], x[i..j], x[j..]);
  }

  lemma AtIs(s: string, t: string, i: nat)
    requires At(s, t, i)
    ensures i + |t| <= |s| && s[i..i + |t|] == t
  {
  }

  lemma NeverOccurs(existing: string)
    requires Find(existing, OpenMarker(), 0) == None
    ensures !Occurs(OpenMarker(), existing)
  {
  }

  lemma SuffixFree(s: string, t: string, j: nat)
    requires j <= |s| && forall k: nat :: k >= j ==> !At(s, t, k)
    ensures !Occurs(t, s[j..])
  {
    hide At;
    assert s == s[..j] + s[j..];
    forall i: nat ensures !At(s[j..], t, i) { AtRight(s[..j], s[j..], t, i); }
  }

  lemma NothingAfter(existing: string, start: nat, j: nat)
    requires OpenMarker() != [] && Find(existing, OpenMarker(), 0) == Some(start)
             && Count(existing, OpenMarker(), 0) == 1
    requires start + |OpenMarker()| <= j <= |existing|
    ensures !Occurs(OpenMarker(), existing[j..])
  {
    hide OpenMarker, Count, Find, At, Occurs;
    CountedOnce(existing, OpenMarker(), start);
    SuffixFree(existing, OpenMarker(), j);
  }

  lemma NothingBefore(existing: string, start: nat)
    requires Find(existing, OpenMarker(), 0) == Some(start)
    ensures !Occurs(OpenMarker(), existing[..start])
  {
    MarkersNonempty();
    hide OpenMarker;
    forall i: nat ensures !At(existing[..start], OpenMarker(), i) {
      if At(existing[..start], OpenMarker(), i) {
        assert existing == existing[..start] + existing[start..];
        AtLeft(existing[..start], existing[start..], OpenMarker(), i);
      }
    }
  }

  /** The legacy form keeps at least the open marker. */
  lemma LegacyNonempty(root: string)
    ensures |Legacy(root)| >= 23
  {
    var block, t := Block(root), CloseMarker() + "\n";
    MarkersNonempty();
    BlockThen(root, "");
    assert block + "" == block;
    hide Body, OpenMarker, CloseMarker;
    var i := Find(block, t, 0);
    if i.Some? {
      FirstCloseIsLater(root, i.value);
    }
  }

  lemma FirstCloseIsLater(root: string, i: nat)
    requires At(Block(root), CloseMarker() + "\n", i)
    ensures i >= 23
  {
    var block := Block(root);
    Markers();
    hide Body, OpenMarker, CloseMarker;
    assert block[i..i + 24] == block[i..i + 25][..24];
    assert At(block, CloseMarker(), i);
    OtherMarker(OpenMarker(), Body(root) + (CloseMarker() + "\n"), CloseMarker(), i);
    SkipMarker(OpenMarker(), Body(root) + (CloseMarker() + "\n"), CloseMarker(), i);
  }

  lemma FindsWhatOccurs(existing: string)
    ensures Find(existing, OpenMarker(), 0).Some? ==> Occurs(OpenMarker(), existing)
  {
    hide OpenMarker;
    match Find(existing, OpenMarker(), 0)
    case Some(start) => assert At(existing, OpenMarker(), start);
    case None =>
  }

  /** A new block starts on a line of its own, behind the whole file; a newline is added only where one is missing. */
  lemma AppendedOnItsOwnLine(existing: string, root: string) returns (lead: string)
    requires !Occurs(OpenMarker(), existing)
    ensures RegistrationContent(existing, root) == Success(lead + Block(root))
    ensures lead == "" || lead[|lead| - 1] == '\n'
    ensures lead == if existing == "" || existing[|existing| - 1] == '\n' then existing else existing + "\n"
  {
    lead := existing + Separator(existing);
    MarkersNonempty();
    FindsWhatOccurs(existing);
    hide Block, OpenMarker, Find, Occurs;
  }

  lemma SeparatorKeepsClean(existing: string)
    requires !Occurs(OpenMarker(), existing)
    ensures !Occurs(OpenMarker(), existing + Separator(existing))
  {
    Markers();
    hide OpenMarker;
    var s := existing + Separator(existing);
    forall i: nat ensures !At(s, OpenMarker(), i) {
      if At(s, OpenMarker(), i) {
        CharAt(s, OpenMarker(), i, 22);
        LastChar();
        AtLeft(existing, Separator(existing), OpenMarker(), i);
      }
    }
  }

  lemma LastChar()
    ensures |OpenMarker()| == 23 && OpenMarker()[22] == '>'
  {
  }

  ghost predicate IsCurrent(existing: string, root: string, p: string, q: string) {
    existing == p + (Block(root) + q) && !Occurs(OpenMarker(), p) && !Occurs(OpenMarker(), q)
  }

  ghost predicate IsLegacy(existing: string, root: string, p: string, q: string) {
    existing == p + (Legacy(root) + q) && !Occurs(OpenMarker(), p) && !Occurs(OpenMarker(), q)
        && !Occurs(CloseMarker(), q)
  }

  /** For a clean root the rewrite succeeds on exactly three forms: no block, one current block, one legacy block. */
  lemma RewriteSucceedsExactly(existing: string, root: string)
    requires Clean(root)
    ensures RegistrationContent(existing, root).Success? <==>
              !Occurs(OpenMarker(), existing)
              || (exists p, q :: IsCurrent(existing, root, p, q))
              || (exists p, q :: IsLegacy(existing, root, p, q))
  {
    hide RegistrationContent, Block, OpenMarker, CloseMarker, Legacy, Separator, Occurs;
    if RegistrationContent(existing, root).Success? {
      var s := OutsideIsPreserved(existing, root);
      if s.block == "" {
        assert existing == s.before;
      } else if s.block == Block(root) {
        assert IsCurrent(existing, root, s.before, s.after);
      } else {
        assert IsLegacy(existing, root, s.before, s.after);
      }
    }
    if !Occurs(OpenMarker(), existing) { AbsentSucceeds(existing, root); }
    if p, q :| IsCurrent(existing, root, p, q) { CurrentIsUnchanged(p, root, q); }
    if p, q :| IsLegacy(existing, root, p, q) { LegacyIsUpgraded(p, root, q); }
  }

  lemma AbsentSucceeds(existing: string, root: string)
    requires !Occurs(OpenMarker(), existing)
    ensures RegistrationContent(existing, root) == Success(existing + Separator(existing) + Block(root))
  {
    hide Block, OpenMarker, CloseMarker, Legacy, Count, Separator;
  }

  /**
   Idempotence: a successful rewrite is a fixed point exactly when the skill root contains neither marker; with
   a marker in the root the next rewrite refuses its own output.
   */
  lemma RewriteIsIdempotent(existing: string, root: string)
    requires RegistrationContent(existing, root).Success?
    ensures var written := RegistrationContent(existing, root).value;
            && (RegistrationContent(written, root) == Success(written) <==> Clean(root))
            && (!Clean(root) ==> RegistrationContent(written, root).Failure?)
  {
    var written := RegistrationContent(existing, root).value;
    var s := OutsideIsPreserved(existing, root);
    BlockStarts(root, "");
    assert Block(root) + "" == Block(root);
    hide RegistrationContent, Block, OpenMarker, CloseMarker, Legacy, Separator;
    if s.block == "" {
      assert existing == s.before;
      SeparatorKeepsClean(existing);
      var p := existing + Separator(existing);
      NoneInEmpty();
      assert written == p + (Block(root) + "");
      if Clean(root) { CurrentIsUnchanged(p, root, ""); } else { UncleanIsRefused(p, root, ""); }
    } else if s.block == Block(root) {
      assert written == existing;
      if !Clean(root) { UncleanIsRefused(s.before, root, s.after); }
    } else {
      if Clean(root) {
        CurrentIsUnchanged(s.before, root, s.after);
      } else {
        UncleanIsRefused(s.before, root, s.after);
      }
    }
  }

  lemma NoneInEmpty()
    ensures !Occurs(OpenMarker(), "")
  {
    MarkersNonempty();
  }

  /** At an input: a skill root below a directory named like the opening marker is registered once and then refused. */
  lemma MarkerInRootIsRefused()
    ensures var root := "/opt/" + OpenMarker();
            && RegistrationContent("", root).Success?
            && RegistrationContent(RegistrationContent("", root).value, root).Failure?
  {
    var root := "/opt/" + OpenMarker();
    MarkersNonempty();
    assert Find("", OpenMarker(), 0) == None;
    hide OpenMarker, Block, Separator;
    assert At(root, OpenMarker(), 5);
    RewriteIsIdempotent("", root);
  }
}
