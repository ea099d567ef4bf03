/**
 The local Git reads of scripts/_mark_batch_covered.py over an abstract object store:
 each commit has a tree of entries, and a revision resolves to a commit.
 */
module GitObjects {
  import opened Wrappers
  import opened Sequences
  import Sorting
  import opened Packing
  import Paths

  const MAX_CHUNK_PATHS: nat := 200
  const MAX_CHUNK_BYTES: nat := 32_000

  datatype Kind = Blob | Gitlink | Tree

  datatype Entry = Entry(kind: Kind, oid: string)

  /** `commits` maps an object ID to the commit it peels to; `trees` holds the entries of each commit. */
  datatype Repo = Repo(trees: map<string, map<string, Entry>>, commits: map<string, string>)

  predicate HexDigit(c: char) {
    '0' <= c <= '9' || 'a' <= c <= 'f'
  }

  /** `_OID_RE`. */
  predicate ValidOid(oid: string) {
    (|oid| == 40 || |oid| == 64) && forall i :: 0 <= i < |oid| ==> HexDigit(oid[i])
  }

  // ---- Object IDs ----

  type Byte = n: nat | n < 256

  function Digit(n: nat): char
    requires n < 16
  {
    if n < 10 then ('0' as int + n) as char else ('a' as int + n - 10) as char
  }

  /** A hash in lower-case hexadecimal, two digits a byte. */
  function Hex(hash: seq<Byte>): string {
    if hash == [] then "" else Hex(hash[..|hash| - 1]) + Digits(hash[|hash| - 1])
  }

  function Digits(b: Byte): string {
    [Digit(b / 16), Digit(b % 16)]
  }

  lemma DigitIs(c: char) returns (n: nat)
    requires HexDigit(c)
    ensures n < 16 && Digit(n) == c
  {
    n := if c <= '9' then c as int - '0' as int else c as int - 'a' as int + 10;
  }

  lemma DigitsAreHex(b: Byte)
    ensures |Digits(b)| == 2 && HexDigit(Digits(b)[0]) && HexDigit(Digits(b)[1])
  {
  }

  lemma {:induction false} HexIsDigits(hash: seq<Byte>)
    ensures |Hex(hash)| == 2 * |hash| && forall i :: 0 <= i < |Hex(hash)| ==> HexDigit(Hex(hash)[i])
  {
    if hash != [] {
      var n := |hash| - 1;
      HexIsDigits(hash[..n]);
      DigitsAreHex(hash[n]);
      hide Digits, HexDigit;
    }
  }

  lemma HexSnoc(front: seq<Byte>, last: Byte)
    ensures Hex(front + [last]) == Hex(front) + Digits(last)
  {
    hide Digits;
    assert (front + [last])[..|front|] == front;
  }

  lemma DigitsOf(high: nat, low: nat)
    requires high < 16 && low < 16
    ensures Digits(16 * high + low) == [Digit(high), Digit(low)]
  {
    var b := 16 * high + low;
    assert b / 16 == high && b % 16 == low;
    hide Digit;
  }

  lemma {:induction false} HashOf(oid: string) returns (hash: seq<Byte>)
    requires |oid| % 2 == 0 && forall i :: 0 <= i < |oid| ==> HexDigit(oid[i])
    ensures Hex(hash) == oid
  {
    hash := [];
    if oid != [] {
      hide HexDigit, Hex, Digits;
      var n := |oid| - 2;
      assert oid == oid[..n] + [oid[n], oid[n + 1]];
      var front := HashOf(oid[..n]);
      var high := DigitIs(oid[n]);
      var low := DigitIs(oid[n + 1]);
      DigitsOf(high, low);
      HexSnoc(front, 16 * high + low);
      hash := front + [16 * high + low];
    }
  }

  /** An object ID is valid exactly when it prints a hash of 20 or 32 bytes. */
  lemma ValidOidPrintsAHash(oid: string)
    ensures ValidOid(oid) <==> exists hash: seq<Byte> :: (|hash| == 20 || |hash| == 32) && Hex(hash) == oid
  {
    hide Hex, HexDigit;
    if ValidOid(oid) {
      var hash := HashOf(oid);
      HexIsDigits(hash);
      assert |hash| == 20 || |hash| == 32;
    }
    forall hash: seq<Byte> | (|hash| == 20 || |hash| == 32) && Hex(hash) == oid ensures ValidOid(oid) {
      HexIsDigits(hash);
    }
  }

  function ChunkLimits(): Limits<string> {
    Limits((p: string) => Some(Paths.Utf8Length(p)), MAX_CHUNK_PATHS, MAX_CHUNK_BYTES)
  }

  /** One round of the chunking loop, for the first path of `xs`. */
  method AddPath(chunks: seq<seq<string>>, current: seq<string>, currentBytes: nat, path: string,
                 ghost xs: seq<string>, ghost whole: seq<seq<string>>)
      returns (chunks': seq<seq<string>>, current': seq<string>, bytes': nat)
    requires xs != [] && xs[0] == path && OnCourse(chunks, current, xs, whole, ChunkLimits())
    requires currentBytes == KnownWeight(current, ChunkLimits()) && AllKnown(current, ChunkLimits())
    ensures OnCourse(chunks', current', xs[1..], whole, ChunkLimits())
    ensures bytes' == KnownWeight(current', ChunkLimits()) && AllKnown(current', ChunkLimits())
  {
    hide Greedy, KnownWeight, OnCourse, Fits, Paths.Utf8Length;
    ghost var lim := ChunkLimits();
    chunks', current', bytes' := chunks, current, currentBytes;
    var pathBytes := Paths.Utf8Length(path);
    assert lim.weight(path) == Some(pathBytes);
    if current != [] { GrowTest(current, path, pathBytes, lim); }
    if current != [] && (|current| >= MAX_CHUNK_PATHS || currentBytes + pathBytes > MAX_CHUNK_BYTES) {
      StepClose(chunks, current, xs, whole, lim);
      NoWeight(lim);
      chunks' := chunks + [current];
      current', bytes' := [], 0;
    }
    StepGrow(chunks', current', xs, whole, lim);
    WeightGrows(current', path, pathBytes, lim);
    current' := current' + [path];
    bytes' := bytes' + pathBytes;
  }

  /** `_path_chunks` is the greedy packing under the command-line limits. */
  method PathChunks(files: seq<string>) returns (chunks: seq<seq<string>>)
    ensures chunks == Greedy(files, ChunkLimits())
    ensures Flatten(chunks) == files && forall i :: 0 <= i < |chunks| ==> chunks[i] != []
  {
    ghost var lim := ChunkLimits();
    ghost var whole := Greedy(files, lim);
    var current: seq<string>, currentBytes := [], 0;
    chunks := [];
    GreedyIsLegal(files, lim);
    NoWeight(lim);
    EmptyLeft(files);
    EmptyLeft(whole);
    assert files[0..] == files;
    hide Greedy, KnownWeight, AllKnown, Flatten, OnCourse, ChunkLimits;
    var i := 0;
    while i < |files|
      invariant 0 <= i <= |files|
      invariant OnCourse(chunks, current, files[i..], whole, lim)
      invariant currentBytes == KnownWeight(current, lim) && AllKnown(current, lim)
    {
      assert files[i..][1..] == files[i + 1..];
      chunks, current, currentBytes := AddPath(chunks, current, currentBytes, files[i], files[i..], whole);
      i := i + 1;
    }
    assert files[i..] == [];
    StepClose(chunks, current, [], whole, lim);
    if current != [] {
      chunks := chunks + [current];
    }
  }

  // ---- ls-tree ----

  function Tracked(tree: map<string, Entry>, paths: seq<string>): seq<(string, Entry)> {
    if paths == [] then []
    else
      var front, path := paths[..|paths| - 1], paths[|paths| - 1];
      if path in tree then Tracked(tree, front) + [(path, tree[path])] else Tracked(tree, front)
  }

  /** `git ls-tree <head> -- <chunk>`: one record for each distinct tracked path. */
  function LsTree(repo: Repo, head: string, chunk: seq<string>): Option<seq<(string, Entry)>> {
    if head in repo.trees then Some(Tracked(repo.trees[head], Sorting.Dedup(chunk))) else None
  }

  predicate Exact(tree: map<string, Entry>, path: string) {
    path in tree && tree[path].kind in {Blob, Gitlink} && ValidOid(tree[path].oid)
  }

  predicate AllExact(repo: Repo, head: string, files: seq<string>) {
    files == [] || (head in repo.trees && forall f :: f in files ==> Exact(repo.trees[head], f))
  }

  function BlobMap(repo: Repo, head: string, files: seq<string>): map<string, string>
    requires AllExact(repo, head, files)
  {
    if files == [] then map[] else map f | f in files :: repo.trees[head][f].oid
  }

  lemma TrackedMembers(tree: map<string, Entry>, paths: seq<string>)
    ensures forall i :: 0 <= i < |Tracked(tree, paths)| ==>
              var r := Tracked(tree, paths)[i]; r.0 in paths && r.0 in tree && r.1 == tree[r.0]
    ensures forall p :: p in paths && p in tree ==> (p, tree[p]) in Tracked(tree, paths)
  {
    if paths != [] {
      TrackedMembers(tree, paths[..|paths| - 1]);
      assert paths == paths[..|paths| - 1] + [paths[|paths| - 1]];
    }
  }

  lemma TrackedDistinct(tree: map<string, Entry>, paths: seq<string>)
    requires Distinct(paths)
    ensures forall i, j :: 0 <= i < j < |Tracked(tree, paths)| ==>
              Tracked(tree, paths)[i].0 != Tracked(tree, paths)[j].0
  {
    if paths != [] {
      TrackedDistinct(tree, paths[..|paths| - 1]);
      TrackedMembers(tree, paths[..|paths| - 1]);
    }
  }

  /** The inner loop of `_blob_oids`: take over one chunk's tree records. */
  method TakeRecords(records: seq<(string, Entry)>, requested: set<string>, known: map<string, string>)
      returns (r: Option<map<string, string>>)
    requires forall i, j :: 0 <= i < j < |records| ==> records[i].0 != records[j].0
    requires forall i :: 0 <= i < |records| ==> records[i].0 in requested && records[i].0 !in known
    ensures r.Some? <==> forall i :: 0 <= i < |records| ==>
              records[i].1.kind in {Blob, Gitlink} && ValidOid(records[i].1.oid)
    ensures r.Some? ==>
              && (forall f :: f in r.value <==> f in known || exists i :: 0 <= i < |records| && records[i].0 == f)
              && (forall f :: f in known ==> r.value[f] == known[f])
              && (forall i :: 0 <= i < |records| ==> r.value[records[i].0] == records[i].1.oid)
  {
    hide ValidOid;
    var result := known;
    for i := 0 to |records|
      invariant forall k :: 0 <= k < i ==> records[k].1.kind in {Blob, Gitlink} && ValidOid(records[k].1.oid)
      invariant forall f :: f in result <==> f in known || exists k :: 0 <= k < i && records[k].0 == f
      invariant forall f :: f in known ==> result[f] == known[f]
      invariant forall k :: 0 <= k < i ==> result[records[k].0] == records[k].1.oid
    {
      var (path, entry) := records[i];
      if entry.kind !in {Blob, Gitlink} {
        return None;
      }
      if path !in requested || path in result || !ValidOid(entry.oid) {
        return None;
      }
      result := result[path := entry.oid];
    }
    r := Some(result);
  }

  /** What the loop of `_blob_oids` has gathered once the paths `seen` are looked up. */
  ghost predicate Gathered(repo: Repo, head: string, seen: seq<string>, result: map<string, string>) {
    && (seen != [] ==> head in repo.trees)
    && (forall f :: f in result <==> f in seen && head in repo.trees && f in repo.trees[head])
    && (forall f :: f in result ==> Exact(repo.trees[head], f) && result[f] == repo.trees[head][f].oid)
  }

  /** One round of the chunk loop. */
  method LookUpChunk(repo: Repo, head: string, chunk: seq<string>, requested: set<string>, known: map<string, string>,
                     ghost seen: seq<string>)
      returns (r: Option<map<string, string>>)
    requires chunk != [] && Gathered(repo, head, seen, known)
    requires forall p :: p in chunk ==> p !in seen && p in requested
    ensures r.Some? ==> Gathered(repo, head, seen + chunk, r.value)
    ensures r.None? ==> head !in repo.trees || exists f :: f in chunk && !Exact(repo.trees[head], f)
  {
    hide ValidOid;
    var listed := LsTree(repo, head, chunk);
    if listed.None? {
      return None;
    }
    ghost var tree := repo.trees[head];
    Sorting.DedupCorrect(chunk);
    TrackedMembers(tree, Sorting.Dedup(chunk));
    TrackedDistinct(tree, Sorting.Dedup(chunk));
    hide LsTree, Tracked, Sorting.Dedup;
    var records := listed.value;
    r := TakeRecords(records, requested, known);
    if r.None? {
      ghost var k :| 0 <= k < |records| && !(records[k].1.kind in {Blob, Gitlink} && ValidOid(records[k].1.oid));
      assert records[k].0 in chunk && !Exact(tree, records[k].0);
    } else {
      ChunkTaken(tree, chunk, records, known, r.value, seen);
    }
  }

  /** `_blob_oids`: all requested paths are exact tracked objects, or the lookup fails. Callers pass distinct paths. */
  method BlobOids(repo: Repo, head: string, files: seq<string>) returns (r: Result<map<string, string>>)
    requires Distinct(files)
    ensures r.Success? <==> AllExact(repo, head, files)
    ensures r.Success? ==> r.value == BlobMap(repo, head, files)
  {
    var requested := Elements(files);
    var result: map<string, string> := map[];
    var chunks := PathChunks(files);
    ghost var seen: seq<string> := [];
    EmptyLeft(files);
    assert chunks[0..] == chunks;
    NothingFlattens();
    for i := 0 to |chunks|
      invariant seen + Flatten(chunks[i..]) == files
      invariant Gathered(repo, head, seen, result)
    {
      NextChunk(seen, chunks[i], Flatten(chunks[i + 1..]), files);
      hide Gathered, Flatten, Exact, Distinct;
      var taken := LookUpChunk(repo, head, chunks[i], requested, result, seen);
      if taken.None? {
        assert files != [] && !AllExact(repo, head, files);
        return Failure("local Git returned an unexpected tree record");
      }
      result := taken.value;
      seen := seen + chunks[i];
    }
    assert chunks[|chunks|..] == [] && seen + [] == seen;
    LookupVerdict(repo, head, files, result);
    if result.Keys != requested {
      return Failure("selected batch has paths that are not exact tracked objects");
    }
    r := Success(result);
  }

  lemma LookupVerdict(repo: Repo, head: string, files: seq<string>, result: map<string, string>)
    requires Gathered(repo, head, files, result)
    ensures result.Keys == Elements(files) <==> AllExact(repo, head, files)
    ensures AllExact(repo, head, files) ==> result == BlobMap(repo, head, files)
  {
    hide ValidOid;
    if result.Keys == Elements(files) {
      forall f | f in files ensures Exact(repo.trees[head], f) {
        assert f in Elements(files);
        assert f in result;
      }
    }
    if AllExact(repo, head, files) {
      forall f ensures f in result <==> f in Elements(files) { }
    }
  }

  lemma NothingFlattens()
    ensures Flatten<string>([]) == []
  {
  }

  lemma NextChunk(seen: seq<string>, chunk: seq<string>, rest: seq<string>, files: seq<string>)
    requires Distinct(files) && seen + (chunk + rest) == files
    ensures (seen + chunk) + rest == files
    ensures forall p :: p in chunk ==> p !in seen && p in files
    ensures chunk != [] ==> files != []
  {
    Associative(seen, chunk, rest);
    forall p | p in chunk ensures p !in seen && p in files {
      var j :| 0 <= j < |chunk| && chunk[j] == p;
      assert files[|seen| + j] == p;
      forall i | 0 <= i < |seen| ensures seen[i] != p { assert files[i] == seen[i]; }
    }
  }

  lemma ChunkTaken(tree: map<string, Entry>, chunk: seq<string>, records: seq<(string, Entry)>,
                   before: map<string, string>, after: map<string, string>, seen: seq<string>)
    requires forall i :: 0 <= i < |records| ==>
               records[i].0 in chunk && records[i].0 in tree && records[i].1 == tree[records[i].0]
    requires forall p :: p in chunk && p in tree ==> (p, tree[p]) in records
    requires forall i :: 0 <= i < |records| ==> records[i].1.kind in {Blob, Gitlink} && ValidOid(records[i].1.oid)
    requires forall f :: f in after <==> f in before || exists i :: 0 <= i < |records| && records[i].0 == f
    requires forall f :: f in before ==> after[f] == before[f]
    requires forall i :: 0 <= i < |records| ==> after[records[i].0] == records[i].1.oid
    requires forall f :: f in before <==> f in seen && f in tree
    requires forall f :: f in before ==> Exact(tree, f) && before[f] == tree[f].oid
    ensures forall f :: f in after <==> f in seen + chunk && f in tree
    ensures forall f :: f in after ==> Exact(tree, f) && after[f] == tree[f].oid
  {
    hide ValidOid;
    forall f | f in chunk && f in tree ensures f in after {
      var i :| 0 <= i < |records| && records[i] == (f, tree[f]);
      assert records[i].0 == f;
    }
  }

  // ---- Grouped lookups ----

  /** One lookup for several file lists at the same commit agrees with one lookup per list. */
  lemma {:induction false} GroupedLookupAgrees(repo: Repo, head: string, lists: seq<seq<string>>)
    ensures AllExact(repo, head, Flatten(lists)) <==> forall i :: 0 <= i < |lists| ==> AllExact(repo, head, lists[i])
    ensures AllExact(repo, head, Flatten(lists)) ==>
              forall i, f :: 0 <= i < |lists| && f in lists[i] ==>
                f in BlobMap(repo, head, Flatten(lists))
                && BlobMap(repo, head, Flatten(lists))[f] == BlobMap(repo, head, lists[i])[f]
  {
    hide ValidOid, Exact, Flatten;
    var all := Flatten(lists);
    forall f ensures f in all <==> exists i :: 0 <= i < |lists| && f in lists[i] { InFlatten(lists, f); }
    forall i | 0 <= i < |lists| && lists[i] != [] ensures all != [] { assert lists[i][0] in all; }
    if all != [] { assert all[0] in all; }
    if forall i :: 0 <= i < |lists| ==> AllExact(repo, head, lists[i]) {
      forall f | f in all ensures head in repo.trees && Exact(repo.trees[head], f) {
        var i :| 0 <= i < |lists| && f in lists[i];
        assert AllExact(repo, head, lists[i]);
      }
    }
  }

  /** A chunk holds at most 200 paths, and more than one only if they take at most 32000 bytes. */
  lemma {:induction false} ChunksAreSmall(files: seq<string>, i: nat)
    requires i < |Greedy(files, ChunkLimits())|
    ensures var chunk := Greedy(files, ChunkLimits())[i];
            1 <= |chunk| <= 200 && (|chunk| == 1 || ChunkBytes(chunk) <= 32_000)
  {
    GreedyIsLegal(files, ChunkLimits());
    var chunk := Greedy(files, ChunkLimits())[i];
    assert Fits(chunk, ChunkLimits());
    WeightIsBytes(chunk);
  }

  function ChunkBytes(chunk: seq<string>): nat {
    if chunk == [] then 0 else ChunkBytes(chunk[..|chunk| - 1]) + Paths.Utf8Length(chunk[|chunk| - 1])
  }

  lemma {:induction false} WeightIsBytes(chunk: seq<string>)
    ensures KnownWeight(chunk, ChunkLimits()) == ChunkBytes(chunk)
  {
    if chunk != [] { WeightIsBytes(chunk[..|chunk| - 1]); }
  }
}
