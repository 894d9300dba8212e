/** Archive creation: chunk, deduplicate, index and seal; and the proof that
    verification undoes all of it. */
module Creation {
  import opened Bytes
  import opened Manifest
  import opened Verification
  import opened Chunking

  datatype FileInfo = FileInfo(mode: nat, modTime: int, data: Bytes)

  /** The readable files, by absolute path. */
  type FileSystem = map<Bytes, FileInfo>

  /** Where a file is read from, and the path it is archived under. */
  datatype Source = Source(abs: Bytes, rel: Bytes)

  datatype Archive = Archive(manifest: Manifest, blocks: Blocks)

  // ---------------------------------------------------------------- sources

  predicate DistinctPaths(sources: seq<Source>)
  {
    forall i, j :: 0 <= i < j < |sources| ==> sources[i].rel != sources[j].rel
  }

  /** The first candidate that claims `rel`. */
  predicate FirstClaim(candidates: seq<Source>, s: Source)
  {
    exists i :: 0 <= i < |candidates| && candidates[i] == s && forall k :: 0 <= k < i ==> candidates[k].rel != s.rel
  }

  /** The archive holds each claimed path once, in path order, read from the
      first candidate that claimed it. */
  ghost predicate IsCollection(candidates: seq<Source>, sources: seq<Source>)
  {
    && (forall i, j :: 0 <= i < j < |sources| ==> Less(sources[i].rel, sources[j].rel))
    && (forall s :: s in sources <==> FirstClaim(candidates, s))
  }

  lemma FirstClaimUnique(candidates: seq<Source>, s: Source, u: Source)
    requires FirstClaim(candidates, s) && FirstClaim(candidates, u) && s.rel == u.rel
    ensures s == u
  {
  }

  /** Appending a candidate adds a claim exactly when its path is new. */
  lemma FirstClaimSnoc(candidates: seq<Source>, c: Source, s: Source)
    ensures FirstClaim(candidates + [c], s) <==>
              FirstClaim(candidates, s) || (s == c && forall k :: 0 <= k < |candidates| ==> candidates[k].rel != c.rel)
  {
    var all := candidates + [c];
    assert forall k :: 0 <= k < |candidates| ==> all[k] == candidates[k];
    if FirstClaim(candidates, s) {
      var i :| 0 <= i < |candidates| && candidates[i] == s && forall k :: 0 <= k < i ==> candidates[k].rel != s.rel;
      assert all[i] == s;
    }
    if s == c && forall k :: 0 <= k < |candidates| ==> candidates[k].rel != c.rel {
      assert all[|candidates|] == s;
    }
  }

  /** `seen` holds the first claimant of every path among the first `i`. */
  ghost predicate ClaimState(candidates: seq<Source>, i: nat, seen: map<Bytes, Source>)
  {
    && i <= |candidates|
    && (forall rel :: rel in seen ==> seen[rel].rel == rel && FirstClaim(candidates[..i], seen[rel]))
    && (forall k :: 0 <= k < i ==> candidates[k].rel in seen)
  }

  lemma ClaimStep(candidates: seq<Source>, i: nat, seen: map<Bytes, Source>)
    requires i < |candidates| && ClaimState(candidates, i, seen)
    ensures var c := candidates[i];
            ClaimState(candidates, i + 1, if c.rel in seen then seen else seen[c.rel := c])
  {
    hide FirstClaim;
    var c := candidates[i];
    assert candidates[..i + 1] == candidates[..i] + [c];
    forall s ensures FirstClaim(candidates[..i], s) ==> FirstClaim(candidates[..i + 1], s) {
      FirstClaimSnoc(candidates[..i], c, s);
    }
    FirstClaimSnoc(candidates[..i], c, c);
  }

  lemma ClaimsFound(candidates: seq<Source>, seen: map<Bytes, Source>, s: Source)
    requires ClaimState(candidates, |candidates|, seen)
    ensures s.rel in seen && seen[s.rel] == s <==> FirstClaim(candidates, s)
  {
    assert candidates[..|candidates|] == candidates;
    if FirstClaim(candidates, s) {
      assert s.rel in seen;
      FirstClaimUnique(candidates, s, seen[s.rel]);
    }
  }

  /** `required` are the three files that must exist; `found` is everything the
      directory walks returned, in walk order. */
  method CollectSources(fs: FileSystem, required: seq<Source>, found: seq<Source>) returns (r: Result<seq<Source>>)
    ensures r.Ok? <==> forall s :: s in required ==> s.abs in fs
    ensures r.Err? ==> r.error == MissingRequiredFile
    ensures r.Ok? ==> IsCollection(required + found, r.value)
  {
    for i := 0 to |required|
      invariant forall k :: 0 <= k < i ==> required[k].abs in fs
    {
      if required[i].abs !in fs {
        assert required[i] in required;
        return Err(MissingRequiredFile);
      }
    }
    var candidates := required + found;
    var seen: map<Bytes, Source> := map[];
    for i := 0 to |candidates|
      invariant ClaimState(candidates, i, seen)
    {
      ClaimStep(candidates, i, seen);
      hide ClaimState;
      var c := candidates[i];
      if c.rel !in seen {
        seen := seen[c.rel := c];
      }
    }
    hide FirstClaim;
    var sources := SortByPath(seen);
    forall s ensures s in sources <==> FirstClaim(candidates, s) {
      ClaimsFound(candidates, seen, s);
    }
    return Ok(sources);
  }

  method SortByPath(seen: map<Bytes, Source>) returns (sources: seq<Source>)
    requires forall rel :: rel in seen ==> seen[rel].rel == rel
    ensures forall i, j :: 0 <= i < j < |sources| ==> Less(sources[i].rel, sources[j].rel)
    ensures forall s: Source :: s in sources <==> s.rel in seen && seen[s.rel] == s
  {
    var names := CollectSorted(seen.Keys);
    sources := seq(|names|, i requires 0 <= i < |names| => assert names[i] in names; seen[names[i]]);
    assert forall i :: 0 <= i < |names| ==> names[i] in names && sources[i].rel == names[i];
    forall s: Source | s.rel in seen && seen[s.rel] == s ensures s in sources {
      assert s.rel in names;
      var i :| 0 <= i < |names| && names[i] == s.rel;
      assert sources[i] == s;
    }
  }

  lemma CollectionIsDistinct(candidates: seq<Source>, sources: seq<Source>)
    requires IsCollection(candidates, sources)
    ensures DistinctPaths(sources)
  {
    forall i, j | 0 <= i < j < |sources| ensures sources[i].rel != sources[j].rel {
      LessTrichotomy(sources[i].rel, sources[j].rel);
    }
  }

  // ---------------------------------------------------------- deduplication

  /** A block already present is not stored again. */
  function StoreOne(hash: Hash, blocks: Blocks, c: Bytes): Blocks
  {
    if hash(c) in blocks then blocks else blocks[hash(c) := c]
  }

  function StoreAll(hash: Hash, blocks: Blocks, chunks: seq<Bytes>): Blocks
  {
    if chunks == [] then blocks
    else StoreOne(hash, StoreAll(hash, blocks, chunks[..|chunks| - 1]), chunks[|chunks| - 1])
  }

  function HashAll(hash: Hash, chunks: seq<Bytes>): (r: seq<Bytes>)
    ensures |r| == |chunks| && forall i :: 0 <= i < |chunks| ==> r[i] == hash(chunks[i])
  {
    seq(|chunks|, i requires 0 <= i < |chunks| => hash(chunks[i]))
  }

  function EntryOf(hash: Hash, t: Table, rel: Bytes, info: FileInfo): Entry
  {
    Entry(rel, info.mode, |info.data|, info.modTime, hash(info.data), HashAll(hash, Split(t, info.data)))
  }

  lemma StoreStep(hash: Hash, blocks: Blocks, chunks: seq<Bytes>, i: nat)
    requires i < |chunks|
    ensures StoreAll(hash, blocks, chunks[..i + 1]) == StoreOne(hash, StoreAll(hash, blocks, chunks[..i]), chunks[i])
    ensures HashAll(hash, chunks[..i + 1]) == HashAll(hash, chunks[..i]) + [hash(chunks[i])]
  {
    hide StoreOne;
    assert chunks[..i + 1][..i] == chunks[..i];
  }

  /** The block map every file of one backup is added to. */
  class BlockStore {
    var blocks: Blocks

    constructor ()
      ensures blocks == map[]
    {
      blocks := map[];
    }

    method AddFile(hash: Hash, t: Table, buzTable: array<bv64>, buzOut: array<bv64>, fs: FileSystem, src: Source)
      returns (r: Result<Entry>)
      requires TablesReady(t, buzTable, buzOut)
      modifies this
      ensures src.abs !in fs ==> r == Err(ReadFailed) && blocks == old(blocks)
      ensures src.abs in fs ==>
                && r == Ok(EntryOf(hash, t, src.rel, fs[src.abs]))
                && blocks == StoreAll(hash, old(blocks), Split(t, fs[src.abs].data))
    {
      hide TablesReady;
      if src.abs !in fs {
        return Err(ReadFailed);
      }
      var info := fs[src.abs];
      var chunks := SplitBlocks(t, buzTable, buzOut, info.data);
      var entry := Entry(src.rel, info.mode, |info.data|, info.modTime, hash(info.data), []);
      ghost var head := entry;
      hide Split;
      for i := 0 to |chunks|
        invariant blocks == StoreAll(hash, old(blocks), chunks[..i])
        invariant entry.blocks == HashAll(hash, chunks[..i])
        invariant entry.(blocks := []) == head
      {
        StoreStep(hash, old(blocks), chunks, i);
        hide StoreAll;
        hide HashAll;
        var name := hash(chunks[i]);
        if name !in blocks {
          blocks := blocks[name := chunks[i]];
        }
        entry := entry.(blocks := entry.blocks + [name]);
      }
      assert chunks[..|chunks|] == chunks;
      return Ok(entry);
    }
  }

  // --------------------------------------------------------------- assembly

  predicate Readable(fs: FileSystem, sources: seq<Source>)
  {
    forall s :: s in sources ==> s.abs in fs
  }

  function Entries(hash: Hash, t: Table, fs: FileSystem, sources: seq<Source>): (r: seq<Entry>)
    requires Readable(fs, sources)
    ensures |r| == |sources|
    ensures forall i :: 0 <= i < |r| ==> r[i] == EntryOf(hash, t, sources[i].rel, fs[sources[i].abs])
  {
    seq(|sources|, i requires 0 <= i < |sources| => assert sources[i] in sources;
                                                    EntryOf(hash, t, sources[i].rel, fs[sources[i].abs]))
  }

  function Stored(hash: Hash, t: Table, fs: FileSystem, sources: seq<Source>): Blocks
    requires Readable(fs, sources)
  {
    if sources == [] then map[] else
    var k := |sources| - 1;
    StoreAll(hash, Stored(hash, t, fs, sources[..k]), Split(t, fs[sources[k].abs].data))
  }

  function EntryBytes(entries: seq<Entry>): int
  {
    if entries == [] then 0 else EntryBytes(entries[..|entries| - 1]) + entries[|entries| - 1].size
  }

  function IndexBytes(index: seq<Block>): int
  {
    if index == [] then 0 else IndexBytes(index[..|index| - 1]) + index[|index| - 1].size
  }

  ghost function Backup(hash: Hash, t: Table, fs: FileSystem, sources: seq<Source>): Archive
    requires Readable(fs, sources)
  {
    var entries, blocks := Entries(hash, t, fs, sources), Stored(hash, t, fs, sources);
    var index := IndexOf(SortedNames(blocks.Keys), blocks);
    Archive(
      Manifest(Version(FORMAT_MAJOR, FORMAT_MINOR, 0), entries, index, DigestOf(hash, entries, blocks),
               EntryBytes(entries), IndexBytes(index)),
      blocks)
  }

  lemma AddStep(hash: Hash, t: Table, fs: FileSystem, sources: seq<Source>, i: nat)
    requires i < |sources| && Readable(fs, sources[..i]) && sources[i].abs in fs
    ensures Readable(fs, sources[..i + 1])
    ensures Entries(hash, t, fs, sources[..i + 1]) ==
              Entries(hash, t, fs, sources[..i]) + [EntryOf(hash, t, sources[i].rel, fs[sources[i].abs])]
    ensures Stored(hash, t, fs, sources[..i + 1]) ==
              StoreAll(hash, Stored(hash, t, fs, sources[..i]), Split(t, fs[sources[i].abs].data))
  {
    hide EntryOf;
    hide StoreAll;
    assert sources[..i + 1] == sources[..i] + [sources[i]];
    assert sources[..i + 1][..i] == sources[..i];
  }

  lemma EntryBytesSnoc(entries: seq<Entry>, e: Entry)
    ensures EntryBytes(entries + [e]) == EntryBytes(entries) + e.size
  {
    assert (entries + [e])[..|entries|] == entries;
  }

  lemma NothingAdded(hash: Hash, t: Table, fs: FileSystem)
    ensures Entries(hash, t, fs, []) == [] && Stored(hash, t, fs, []) == map[] && EntryBytes([]) == 0
  {
  }

  method AddAll(hash: Hash, t: Table, buzTable: array<bv64>, buzOut: array<bv64>, fs: FileSystem, sources: seq<Source>)
    returns (r: Result<seq<Entry>>, blocks: Blocks, original: int)
    requires TablesReady(t, buzTable, buzOut)
    ensures r.Ok? <==> Readable(fs, sources)
    ensures r.Err? ==> r.error == ReadFailed
    ensures r.Ok? ==>
              && r.value == Entries(hash, t, fs, sources)
              && blocks == Stored(hash, t, fs, sources)
              && original == EntryBytes(r.value)
  {
    hide EntryOf;
    hide StoreAll;
    hide TablesReady;
    hide Entries;
    hide Stored;
    hide EntryBytes;
    var store := new BlockStore();
    var contents: seq<Entry> := [];
    original := 0;
    NothingAdded(hash, t, fs);
    assert sources[..0] == [];
    for i := 0 to |sources|
      invariant fresh(store)
      invariant TablesReady(t, buzTable, buzOut)
      invariant Readable(fs, sources[..i])
      invariant contents == Entries(hash, t, fs, sources[..i])
      invariant store.blocks == Stored(hash, t, fs, sources[..i])
      invariant original == EntryBytes(contents)
    {
      var entry := store.AddFile(hash, t, buzTable, buzOut, fs, sources[i]);
      if entry.Err? {
        assert sources[i] in sources;
        return Err(ReadFailed), store.blocks, original;
      }
      AddStep(hash, t, fs, sources, i);
      EntryBytesSnoc(contents, entry.value);
      contents := contents + [entry.value];
      original := original + entry.value.size;
    }
    assert sources[..|sources|] == sources;
    return Ok(contents), store.blocks, original;
  }

  /** What `Create` returns: the sealed archive if it passes its own verification. */
  ghost function Created(hash: Hash, t: Table, fs: FileSystem, sources: seq<Source>): Result<Archive>
  {
    if !Readable(fs, sources) then Err(ReadFailed) else
    var a := Backup(hash, t, fs, sources);
    var v := Verified(hash, a.manifest, a.blocks);
    if v.Err? then Err(v.error) else Ok(a)
  }

  method Create(hash: Hash, t: Table, buzTable: array<bv64>, buzOut: array<bv64>, fs: FileSystem, sources: seq<Source>)
    returns (r: Result<Archive>)
    requires TablesReady(t, buzTable, buzOut)
    ensures r == Created(hash, t, fs, sources)
  {
    hide Verified;
    hide Stored;
    hide Entries;
    hide DigestOf;
    hide EntryBytes;
    var contents, blocks, original := AddAll(hash, t, buzTable, buzOut, fs, sources);
    if contents.Err? {
      return Err(contents.error);
    }
    var index := BlockIndex(blocks);
    var stored := 0;
    for i := 0 to |index|
      invariant stored == IndexBytes(index[..i])
    {
      stored := stored + index[i].size;
      assert index[..i + 1][..i] == index[..i];
    }
    assert index[..|index|] == index;
    var sum := Digest(hash, contents.value, blocks);
    var m := Manifest(Version(FORMAT_MAJOR, FORMAT_MINOR, 0), contents.value, index, sum, original, stored);
    // Writing the archive and reading it back is the identity.
    var verified := Verify(hash, m, blocks);
    if verified.Err? {
      return Err(verified.error);
    }
    return Ok(Archive(m, blocks));
  }

  // -------------------------------------------------------------- round trip

  /** No two different chunks of this backup share a hash. */
  ghost predicate NoCollision(hash: Hash, t: Table, fs: FileSystem, sources: seq<Source>)
    requires Readable(fs, sources)
  {
    forall r, s, c, d ::
      r in sources && s in sources && c in Split(t, fs[r.abs].data) && d in Split(t, fs[s.abs].data) ==>
        (hash(c) == hash(d) ==> c == d)
  }

  /** Blocks are kept under their own hash. */
  predicate SelfNamed(hash: Hash, blocks: Blocks)
  {
    forall n :: n in blocks ==> hash(blocks[n]) == n
  }

  /** Every chunk can be looked up under its hash. */
  predicate Holds(hash: Hash, blocks: Blocks, chunks: seq<Bytes>)
  {
    forall c :: c in chunks ==> hash(c) in blocks && blocks[hash(c)] == c
  }

  predicate Grows(a: Blocks, b: Blocks)
  {
    forall n :: n in a ==> n in b && b[n] == a[n]
  }

  /** Whatever `blocks` gained over `base` is a chunk of `chunks`. */
  predicate From(base: Blocks, blocks: Blocks, chunks: seq<Bytes>)
  {
    forall n :: n in blocks && n !in base ==> blocks[n] in chunks
  }

  lemma {:induction false} StoreAllFacts(hash: Hash, base: Blocks, chunks: seq<Bytes>)
    requires SelfNamed(hash, base)
    ensures var b := StoreAll(hash, base, chunks);
            SelfNamed(hash, b) && Grows(base, b) && From(base, b, chunks)
    ensures forall c :: c in chunks ==> hash(c) in StoreAll(hash, base, chunks)
  {
    if chunks != [] {
      var k := |chunks| - 1;
      StoreAllFacts(hash, base, chunks[..k]);
      assert chunks == chunks[..k] + [chunks[k]];
    }
  }

  /** Every stored block is a chunk of some source. */
  predicate StoredFrom(hash: Hash, t: Table, fs: FileSystem, sources: seq<Source>, blocks: Blocks)
    requires Readable(fs, sources)
  {
    forall n :: n in blocks ==> exists s :: s in sources && blocks[n] in Split(t, fs[s.abs].data)
  }

  lemma {:induction false} StoredFacts(hash: Hash, t: Table, fs: FileSystem, sources: seq<Source>)
    requires Readable(fs, sources)
    ensures var b := Stored(hash, t, fs, sources);
            SelfNamed(hash, b) && StoredFrom(hash, t, fs, sources, b)
    ensures forall s, c :: s in sources && c in Split(t, fs[s.abs].data) ==> hash(c) in Stored(hash, t, fs, sources)
  {
    if sources != [] {
      var k := |sources| - 1;
      var init, last := sources[..k], sources[k];
      var base, b := Stored(hash, t, fs, init), Stored(hash, t, fs, sources);
      var chunks := Split(t, fs[last.abs].data);
      StoredFacts(hash, t, fs, init);
      StoreAllFacts(hash, base, chunks);
      hide Split;
      hide StoreAll;
      assert sources == init + [last];
      assert last in sources && forall s :: s in init ==> s in sources;
      assert StoredFrom(hash, t, fs, sources, b) by {
        forall n | n in b ensures exists s :: s in sources && b[n] in Split(t, fs[s.abs].data) {
          if n in base {
            assert b[n] == base[n];
            var s :| s in init && base[n] in Split(t, fs[s.abs].data);
            assert s in sources;
          }
        }
      }
    }
  }

  lemma SourceHeld(hash: Hash, t: Table, fs: FileSystem, sources: seq<Source>, s: Source)
    requires Readable(fs, sources) && NoCollision(hash, t, fs, sources) && s in sources
    ensures Holds(hash, Stored(hash, t, fs, sources), Split(t, fs[s.abs].data))
  {
    var b := Stored(hash, t, fs, sources);
    StoredFacts(hash, t, fs, sources);
    hide Split;
    hide Stored;
    forall c | c in Split(t, fs[s.abs].data) ensures hash(c) in b && b[hash(c)] == c {
      var r :| r in sources && b[hash(c)] in Split(t, fs[r.abs].data);
      assert hash(b[hash(c)]) == hash(c);
    }
  }

  lemma {:induction false} AssembleUndoesHash(hash: Hash, blocks: Blocks, chunks: seq<Bytes>)
    requires Holds(hash, blocks, chunks)
    ensures Resolves(HashAll(hash, chunks), blocks)
    ensures Assemble(HashAll(hash, chunks), blocks) == Flatten(chunks)
  {
    if chunks != [] {
      var k := |chunks| - 1;
      AssembleUndoesHash(hash, blocks, chunks[..k]);
      assert HashAll(hash, chunks)[..k] == HashAll(hash, chunks[..k]);
      assert chunks == chunks[..k] + [chunks[k]];
      FlattenAppend(chunks[..k], [chunks[k]]);
      assert Flatten([chunks[k]]) == chunks[k] + Flatten([]) == chunks[k];
    }
  }

  /** Reassembling a source's entry gives back its bytes. */
  lemma EntryRoundTrip(hash: Hash, t: Table, fs: FileSystem, sources: seq<Source>, s: Source)
    requires Readable(fs, sources) && NoCollision(hash, t, fs, sources) && s in sources
    ensures var e, b := EntryOf(hash, t, s.rel, fs[s.abs]), Stored(hash, t, fs, sources);
            && EntryGood(hash, e, b)
            && Assemble(e.blocks, b) == fs[s.abs].data
  {
    SourceHeld(hash, t, fs, sources, s);
    hide Split;
    hide Stored;
    AssembleUndoesHash(hash, Stored(hash, t, fs, sources), Split(t, fs[s.abs].data));
    SplitSizes(t, fs[s.abs].data);
  }

  /** The files that went in, by archive path. */
  function Originals(fs: FileSystem, sources: seq<Source>): Files
    requires Readable(fs, sources)
  {
    if sources == [] then map[] else
    var k := |sources| - 1;
    Originals(fs, sources[..k])[sources[k].rel := fs[sources[k].abs].data]
  }

  lemma {:induction false} OriginalsFacts(fs: FileSystem, sources: seq<Source>)
    requires Readable(fs, sources) && DistinctPaths(sources)
    ensures forall p :: p in Originals(fs, sources) <==> exists s :: s in sources && s.rel == p
    ensures forall s :: s in sources ==> Originals(fs, sources)[s.rel] == fs[s.abs].data
  {
    if sources != [] {
      var k := |sources| - 1;
      var init, last := sources[..k], sources[k];
      OriginalsFacts(fs, init);
      assert sources == init + [last];
      forall s | s in sources ensures Originals(fs, sources)[s.rel] == fs[s.abs].data {
        if s in init {
          var i :| 0 <= i < k && sources[i] == s;
          assert s.rel != last.rel;
        }
      }
      forall p ensures p in Originals(fs, sources) <==> exists s :: s in sources && s.rel == p {
        if p == last.rel {
          assert last in sources;
        } else if p in Originals(fs, init) {
          var s :| s in init && s.rel == p;
          assert s in sources;
        }
      }
    }
  }

  lemma EntriesGood(hash: Hash, t: Table, fs: FileSystem, sources: seq<Source>)
    requires Readable(fs, sources) && NoCollision(hash, t, fs, sources)
    ensures var es, b := Entries(hash, t, fs, sources), Stored(hash, t, fs, sources);
            && AllGood(hash, es, b)
            && forall i :: 0 <= i < |es| ==>
                 Resolves(es[i].blocks, b) && Assemble(es[i].blocks, b) == fs[sources[i].abs].data
  {
    hide NoCollision;
    var es, b := Entries(hash, t, fs, sources), Stored(hash, t, fs, sources);
    hide Stored;
    forall i | 0 <= i < |es|
      ensures EntryGood(hash, es[i], b) && Assemble(es[i].blocks, b) == fs[sources[i].abs].data
    {
      assert sources[i] in sources;
      EntryRoundTrip(hash, t, fs, sources, sources[i]);
    }
  }

  /** Reassembling the whole manifest gives back the original files. */
  lemma {:induction false} FilesRoundTrip(es: seq<Entry>, blocks: Blocks, fs: FileSystem, sources: seq<Source>)
    requires Readable(fs, sources) && |es| == |sources|
    requires forall i :: 0 <= i < |es| ==>
               && Resolves(es[i].blocks, blocks)
               && Assemble(es[i].blocks, blocks) == fs[sources[i].abs].data
               && es[i].path == sources[i].rel
    ensures FilesOf(es, blocks) == Originals(fs, sources)
  {
    hide Resolves;
    if es != [] {
      var k := |es| - 1;
      FilesRoundTrip(es[..k], blocks, fs, sources[..k]);
    }
  }

  lemma IndexMatches(hash: Hash, m: Manifest, blocks: Blocks)
    requires SelfNamed(hash, blocks)
    requires m.blockIndex == IndexOf(SortedNames(blocks.Keys), blocks)
    ensures BlocksMatch(hash, m, blocks)
  {
    var names := SortedNames(blocks.Keys);
    assert |names| == |blocks.Keys| by { SortedCount(names, blocks.Keys); }
  }

  lemma {:induction false} SortedCount(names: seq<Bytes>, s: set<Bytes>)
    requires Sorted(names) && forall x :: x in names <==> x in s
    ensures |names| == |s|
  {
    if names == [] {
      assert s == {};
    } else {
      forall x ensures x in names[1..] <==> x in s - {names[0]} {
        if x in names[1..] {
          var i :| 1 <= i < |names| && names[i] == x;
          LessTrichotomy(names[0], names[i]);
        }
      }
      SortedCount(names[1..], s - {names[0]});
    }
  }

  /** What verification says about a file list: nothing but the contents check
      can fail, and what it returns is the input. */
  ghost function Expected(fs: FileSystem, sources: seq<Source>): Result<Files>
    requires Readable(fs, sources)
  {
    var files := Originals(fs, sources);
    if !RequiredPresent(files) then Err(MissingRequiredFile)
    else if exists p :: p in files && IsDatabase(p) && !HasMagic(files[p]) then Err(DatabaseIntegrity)
    else Ok(files)
  }

  /** What a new manifest records: format 1.0.0, and of every source, in order, its
      path, mode, size, time and hash, with the names of its chunks. */
  lemma BackupRecords(hash: Hash, t: Table, fs: FileSystem, sources: seq<Source>, i: nat)
    requires Readable(fs, sources) && i < |sources|
    ensures var m := Backup(hash, t, fs, sources).manifest;
            && m.version.major == 1 && m.version.minor == 0 && m.version.patch == 0 && |m.contents| == |sources|
            && var e, info := m.contents[i], fs[sources[i].abs];
               && e.path == sources[i].rel && e.mode == info.mode && e.modTime == info.modTime
               && e.size == |info.data| && e.checksum == hash(info.data)
               && |e.blocks| == |Split(t, info.data)|
               && forall k :: 0 <= k < |e.blocks| ==> e.blocks[k] == hash(Split(t, info.data)[k])
  {
    hide Stored;
    hide DigestOf;
    hide Split;
  }

  /** Create then verify, for any readable files: every structural check passes,
      and the files come back byte for byte. */
  lemma CreateVerifyRoundTrip(hash: Hash, t: Table, fs: FileSystem, sources: seq<Source>)
    requires Readable(fs, sources) && NoCollision(hash, t, fs, sources)
    ensures var a := Backup(hash, t, fs, sources);
            Verified(hash, a.manifest, a.blocks) == Expected(fs, sources)
  {
    hide NoCollision;
    hide Backup;
    hide BlocksMatch;
    hide DigestOf;
    hide AllGood;
    hide FilesOf;
    hide RequiredPresent;
    hide HasMagic;
    hide IsDatabase;
    var a := Backup(hash, t, fs, sources);
    BackupPasses(hash, t, fs, sources);
    BackupReturns(hash, t, fs, sources);
    hide Originals;
    DatabasesByPath(a.manifest.contents, Originals(fs, sources));
    hide DatabasesValid;
  }

  /** Version, blocks and digest of a new archive check out. */
  lemma BackupPasses(hash: Hash, t: Table, fs: FileSystem, sources: seq<Source>)
    requires Readable(fs, sources) && NoCollision(hash, t, fs, sources)
    ensures var a := Backup(hash, t, fs, sources);
            && CheckVersion(a.manifest.version).Ok?
            && BlocksMatch(hash, a.manifest, a.blocks)
            && DigestOf(hash, a.manifest.contents, a.blocks) == a.manifest.checksum
  {
    hide NoCollision;
    hide BlocksMatch;
    hide DigestOf;
    hide Entries;
    var a := Backup(hash, t, fs, sources);
    StoredFacts(hash, t, fs, sources);
    hide Stored;
    IndexMatches(hash, a.manifest, a.blocks);
  }

  /** Its entries join to the original files. */
  lemma BackupReturns(hash: Hash, t: Table, fs: FileSystem, sources: seq<Source>)
    requires Readable(fs, sources) && NoCollision(hash, t, fs, sources)
    ensures var a := Backup(hash, t, fs, sources);
            && AllGood(hash, a.manifest.contents, a.blocks)
            && FilesOf(a.manifest.contents, a.blocks) == Originals(fs, sources)
            && Originals(fs, sources).Keys == Paths(a.manifest.contents)
  {
    hide NoCollision;
    hide DigestOf;
    hide Stored;
    var a := Backup(hash, t, fs, sources);
    EntriesGood(hash, t, fs, sources);
    FilesRoundTrip(a.manifest.contents, a.blocks, fs, sources);
    FilesOfPaths(a.manifest.contents, a.blocks);
  }

  lemma DatabasesByPath(entries: seq<Entry>, files: Files)
    requires files.Keys == Paths(entries)
    ensures DatabasesValid(entries, files) <==> forall p :: p in files && IsDatabase(p) ==> HasMagic(files[p])
  {
    hide HasMagic;
    hide IsDatabase;
    if DatabasesValid(entries, files) {
      forall p | p in files && IsDatabase(p) ensures HasMagic(files[p]) {
        assert p in Paths(entries);
      }
    }
    forall e | e in entries ensures e.path in files { assert e.path in Paths(entries); }
  }

  /** A backup of the collected sources succeeds exactly when every database
      among them starts with the SQLite header. */
  lemma CreateSucceedsIff(hash: Hash, t: Table, fs: FileSystem, candidates: seq<Source>, sources: seq<Source>)
    requires IsCollection(candidates, sources)
    requires forall p :: p in REQUIRED_FILES ==> exists c :: c in candidates && c.rel == p
    requires Readable(fs, sources) && NoCollision(hash, t, fs, sources)
    ensures Created(hash, t, fs, sources).Ok? <==>
              forall s :: s in sources && IsDatabase(s.rel) ==> HasMagic(fs[s.abs].data)
  {
    hide NoCollision;
    hide HasMagic;
    hide IsDatabase;
    CreateVerifyRoundTrip(hash, t, fs, sources);
    CollectionIsDistinct(candidates, sources);
    OriginalsFacts(fs, sources);
    hide Backup;
    hide Verified;
    var files := Originals(fs, sources);
    hide Originals;
    forall p | p in REQUIRED_FILES ensures p in files {
      var c :| c in candidates && c.rel == p;
      var s := ClaimExists(candidates, c);
      assert s in sources;
    }
  }

  /** Some candidate is the first to claim any claimed path. */
  lemma {:induction false} ClaimExists(candidates: seq<Source>, c: Source) returns (s: Source)
    requires c in candidates
    ensures FirstClaim(candidates, s) && s.rel == c.rel
  {
    var k := |candidates| - 1;
    var init := candidates[..k];
    assert candidates == init + [candidates[k]];
    if exists d :: d in init && d.rel == c.rel {
      var d :| d in init && d.rel == c.rel;
      s := ClaimExists(init, d);
      FirstClaimSnoc(init, candidates[k], s);
    } else {
      s := c;
      assert c == candidates[k];
      FirstClaimSnoc(init, candidates[k], s);
    }
  }

  lemma EntryPath(hash: Hash, t: Table, fs: FileSystem, sources: seq<Source>, i: nat)
    requires Readable(fs, sources) && i < |sources|
    ensures Entries(hash, t, fs, sources)[i].path == sources[i].rel
  {
  }

  predicate DistinctEntries(entries: seq<Entry>)
  {
    forall i, j :: 0 <= i < j < |entries| ==> entries[i].path != entries[j].path
  }

  lemma EntriesDistinct(hash: Hash, t: Table, fs: FileSystem, sources: seq<Source>)
    requires Readable(fs, sources) && DistinctPaths(sources)
    ensures DistinctEntries(Entries(hash, t, fs, sources))
  {
    var es := Entries(hash, t, fs, sources);
    forall i, j | 0 <= i < j < |es| ensures es[i].path != es[j].path {
      EntryPath(hash, t, fs, sources, i);
      EntryPath(hash, t, fs, sources, j);
    }
  }

  /** A path of the archive occurs in one entry only. */
  lemma PathOnce(es: seq<Entry>, k: nat, i: nat)
    requires DistinctEntries(es) && k + 1 < |es| && k <= i <= k + 1
    ensures es[i].path !in Paths(es[..k] + es[k + 2..])
  {
    var others := es[..k] + es[k + 2..];
    forall e | e in others ensures e.path != es[i].path {
      var j :| 0 <= j < |others| && others[j] == e;
      assert others[j] == es[if j < k then j else j + 2];
    }
  }

  /** Every accepted archive of distinct paths has a double for each pair of
      neighbours that are not required. */
  lemma AcceptedDouble(hash: Hash, m: Manifest, blocks: Blocks, k: nat) returns (double: Manifest)
    requires Verified(hash, m, blocks).Ok? && DistinctEntries(m.contents) && k + 1 < |m.contents|
    requires m.contents[k].path !in REQUIRED_FILES && m.contents[k + 1].path !in REQUIRED_FILES
    ensures var was, now := Verified(hash, m, blocks), Verified(hash, double, blocks);
            && double.checksum == m.checksum && |double.contents| == |m.contents| - 1
            && now.Ok? && m.contents[k].path in was.value && m.contents[k].path !in now.value
  {
    hide Verified;
    hide Merged;
    var es := m.contents;
    PathOnce(es, k, k);
    PathOnce(es, k, k + 1);
    hide DistinctEntries;
    hide Paths;
    var pre, e, f, post := es[..k], es[k], es[k + 1], es[k + 2..];
    assert es == pre + [e, f] + post;
    double := MergedManifest(m, pre, e, f, post);
    MergedAcceptedIff(hash, m, blocks, Verified(hash, m, blocks).value, pre, e, f, post);
  }

  /** Every new archive with two neighbouring files, neither of them required, has
      a double: another manifest over the same blocks, accepted under the same
      checksum, that gives back other files, the first of the two not among them. */
  lemma CreatedDouble(hash: Hash, t: Table, fs: FileSystem, sources: seq<Source>, k: nat) returns (double: Manifest)
    requires DistinctPaths(sources) && k + 1 < |sources| && Created(hash, t, fs, sources).Ok?
    requires sources[k].rel !in REQUIRED_FILES && sources[k + 1].rel !in REQUIRED_FILES
    ensures var a := Created(hash, t, fs, sources).value;
            var was, now := Verified(hash, a.manifest, a.blocks), Verified(hash, double, a.blocks);
            && double.checksum == a.manifest.checksum
            && was.Ok? && now.Ok?
            && sources[k].rel in was.value && sources[k].rel !in now.value
            && |double.contents| == |sources| - 1
  {
    hide Verified;
    hide Entries;
    hide Stored;
    hide DigestOf;
    hide DistinctEntries;
    hide DistinctPaths;
    var a := Backup(hash, t, fs, sources);
    assert a.manifest.contents == Entries(hash, t, fs, sources);
    hide Backup;
    EntriesDistinct(hash, t, fs, sources);
    EntryPath(hash, t, fs, sources, k);
    EntryPath(hash, t, fs, sources, k + 1);
    double := AcceptedDouble(hash, a.manifest, a.blocks, k);
  }

  // ---------------------------------------------------------------- savings

  lemma {:induction false} InsertBytes(names: seq<Bytes>, x: Bytes, blocks: Blocks)
    requires Sorted(names) && x !in names && x in blocks && forall n :: n in names ==> n in blocks
    ensures IndexBytes(IndexOf(Insert(names, x), blocks)) == IndexBytes(IndexOf(names, blocks)) + |blocks[x]|
  {
    hide Less;
    hide IndexBytes;
    if names == [] || Less(x, names[0]) {
      assert Insert(names, x) == [x] + names;
      IndexCons(x, names, blocks);
    } else {
      var rest := names[1..];
      InsertBytes(rest, x, blocks);
      assert names == [names[0]] + rest;
      assert Insert(names, x) == [names[0]] + Insert(rest, x);
      hide Insert;
      IndexCons(names[0], rest, blocks);
      IndexCons(names[0], Insert(rest, x), blocks);
    }
  }

  lemma IndexCons(x: Bytes, names: seq<Bytes>, blocks: Blocks)
    requires x in blocks && forall n :: n in names ==> n in blocks
    ensures IndexBytes(IndexOf([x] + names, blocks)) == |blocks[x]| + IndexBytes(IndexOf(names, blocks))
  {
    hide IndexBytes;
    var b := Block(x, |blocks[x]|);
    assert IndexOf([x] + names, blocks) == [b] + IndexOf(names, blocks);
    IndexBytesCons(b, IndexOf(names, blocks));
  }

  lemma {:induction false} IndexBytesCons(b: Block, rest: seq<Block>)
    ensures IndexBytes([b] + rest) == b.size + IndexBytes(rest)
  {
    if rest != [] {
      var k := |rest| - 1;
      IndexBytesCons(b, rest[..k]);
      assert ([b] + rest)[..k + 1] == [b] + rest[..k];
    }
  }

  /** The bytes a block map occupies. */
  ghost function StoredBytes(blocks: Blocks): int
  {
    IndexBytes(IndexOf(SortedNames(blocks.Keys), blocks))
  }

  lemma StoreOneBytes(hash: Hash, blocks: Blocks, c: Bytes)
    ensures StoredBytes(StoreOne(hash, blocks, c)) <= StoredBytes(blocks) + |c|
  {
    if hash(c) !in blocks {
      var b := blocks[hash(c) := c];
      var names := SortedNames(blocks.Keys);
      SortedListingUnique(SortedNames(b.Keys), Insert(names, hash(c)));
      InsertBytes(names, hash(c), b);
      assert IndexOf(names, b) == IndexOf(names, blocks);
    }
  }

  lemma {:induction false} StoreAllBytes(hash: Hash, blocks: Blocks, chunks: seq<Bytes>)
    ensures StoredBytes(StoreAll(hash, blocks, chunks)) <= StoredBytes(blocks) + |Flatten(chunks)|
  {
    hide StoredBytes;
    if chunks != [] {
      var k := |chunks| - 1;
      StoreAllBytes(hash, blocks, chunks[..k]);
      StoreOneBytes(hash, StoreAll(hash, blocks, chunks[..k]), chunks[k]);
      hide StoreOne;
      assert chunks == chunks[..k] + [chunks[k]];
      FlattenAppend(chunks[..k], [chunks[k]]);
      assert Flatten([chunks[k]]) == chunks[k] + Flatten([]) == chunks[k];
    }
  }

  /** Deduplication never stores more than it was given. */
  lemma {:induction false} StoredAtMostOriginal(hash: Hash, t: Table, fs: FileSystem, sources: seq<Source>)
    requires Readable(fs, sources)
    ensures var m := Backup(hash, t, fs, sources).manifest; m.storedSize <= m.originalSize
  {
    var m := Backup(hash, t, fs, sources).manifest;
    hide DigestOf;
    assert m.storedSize == StoredBytes(Stored(hash, t, fs, sources));
    if sources == [] {
      assert Stored(hash, t, fs, sources) == map[];
    } else {
      var k := |sources| - 1;
      var init, data := sources[..k], fs[sources[k].abs].data;
      StoredAtMostOriginal(hash, t, fs, init);
      assert Backup(hash, t, fs, init).manifest.storedSize == StoredBytes(Stored(hash, t, fs, init));
      StoreAllBytes(hash, Stored(hash, t, fs, init), Split(t, data));
      SplitSizes(t, data);
      hide StoredBytes;
      assert m.contents[..k] == Entries(hash, t, fs, init);
    }
  }
}
