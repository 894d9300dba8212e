/** Archive verification: what acceptance guarantees about the files handed back. */
module Verification {
  import opened Bytes
  import opened Manifest

  const FORMAT_MAJOR: nat := 1
  const FORMAT_MINOR: nat := 0

  const SQLITE_MAGIC: Bytes := Ascii("SQLite format 3") + [NUL]
  const DB_SUFFIX: Bytes := Ascii(".db")

  const REQUIRED_FILES: seq<Bytes> :=
    [Ascii("config/server.yml"), Ascii("data/server.db"), Ascii("data/users.db")]

  type Files = map<Bytes, Bytes>

  /** Ok(true) is the warning that the format is older than this build. */
  function CheckVersion(v: Version): Result<bool>
  {
    match v
    case Missing => Err(ManifestMissing)
    case Malformed => Err(InvalidFormat)
    case Version(major, minor, _) =>
      if major > FORMAT_MAJOR then Err(IncompatibleVersion)
      else Ok(major < FORMAT_MAJOR || minor < FORMAT_MINOR)
  }

  /** Formats of major version 0 pass with a warning, format 1 without, and later
      ones not at all. */
  lemma VersionWarns(v: Version)
    ensures CheckVersion(v).Ok? <==> v.Version? && v.major <= 1
    ensures CheckVersion(v) == Ok(true) <==> v.Version? && v.major == 0
  {
  }

  // ------------------------------------------------------------------ blocks

  /** Every block hashes to its name; the index has as many entries as there
      are blocks, and each names a stored block of the recorded size. */
  predicate BlocksMatch(hash: Hash, m: Manifest, blocks: Blocks)
  {
    && (forall n :: n in blocks ==> hash(blocks[n]) == n)
    && |m.blockIndex| == |blocks|
    && forall b :: b in m.blockIndex ==> b.hash in blocks && |blocks[b.hash]| == b.size
  }

  method VerifyBlocks(hash: Hash, m: Manifest, blocks: Blocks) returns (ok: bool)
    ensures ok == BlocksMatch(hash, m, blocks)
  {
    var left := blocks.Keys;
    while left != {}
      invariant left <= blocks.Keys
      invariant forall n :: n in blocks.Keys - left ==> hash(blocks[n]) == n
      decreases left
    {
      var n :| n in left;
      if hash(blocks[n]) != n {
        return false;
      }
      left := left - {n};
    }
    if |m.blockIndex| != |blocks| {
      return false;
    }
    for i := 0 to |m.blockIndex|
      invariant forall k :: 0 <= k < i ==>
                  m.blockIndex[k].hash in blocks && |blocks[m.blockIndex[k].hash]| == m.blockIndex[k].size
    {
      var b := m.blockIndex[i];
      assert b in m.blockIndex;
      if b.hash !in blocks || |blocks[b.hash]| != b.size {
        return false;
      }
    }
    return true;
  }

  function IndexHashes(index: seq<Block>): set<Bytes>
  {
    set b | b in index :: b.hash
  }

  predicate DistinctHashes(index: seq<Block>)
  {
    forall i, j :: 0 <= i < j < |index| ==> index[i].hash != index[j].hash
  }

  lemma DistinctSnoc(init: seq<Block>, last: Block)
    ensures IndexHashes(init + [last]) == IndexHashes(init) + {last.hash}
    ensures DistinctHashes(init + [last]) <==> DistinctHashes(init) && last.hash !in IndexHashes(init)
  {
    var index := init + [last];
    assert forall i :: 0 <= i < |init| ==> index[i] == init[i];
    if last.hash in IndexHashes(init) {
      var b :| b in init && b.hash == last.hash;
      var i :| 0 <= i < |init| && init[i] == b;
      assert index[i].hash == index[|init|].hash;
    }
    if last.hash !in IndexHashes(init) {
      assert forall i :: 0 <= i < |init| ==> init[i] in init;
    }
  }

  lemma {:induction false} IndexHashesCount(index: seq<Block>)
    ensures |IndexHashes(index)| <= |index|
    ensures |IndexHashes(index)| == |index| <==> DistinctHashes(index)
  {
    if index != [] {
      var k := |index| - 1;
      IndexHashesCount(index[..k]);
      DistinctSnoc(index[..k], index[k]);
      assert index == index[..k] + [index[k]];
      hide IndexHashes;
      hide DistinctHashes;
      if index[k].hash in IndexHashes(index[..k]) {
        assert IndexHashes(index) == IndexHashes(index[..k]);
      }
    }
  }

  lemma {:induction false} FullSubset<T>(a: set<T>, b: set<T>)
    requires a <= b && |a| == |b|
    ensures a == b
  {
    if a != b {
      var x :| x in b && x !in a;
      assert a <= b - {x};
      SubsetSize(a, b - {x});
    }
  }

  lemma {:induction false} SubsetSize<T>(a: set<T>, b: set<T>)
    requires a <= b
    ensures |a| <= |b|
  {
    if a != {} {
      var x :| x in a;
      SubsetSize(a - {x}, b - {x});
    }
  }

  /** An accepted index names exactly the stored blocks if and only if it lists
      no hash twice; the count alone does not give it. */
  lemma IndexExactIffDistinct(hash: Hash, m: Manifest, blocks: Blocks)
    requires BlocksMatch(hash, m, blocks)
    ensures IndexHashes(m.blockIndex) == blocks.Keys <==> DistinctHashes(m.blockIndex)
  {
    IndexHashesCount(m.blockIndex);
    assert |blocks| == |blocks.Keys|;
    assert IndexHashes(m.blockIndex) <= blocks.Keys;
    if DistinctHashes(m.blockIndex) {
      FullSubset(IndexHashes(m.blockIndex), blocks.Keys);
    }
  }

  // ------------------------------------------------------------- reassembly

  predicate Resolves(names: seq<Bytes>, blocks: Blocks)
  {
    forall n :: n in names ==> n in blocks
  }

  /** The named blocks, concatenated. */
  function Assemble(names: seq<Bytes>, blocks: Blocks): Bytes
    requires Resolves(names, blocks)
  {
    if names == [] then [] else Assemble(names[..|names| - 1], blocks) + blocks[names[|names| - 1]]
  }

  predicate EntryGood(hash: Hash, e: Entry, blocks: Blocks)
  {
    && Resolves(e.blocks, blocks)
    && |Assemble(e.blocks, blocks)| == e.size
    && hash(Assemble(e.blocks, blocks)) == e.checksum
  }

  predicate AllGood(hash: Hash, entries: seq<Entry>, blocks: Blocks)
  {
    forall e :: e in entries ==> EntryGood(hash, e, blocks)
  }

  /** One file per path; a later entry replaces an earlier one. */
  function FilesOf(entries: seq<Entry>, blocks: Blocks): Files
    requires forall e :: e in entries ==> Resolves(e.blocks, blocks)
  {
    if entries == [] then map[] else
    var e := entries[|entries| - 1];
    FilesOf(entries[..|entries| - 1], blocks)[e.path := Assemble(e.blocks, blocks)]
  }

  method ReassembleEntry(hash: Hash, e: Entry, blocks: Blocks) returns (r: Result<Bytes>)
    ensures r == if EntryGood(hash, e, blocks) then Ok(Assemble(e.blocks, blocks)) else Err(ChecksumMismatch)
  {
    var content: Bytes := [];
    for j := 0 to |e.blocks|
      invariant Resolves(e.blocks[..j], blocks)
      invariant content == Assemble(e.blocks[..j], blocks)
    {
      if e.blocks[j] !in blocks {
        assert e.blocks[j] in e.blocks;
        return Err(ChecksumMismatch);
      }
      content := content + blocks[e.blocks[j]];
      assert e.blocks[..j + 1][..j] == e.blocks[..j];
    }
    assert e.blocks[..|e.blocks|] == e.blocks;
    if |content| != e.size {
      return Err(ChecksumMismatch);
    }
    if hash(content) != e.checksum {
      return Err(ChecksumMismatch);
    }
    return Ok(content);
  }

  method Reassemble(hash: Hash, m: Manifest, blocks: Blocks) returns (r: Result<Files>)
    ensures r == if AllGood(hash, m.contents, blocks) then Ok(FilesOf(m.contents, blocks)) else Err(ChecksumMismatch)
  {
    hide EntryGood;
    hide Resolves;
    var files: Files := map[];
    for i := 0 to |m.contents|
      invariant AllGood(hash, m.contents[..i], blocks)
      invariant forall e :: e in m.contents[..i] ==> Resolves(e.blocks, blocks)
      invariant files == FilesOf(m.contents[..i], blocks)
    {
      var e := m.contents[i];
      var content := ReassembleEntry(hash, e, blocks);
      GoodResolves(hash, e, blocks);
      if content.Err? {
        assert e in m.contents;
        return Err(ChecksumMismatch);
      }
      files := files[e.path := content.value];
      assert m.contents[..i + 1][..i] == m.contents[..i];
    }
    assert m.contents[..|m.contents|] == m.contents;
    return Ok(files);
  }

  lemma GoodResolves(hash: Hash, e: Entry, blocks: Blocks)
    ensures EntryGood(hash, e, blocks) ==> Resolves(e.blocks, blocks)
  {
  }

  // --------------------------------------------------------------- contents

  predicate IsDatabase(path: Bytes)
  {
    |path| >= |DB_SUFFIX| && path[|path| - |DB_SUFFIX|..] == DB_SUFFIX
  }

  predicate HasMagic(content: Bytes)
  {
    |content| >= |SQLITE_MAGIC| && content[..|SQLITE_MAGIC|] == SQLITE_MAGIC
  }

  predicate RequiredPresent(files: Files)
  {
    forall p :: p in REQUIRED_FILES ==> p in files
  }

  predicate DatabasesValid(entries: seq<Entry>, files: Files)
  {
    forall e :: e in entries && IsDatabase(e.path) ==> e.path in files && HasMagic(files[e.path])
  }

  function ContentsError(entries: seq<Entry>, files: Files): Result<Files>
  {
    if !RequiredPresent(files) then Err(MissingRequiredFile)
    else if !DatabasesValid(entries, files) then Err(DatabaseIntegrity)
    else Ok(files)
  }

  method VerifyContents(m: Manifest, files: Files) returns (r: Result<Files>)
    ensures r == ContentsError(m.contents, files)
  {
    hide HasMagic;
    hide IsDatabase;
    for i := 0 to |REQUIRED_FILES|
      invariant forall k :: 0 <= k < i ==> REQUIRED_FILES[k] in files
    {
      assert REQUIRED_FILES[i] in REQUIRED_FILES;
      if REQUIRED_FILES[i] !in files {
        return Err(MissingRequiredFile);
      }
    }
    for i := 0 to |m.contents|
      invariant forall k :: 0 <= k < i && IsDatabase(m.contents[k].path) ==>
                  m.contents[k].path in files && HasMagic(files[m.contents[k].path])
    {
      var e := m.contents[i];
      assert e in m.contents;
      if IsDatabase(e.path) {
        // A path that was never extracted reads as empty content.
        if e.path !in files || !HasMagic(files[e.path]) {
          return Err(DatabaseIntegrity);
        }
      }
    }
    return Ok(files);
  }

  // -------------------------------------------------------------- the whole

  /** The checks in order: version, blocks, digest, reassembly, contents. */
  ghost function Verified(hash: Hash, m: Manifest, blocks: Blocks): Result<Files>
  {
    if CheckVersion(m.version).Err? then Err(CheckVersion(m.version).error)
    else if !BlocksMatch(hash, m, blocks) then Err(ChecksumMismatch)
    else if DigestOf(hash, m.contents, blocks) != m.checksum then Err(ChecksumMismatch)
    else if !AllGood(hash, m.contents, blocks) then Err(ChecksumMismatch)
    else ContentsError(m.contents, FilesOf(m.contents, blocks))
  }

  /** The index that repeats its first entry as often as it has entries. */
  function Repeated(index: seq<Block>): seq<Block>
  {
    seq(|index|, i requires 0 <= i < |index| => index[0])
  }

  /** The digest does not cover the index: any accepted archive with two blocks or
      more is accepted as well, with the same files, under an index that names one
      block only. */
  lemma IndexCanMissABlock(hash: Hash, m: Manifest, blocks: Blocks, files: Files)
    requires Verified(hash, m, blocks) == Ok(files) && |blocks| >= 2
    ensures var again := m.(blockIndex := Repeated(m.blockIndex));
            && Verified(hash, again, blocks) == Ok(files)
            && |IndexHashes(again.blockIndex)| == 1
            && IndexHashes(again.blockIndex) < blocks.Keys
  {
    var first, again := m.blockIndex[0], m.(blockIndex := Repeated(m.blockIndex));
    assert first in m.blockIndex && again.blockIndex[0] == first;
    assert IndexHashes(again.blockIndex) == {first.hash};
    assert BlocksMatch(hash, again, blocks);
    hide BlocksMatch;
    hide AllGood;
    hide FilesOf;
    hide DigestOf;
    assert |blocks.Keys| >= 2 && |{first.hash}| == 1;
    assert {first.hash} != blocks.Keys;
  }

  method Verify(hash: Hash, m: Manifest, blocks: Blocks) returns (r: Result<Files>)
    ensures r == Verified(hash, m, blocks)
  {
    hide BlocksMatch;
    hide AllGood;
    hide FilesOf;
    hide DigestOf;
    var warning := CheckVersion(m.version);
    if warning.Err? {
      return Err(warning.error);
    }
    var ok := VerifyBlocks(hash, m, blocks);
    if !ok {
      return Err(ChecksumMismatch);
    }
    var sum := Digest(hash, m.contents, blocks);
    if sum != m.checksum {
      return Err(ChecksumMismatch);
    }
    var files := Reassemble(hash, m, blocks);
    if files.Err? {
      return Err(files.error);
    }
    r := VerifyContents(m, files.value);
  }

  // -------------------------------------------------------------- soundness

  /** Entry `i` is the one that decides the content of its path. */
  predicate Decides(entries: seq<Entry>, i: nat)
    requires i < |entries|
  {
    forall k :: i < k < |entries| ==> entries[k].path != entries[i].path
  }

  function Paths(entries: seq<Entry>): set<Bytes>
  {
    set e | e in entries :: e.path
  }

  lemma {:induction false} FilesOfPaths(entries: seq<Entry>, blocks: Blocks)
    requires forall e :: e in entries ==> Resolves(e.blocks, blocks)
    ensures FilesOf(entries, blocks).Keys == Paths(entries)
  {
    hide Resolves;
    if entries != [] {
      var k := |entries| - 1;
      FilesOfPaths(entries[..k], blocks);
      assert entries == entries[..k] + [entries[k]];
      assert Paths(entries) == Paths(entries[..k]) + {entries[k].path};
    }
  }

  lemma {:induction false} FilesOfContent(entries: seq<Entry>, blocks: Blocks, i: nat)
    requires forall e :: e in entries ==> Resolves(e.blocks, blocks)
    requires i < |entries| && Decides(entries, i)
    ensures entries[i].path in FilesOf(entries, blocks)
    ensures FilesOf(entries, blocks)[entries[i].path] == Assemble(entries[i].blocks, blocks)
  {
    hide Resolves;
    hide Assemble;
    var k := |entries| - 1;
    if i < k {
      var init := entries[..k];
      assert forall j :: 0 <= j < k ==> init[j] == entries[j];
      FilesOfContent(init, blocks, i);
      assert entries[k].path != entries[i].path;
    }
  }

  /** A file whose name ends in ".db" begins with the 16 bytes of the SQLite
      header. */
  predicate HeaderOk(path: Bytes, content: Bytes)
  {
    |path| >= 3 && path[|path| - 3..] == [46, 100, 98] ==>
      [83, 81, 76, 105, 116, 101, 32, 102, 111, 114, 109, 97, 116, 32, 51, 0] <= content
  }

  lemma HeaderIff(path: Bytes, content: Bytes)
    ensures HeaderOk(path, content) <==> (IsDatabase(path) ==> HasMagic(content))
  {
    assert DB_SUFFIX == [46, 100, 98];
    assert SQLITE_MAGIC == [83, 81, 76, 105, 116, 101, 32, 102, 111, 114, 109, 97, 116, 32, 51, 0];
  }

  lemma {:induction false} Decider(entries: seq<Entry>, path: Bytes) returns (i: nat)
    requires path in Paths(entries)
    ensures i < |entries| && entries[i].path == path && Decides(entries, i)
  {
    var k := |entries| - 1;
    if entries[k].path == path {
      i := k;
    } else {
      assert entries == entries[..k] + [entries[k]];
      i := Decider(entries[..k], path);
    }
  }

  /** Every file whose name ends in ".db" begins with the SQLite header. */
  predicate Headed(entries: seq<Entry>, blocks: Blocks)
    requires forall e :: e in entries ==> Resolves(e.blocks, blocks)
  {
    forall i :: 0 <= i < |entries| && Decides(entries, i) ==>
      HeaderOk(entries[i].path, Assemble(entries[i].blocks, blocks))
  }

  lemma HeadedIff(entries: seq<Entry>, blocks: Blocks)
    requires forall e :: e in entries ==> Resolves(e.blocks, blocks)
    ensures DatabasesValid(entries, FilesOf(entries, blocks)) <==> Headed(entries, blocks)
  {
    hide Assemble;
    hide FilesOf;
    hide IsDatabase;
    hide HasMagic;
    hide HeaderOk;
    hide Resolves;
    hide Paths;
    var files := FilesOf(entries, blocks);
    FilesOfPaths(entries, blocks);
    if Headed(entries, blocks) {
      forall e | e in entries && IsDatabase(e.path) ensures e.path in files && HasMagic(files[e.path]) {
        HasPath(entries, e);
        var i := Decider(entries, e.path);
        FilesOfContent(entries, blocks, i);
        HeaderIff(e.path, files[e.path]);
      }
    }
    if DatabasesValid(entries, files) {
      forall i | 0 <= i < |entries| && Decides(entries, i)
        ensures HeaderOk(entries[i].path, Assemble(entries[i].blocks, blocks))
      {
        assert entries[i] in entries;
        FilesOfContent(entries, blocks, i);
        HeaderIff(entries[i].path, files[entries[i].path]);
      }
    }
  }

  lemma HasPath(entries: seq<Entry>, e: Entry)
    requires e in entries
    ensures e.path in Paths(entries)
  {
  }

  /** What acceptance takes, all of it and no more: format 1 or older; blocks that
      hash to their names, as many as the index lists and of the sizes it gives;
      the recorded digest; for every entry its blocks, size and hash; the required
      files; and the header in every file whose name ends in ".db". */
  lemma AcceptedIff(hash: Hash, m: Manifest, blocks: Blocks)
    ensures Verified(hash, m, blocks).Ok? <==>
              && m.version.Version? && m.version.major <= 1
              && (forall n :: n in blocks ==> hash(blocks[n]) == n)
              && |m.blockIndex| == |blocks|
              && (forall b :: b in m.blockIndex ==> b.hash in blocks && |blocks[b.hash]| == b.size)
              && m.checksum == Ascii("sha256:") + hash(Canonical(m.contents, blocks))
              && (forall e :: e in m.contents ==> Resolves(e.blocks, blocks))
              && (forall e :: e in m.contents ==>
                    |Assemble(e.blocks, blocks)| == e.size && hash(Assemble(e.blocks, blocks)) == e.checksum)
              && (forall p :: p in [Ascii("config/server.yml"), Ascii("data/server.db"), Ascii("data/users.db")] ==>
                    p in Paths(m.contents))
              && Headed(m.contents, blocks)
  {
    hide Assemble;
    hide Canonical;
    hide Ascii;
    AllGoodIff(hash, m.contents, blocks);
    VersionWarns(m.version);
    AllChecks(hash, m, blocks);
    hide Verified;
    hide CheckVersion;
    hide AllGood;
    hide Headed;
    hide Resolves;
    hide Paths;
  }

  /** The checks of a verification, without their order. */
  lemma AllChecks(hash: Hash, m: Manifest, blocks: Blocks)
    ensures Verified(hash, m, blocks).Ok? <==>
              && CheckVersion(m.version).Ok? && BlocksMatch(hash, m, blocks)
              && DigestOf(hash, m.contents, blocks) == m.checksum && AllGood(hash, m.contents, blocks)
              && (forall p :: p in REQUIRED_FILES ==> p in Paths(m.contents))
              && Headed(m.contents, blocks)
  {
    hide CheckVersion;
    hide BlocksMatch;
    hide DigestOf;
    hide Assemble;
    AllGoodIff(hash, m.contents, blocks);
    hide AllGood;
    if forall e :: e in m.contents ==> Resolves(e.blocks, blocks) {
      FilesOfPaths(m.contents, blocks);
      HeadedIff(m.contents, blocks);
    }
    hide Headed;
    hide FilesOf;
    hide Resolves;
    hide DatabasesValid;
    hide Paths;
  }

  lemma AllGoodIff(hash: Hash, entries: seq<Entry>, blocks: Blocks)
    ensures AllGood(hash, entries, blocks) <==>
              && (forall e :: e in entries ==> Resolves(e.blocks, blocks))
              && (forall e :: e in entries ==>
                    |Assemble(e.blocks, blocks)| == e.size && hash(Assemble(e.blocks, blocks)) == e.checksum)
  {
    hide Assemble;
    hide Resolves;
    if AllGood(hash, entries, blocks) {
      forall e | e in entries ensures EntryGood(hash, e, blocks) { }
    }
  }

  /** Which error a refused archive gets: the version first, then anything wrong
      with blocks, digest or entries, then a missing file, then a bad database. */
  lemma RefusedWith(hash: Hash, m: Manifest, blocks: Blocks)
    ensures var r := Verified(hash, m, blocks);
            && (m.version.Missing? ==> r == Err(ManifestMissing))
            && (m.version.Malformed? ==> r == Err(InvalidFormat))
            && (m.version.Version? && m.version.major > 1 ==> r == Err(IncompatibleVersion))
            && (m.version.Version? && m.version.major <= 1 && r.Err? ==>
                  r.error in {ChecksumMismatch, MissingRequiredFile, DatabaseIntegrity})
            && (r == Err(DatabaseIntegrity) ==> !Headed(m.contents, blocks))
  {
    hide Assemble;
    hide DigestOf;
    hide Ascii;
    AllGoodIff(hash, m.contents, blocks);
    hide AllGood;
    if forall e :: e in m.contents ==> Resolves(e.blocks, blocks) {
      HeadedIff(m.contents, blocks);
    }
    hide Headed;
    hide FilesOf;
    hide Resolves;
    hide DatabasesValid;
    hide BlocksMatch;
  }

  /** Acceptance means: the files are exactly the listed paths, each is the
      concatenation of its blocks with the recorded size and checksum, the
      required files are there, and every database has its header. */
  lemma VerifySound(hash: Hash, m: Manifest, blocks: Blocks, files: Files)
    requires Verified(hash, m, blocks) == Ok(files)
    ensures files.Keys == Paths(m.contents)
    ensures forall i :: 0 <= i < |m.contents| && Decides(m.contents, i) ==>
              var e := m.contents[i];
              && Resolves(e.blocks, blocks)
              && files[e.path] == Assemble(e.blocks, blocks)
              && |files[e.path]| == e.size
              && hash(files[e.path]) == e.checksum
    ensures forall p :: p in REQUIRED_FILES ==> p in files
    ensures forall p :: p in files && IsDatabase(p) ==> HasMagic(files[p])
    ensures forall n :: n in blocks ==> hash(blocks[n]) == n
  {
    hide HasMagic;
    hide IsDatabase;
    FilesOfPaths(m.contents, blocks);
    forall i | 0 <= i < |m.contents| && Decides(m.contents, i)
      ensures EntryGood(hash, m.contents[i], blocks)
      ensures files[m.contents[i].path] == Assemble(m.contents[i].blocks, blocks)
    {
      assert m.contents[i] in m.contents;
      FilesOfContent(m.contents, blocks, i);
    }
  }

  /** Two accepted archives that record the same checksum for a path give back
      the same bytes for it, however each was cut into blocks. */
  lemma SameChecksumSameBytes(hash: Hash, m: Manifest, a: Blocks, fa: Files, n: Manifest, b: Blocks, fb: Files, i: nat, j: nat)
    requires Verified(hash, m, a) == Ok(fa) && Verified(hash, n, b) == Ok(fb)
    requires i < |m.contents| && Decides(m.contents, i)
    requires j < |n.contents| && Decides(n.contents, j)
    requires m.contents[i].checksum == n.contents[j].checksum
    requires var x, y := fa.Values, fb.Values; forall c, d :: c in x && d in y && hash(c) == hash(d) ==> c == d
    ensures m.contents[i].path in fa && n.contents[j].path in fb
    ensures fa[m.contents[i].path] == fb[n.contents[j].path]
  {
    VerifySound(hash, m, a, fa);
    VerifySound(hash, n, b, fb);
    assert m.contents[i] in m.contents && n.contents[j] in n.contents;
    assert m.contents[i].path in fa.Keys && n.contents[j].path in fb.Keys;
    assert fa[m.contents[i].path] in fa.Values && fb[n.contents[j].path] in fb.Values;
  }

  predicate PlainPaths(entries: seq<Entry>)
  {
    forall e :: e in entries ==> Plain(e.path)
  }

  /** The archive checksum seals an accepted archive with plain paths, against all
      others and exactly those with plain paths: given no collision between the
      two streams, an accepted archive with the same checksum returns the same
      files if and only if none of its paths holds both a NUL and an LF, and then
      its blocks are the same and its entries up to modification times. Hex
      digests hold neither. */
  lemma ChecksumSealsIff(hash: Hash, m: Manifest, a: Blocks, fa: Files, n: Manifest, b: Blocks, fb: Files)
    requires Verified(hash, m, a) == Ok(fa) && Verified(hash, n, b) == Ok(fb)
    requires m.checksum == n.checksum && PlainPaths(m.contents)
    requires hash(Canonical(m.contents, a)) == hash(Canonical(n.contents, b)) ==>
               Canonical(m.contents, a) == Canonical(n.contents, b)
    requires forall x :: NUL !in hash(x) && LF !in hash(x)
    ensures fa == fb <==> PlainPaths(n.contents)
    ensures PlainPaths(n.contents) ==> a == b && SealedAll(m.contents) == SealedAll(n.contents)
  {
    hide HasMagic;
    hide IsDatabase;
    if PlainPaths(n.contents) {
      SealedByChecksum(hash, m, a, fa, n, b, fb);
    } else {
      VerifySound(hash, m, a, fa);
      VerifySound(hash, n, b, fb);
      hide Verified;
      var e :| e in n.contents && !Plain(e.path);
      assert e.path in Paths(n.contents) && e.path !in Paths(m.contents);
    }
  }

  lemma SealedByChecksum(hash: Hash, m: Manifest, a: Blocks, fa: Files, n: Manifest, b: Blocks, fb: Files)
    requires Verified(hash, m, a) == Ok(fa) && Verified(hash, n, b) == Ok(fb)
    requires m.checksum == n.checksum && PlainPaths(m.contents) && PlainPaths(n.contents)
    requires hash(Canonical(m.contents, a)) == hash(Canonical(n.contents, b)) ==>
               Canonical(m.contents, a) == Canonical(n.contents, b)
    requires forall x :: NUL !in hash(x) && LF !in hash(x)
    ensures a == b && SealedAll(m.contents) == SealedAll(n.contents) && fa == fb
  {
    var x, y := hash(Canonical(m.contents, a)), hash(Canonical(n.contents, b));
    assert (Ascii("sha256:") + x)[7..] == x && (Ascii("sha256:") + y)[7..] == y;
    GoodIsClean(hash, m.contents, a);
    GoodIsClean(hash, n.contents, b);
    CanonicalInjective(m.contents, a, n.contents, b);
    SealedSameFiles(m.contents, n.contents, a);
  }

  lemma GoodIsClean(hash: Hash, entries: seq<Entry>, blocks: Blocks)
    requires AllGood(hash, entries, blocks) && forall n :: n in blocks ==> hash(blocks[n]) == n
    requires forall x :: NUL !in hash(x) && LF !in hash(x)
    requires PlainPaths(entries)
    ensures forall e :: e in entries ==> CleanEntry(e)
    ensures forall n :: n in blocks ==> NUL !in n
  {
    forall e | e in entries ensures CleanEntry(e) {
      assert EntryGood(hash, e, blocks);
      assert forall b :: b in e.blocks ==> hash(blocks[b]) == b;
    }
  }

  lemma {:induction false} SealedSameFiles(a: seq<Entry>, b: seq<Entry>, blocks: Blocks)
    requires SealedAll(a) == SealedAll(b)
    requires forall e :: e in a ==> Resolves(e.blocks, blocks)
    requires forall e :: e in b ==> Resolves(e.blocks, blocks)
    ensures FilesOf(a, blocks) == FilesOf(b, blocks)
  {
    hide Resolves;
    assert |a| == |SealedAll(a)| == |b|;
    if a != [] {
      var k := |a| - 1;
      assert Sealed(a[k]) == SealedAll(a)[k] == Sealed(b[k]);
      assert SealedAll(a[..k]) == SealedAll(a)[..k] == SealedAll(b[..k]);
      SealedSameFiles(a[..k], b[..k], blocks);
    }
  }

  // --------------------------------------------------------- second readings

  /** The suffix test does not see what a merged path begins with. */
  lemma MergedDatabase(e: Entry, f: Entry)
    ensures IsDatabase(Merged(e, f).path) <==> IsDatabase(f.path)
  {
    var u := Untagged(e) + [FILE];
    var p := Merged(e, f).path;
    hide Untagged;
    assert p == u + ([NUL] + f.path);
    assert DB_SUFFIX[0] != NUL && DB_SUFFIX[1] != NUL && DB_SUFFIX[2] != NUL;
    if |f.path| >= 3 {
      assert p[|p| - 3..] == f.path[|f.path| - 3..];
    } else if |p| >= 3 {
      assert p[|p| - |f.path| - 1] == NUL;
      assert p[|p| - 3..][2 - |f.path|] == NUL;
    }
  }

  /** What merging two neighbours with paths of their own does to the files: both
      go, one comes, and the others stay as they are. */
  lemma {:induction false} MergedFiles(pre: seq<Entry>, e: Entry, f: Entry, g: Entry, post: seq<Entry>, blocks: Blocks)
    requires forall h :: h in pre + [e, f] + post ==> Resolves(h.blocks, blocks)
    requires forall h :: h in pre + [g] + post ==> Resolves(h.blocks, blocks)
    requires e.path !in Paths(pre + post) && f.path !in Paths(pre + post) && g.blocks == f.blocks
    ensures var x, y := FilesOf(pre + [e, f] + post, blocks), FilesOf(pre + [g] + post, blocks);
            && (forall p :: p in y && p != g.path ==> p in x && x[p] == y[p])
            && (g.path in y ==> y[g.path] == Assemble(f.blocks, blocks) || (g.path in Paths(pre + post) && g.path in x && y[g.path] == x[g.path]))
    decreases |post|
  {
    hide Resolves;
    hide Assemble;
    hide FilesOf;
    hide Paths;
    if post == [] {
      assert pre + [e, f] + post == pre + [e, f] && pre + [g] + post == pre + [g] && pre + post == pre;
      MergedLast(pre, e, f, g, blocks);
    } else {
      var k := |post| - 1;
      var init, h := post[..k], post[k];
      var with, merged := pre + [e, f] + init, pre + [g] + init;
      assert pre + [e, f] + post == with + [h] && pre + [g] + post == merged + [h] && pre + post == (pre + init) + [h];
      assert forall q :: q in with ==> q in with + [h];
      assert forall q :: q in merged ==> q in merged + [h];
      PathsSnoc(pre + init, h);
      FilesSnoc(with, h, blocks);
      FilesSnoc(merged, h, blocks);
      MergedFiles(pre, e, f, g, init, blocks);
    }
  }

  lemma PathsSnoc(entries: seq<Entry>, h: Entry)
    ensures Paths(entries + [h]) == Paths(entries) + {h.path}
  {
  }

  lemma FilesSnoc(entries: seq<Entry>, h: Entry, blocks: Blocks)
    requires forall x :: x in entries + [h] ==> Resolves(x.blocks, blocks)
    ensures forall x :: x in entries ==> Resolves(x.blocks, blocks)
    ensures Resolves(h.blocks, blocks)
    ensures FilesOf(entries + [h], blocks) == FilesOf(entries, blocks)[h.path := Assemble(h.blocks, blocks)]
  {
    hide Resolves;
    hide Assemble;
    assert (entries + [h])[..|entries|] == entries;
  }

  lemma MergedLast(pre: seq<Entry>, e: Entry, f: Entry, g: Entry, blocks: Blocks)
    requires forall h :: h in pre + [e, f] ==> Resolves(h.blocks, blocks)
    requires forall h :: h in pre + [g] ==> Resolves(h.blocks, blocks)
    requires e.path !in Paths(pre) && f.path !in Paths(pre) && g.blocks == f.blocks
    ensures var x, y := FilesOf(pre + [e, f], blocks), FilesOf(pre + [g], blocks);
            && (forall p :: p in y && p != g.path ==> p in x && x[p] == y[p])
            && g.path in y && y[g.path] == Assemble(f.blocks, blocks)
  {
    hide Resolves;
    hide Assemble;
    assert pre + [e, f] == pre + [e] + [f];
    FilesSnoc(pre + [e], f, blocks);
    FilesSnoc(pre, e, blocks);
    FilesSnoc(pre, g, blocks);
    FilesOfPaths(pre, blocks);
    hide FilesOf;
  }

  /** The two entries merged, everything else of the manifest as it is. */
  function MergedManifest(m: Manifest, pre: seq<Entry>, e: Entry, f: Entry, post: seq<Entry>): Manifest
  {
    m.(contents := pre + [Merged(e, f)] + post)
  }

  lemma MergedGood(hash: Hash, pre: seq<Entry>, e: Entry, f: Entry, post: seq<Entry>, blocks: Blocks)
    requires AllGood(hash, pre + [e, f] + post, blocks)
    ensures AllGood(hash, pre + [Merged(e, f)] + post, blocks)
    ensures DigestOf(hash, pre + [Merged(e, f)] + post, blocks) == DigestOf(hash, pre + [e, f] + post, blocks)
  {
    MergedStream(pre, e, f, post, DataRecords(SortedNames(blocks.Keys), blocks));
    MergedFields(e, f);
    assert f in pre + [e, f] + post;
    hide Merged;
    forall h | h in pre + [Merged(e, f)] + post ensures EntryGood(hash, h, blocks) {
      if h != Merged(e, f) {
        assert h in pre + [e, f] + post;
      }
    }
  }

  lemma MergedDatabases(pre: seq<Entry>, e: Entry, f: Entry, post: seq<Entry>, blocks: Blocks)
    requires forall h :: h in pre + [e, f] + post ==> Resolves(h.blocks, blocks)
    requires forall h :: h in pre + [Merged(e, f)] + post ==> Resolves(h.blocks, blocks)
    requires e.path !in Paths(pre + post) && f.path !in Paths(pre + post)
    requires DatabasesValid(pre + [e, f] + post, FilesOf(pre + [e, f] + post, blocks))
    ensures DatabasesValid(pre + [Merged(e, f)] + post, FilesOf(pre + [Merged(e, f)] + post, blocks))
  {
    var g := Merged(e, f);
    var a, b := pre + [e, f] + post, pre + [g] + post;
    MergedFields(e, f);
    MergedDatabase(e, f);
    MergedFiles(pre, e, f, g, post, blocks);
    FilesOfPaths(b, blocks);
    assert a[|pre| + 1] == f && Decides(a, |pre| + 1) by { LaterPaths(pre, e, f, post); }
    FilesOfContent(a, blocks, |pre| + 1);
    hide Merged;
    hide FilesOf;
    hide Assemble;
    hide IsDatabase;
    hide HasMagic;
    hide Resolves;
    forall h | h in b && IsDatabase(h.path)
      ensures h.path in FilesOf(b, blocks) && HasMagic(FilesOf(b, blocks)[h.path])
    {
      assert h.path in Paths(b);
      if h.path != g.path {
        assert h in a;
      } else {
        assert f in a;
        if g.path in Paths(pre + post) {
          var other :| other in pre + post && other.path == g.path;
          assert other in a;
        }
      }
    }
  }

  lemma LaterPaths(pre: seq<Entry>, e: Entry, f: Entry, post: seq<Entry>)
    requires f.path !in Paths(pre + post)
    ensures Decides(pre + [e, f] + post, |pre| + 1)
  {
    var a := pre + [e, f] + post;
    forall j | |pre| + 1 < j < |a| ensures a[j].path != f.path {
      assert a[j] == post[j - |pre| - 2];
      assert a[j] in pre + post;
    }
  }

  /** Merging two neighbouring entries with paths of their own, in an accepted
      archive, keeps the checksum and is accepted if and only if neither file was
      required: both are then missing, and one with a NUL and an LF in its path
      has appeared. */
  lemma MergedAcceptedIff(hash: Hash, m: Manifest, blocks: Blocks, files: Files, pre: seq<Entry>, e: Entry, f: Entry, post: seq<Entry>)
    requires Verified(hash, m, blocks) == Ok(files) && m.contents == pre + [e, f] + post
    requires e.path !in Paths(pre + post) && f.path !in Paths(pre + post)
    ensures var double := MergedManifest(m, pre, e, f, post);
            var r := Verified(hash, double, blocks);
            && double.checksum == m.checksum
            && (r.Ok? <==> e.path !in REQUIRED_FILES && f.path !in REQUIRED_FILES)
            && (r.Ok? ==> r.value.Keys == Paths(pre + post) + {Merged(e, f).path} && e.path in files && e.path !in r.value && r.value != files)
  {
    hide BlocksMatch;
    hide DigestOf;
    hide AllGood;
    hide Resolves;
    hide FilesOf;
    hide DatabasesValid;
    hide Paths;
    hide Merged;
    var double, g := MergedManifest(m, pre, e, f, post), Merged(e, f);
    MergedGood(hash, pre, e, f, post, blocks);
    MergedFields(e, f);
    SameIndex(hash, m, double, blocks);
    AllResolve(hash, m.contents, blocks);
    AllResolve(hash, double.contents, blocks);
    MergedDatabases(pre, e, f, post, blocks);
    FilesOfPaths(double.contents, blocks);
    FilesOfPaths(m.contents, blocks);
    MergedPaths(pre, e, f, g, post);
    RequiredArePlain();
  }

  lemma SameIndex(hash: Hash, m: Manifest, n: Manifest, blocks: Blocks)
    requires m.blockIndex == n.blockIndex
    ensures BlocksMatch(hash, m, blocks) == BlocksMatch(hash, n, blocks)
  {
  }

  lemma RequiredArePlain()
    ensures forall p :: p in REQUIRED_FILES ==> Plain(p)
  {
  }

  lemma AllResolve(hash: Hash, entries: seq<Entry>, blocks: Blocks)
    requires AllGood(hash, entries, blocks)
    ensures forall h :: h in entries ==> Resolves(h.blocks, blocks)
  {
    hide Resolves;
    hide Assemble;
    forall h | h in entries ensures Resolves(h.blocks, blocks) {
      assert EntryGood(hash, h, blocks);
    }
  }

  lemma MergedPaths(pre: seq<Entry>, e: Entry, f: Entry, g: Entry, post: seq<Entry>)
    requires e.path != g.path && e.path !in Paths(pre + post)
    ensures Paths(pre + [g] + post) == Paths(pre + post) + {g.path}
    ensures Paths(pre + [e, f] + post) == Paths(pre + post) + {e.path, f.path}
    ensures e.path !in Paths(pre + [g] + post)
  {
    PathsIn(pre, [g], post);
    PathsIn(pre, [e, f], post);
    assert Paths([g]) == {g.path};
    assert Paths([e, f]) == {e.path, f.path} by { assert [e, f] == [e] + [f]; PathsSnoc([e], f); }
  }

  lemma PathsIn(pre: seq<Entry>, mid: seq<Entry>, post: seq<Entry>)
    ensures Paths(pre + mid + post) == Paths(pre + post) + Paths(mid)
  {
    forall p ensures p in Paths(pre + mid + post) <==> p in Paths(pre + post) || p in Paths(mid) {
      if p in Paths(pre + mid + post) {
        var h :| h in pre + mid + post && h.path == p;
        assert h in pre + post || h in mid;
      }
      if p in Paths(pre + post) {
        var h :| h in pre + post && h.path == p;
        assert h in pre + mid + post;
      }
      if p in Paths(mid) {
        var h :| h in mid && h.path == p;
        assert h in pre + mid + post;
      }
    }
  }
}
