/** The manifest, its deduplication index, and the canonical digest that seals it. */
module Manifest {
  import opened Bytes
  import Decimal

  /** SHA-256 in lowercase hex, as an unknown function. */
  type Hash = Bytes -> Bytes

  /** Deduplicated content: each block under its hash. */
  type Blocks = map<Bytes, Bytes>

  datatype Entry = Entry(path: Bytes, mode: nat, size: int, modTime: int, checksum: Bytes, blocks: seq<Bytes>)

  datatype Block = Block(hash: Bytes, size: int)

  /** The `version` field after parsing. */
  datatype Version = Missing | Malformed | Version(major: nat, minor: nat, patch: nat)

  datatype Manifest = Manifest(
    version: Version,
    contents: seq<Entry>,
    blockIndex: seq<Block>,
    checksum: Bytes,
    originalSize: int,
    storedSize: int)

  datatype Error =
    | ReadFailed
    | ManifestMissing
    | InvalidFormat
    | IncompatibleVersion
    | ChecksumMismatch
    | MissingRequiredFile
    | DatabaseIntegrity

  datatype Result<+T> = Ok(value: T) | Err(error: Error)

  const NUL: Byte := 0
  const LF: Byte := 10

  // ------------------------------------------------------------ sorted names

  /** `names` with `x` put before the first larger name. */
  function Insert(names: seq<Bytes>, x: Bytes): (r: seq<Bytes>)
    requires Sorted(names) && x !in names
    ensures Sorted(r)
    ensures forall y :: y in r <==> y == x || y in names
  {
    if names == [] then [x]
    else if Less(x, names[0]) then
      assert forall j :: 0 < j < |names| ==> Less(x, names[j]) by {
        forall j | 0 < j < |names| ensures Less(x, names[j]) { LessTransitive(x, names[0], names[j]); }
      }
      [x] + names
    else
      LessTrichotomy(x, names[0]);
      var rest := Insert(names[1..], x);
      assert forall j :: 0 <= j < |rest| ==> Less(names[0], rest[j]) by {
        forall j | 0 <= j < |rest| ensures Less(names[0], rest[j]) { assert rest[j] in rest; }
      }
      [names[0]] + rest
  }

  /** The one sorted listing of a set of names. */
  ghost function SortedNames(s: set<Bytes>): (r: seq<Bytes>)
    ensures Sorted(r)
    ensures forall x :: x in r <==> x in s
  {
    if s == {} then [] else
    var x :| x in s;
    Insert(SortedNames(s - {x}), x)
  }

  /** `for name := range m` yields the keys in any order; sorting removes the choice. */
  method CollectSorted(s: set<Bytes>) returns (names: seq<Bytes>)
    ensures names == SortedNames(s)
  {
    names := [];
    var left := s;
    while left != {}
      invariant left <= s
      invariant Sorted(names)
      invariant forall x :: x in names <==> x in s - left
      decreases left
    {
      var x :| x in left;
      names := Insert(names, x);
      left := left - {x};
    }
    SortedListingUnique(names, SortedNames(s));
  }

  // ------------------------------------------------------- index and digest

  function IndexOf(names: seq<Bytes>, blocks: Blocks): (r: seq<Block>)
    requires forall x :: x in names ==> x in blocks
    ensures |r| == |names|
    ensures forall i :: 0 <= i < |r| ==> r[i] == Block(names[i], |blocks[names[i]]|)
  {
    seq(|names|, i requires 0 <= i < |names| => Block(names[i], |blocks[names[i]]|))
  }

  method BlockIndex(blocks: Blocks) returns (out: seq<Block>)
    ensures out == IndexOf(SortedNames(blocks.Keys), blocks)
  {
    hide SortedNames;
    var names := CollectSorted(blocks.Keys);
    out := [];
    for i := 0 to |names|
      invariant out == IndexOf(names[..i], blocks)
    {
      assert names[i] in names;
      IndexSnoc(names, i, blocks);
      out := out + [Block(names[i], |blocks[names[i]]|)];
    }
    assert names[..|names|] == names;
  }

  lemma IndexSnoc(names: seq<Bytes>, i: nat, blocks: Blocks)
    requires i < |names| && forall x :: x in names ==> x in blocks
    ensures IndexOf(names[..i + 1], blocks) == IndexOf(names[..i], blocks) + [Block(names[i], |blocks[names[i]]|)]
  {
  }

  function Number(n: int): Bytes
  {
    Ascii(Decimal.Print(n))
  }

  // Records are written with the rest of the stream as an argument.

  /** A record of kind `c`. */
  function Tag(c: Byte, rest: Bytes): Bytes
  {
    [c, NUL] + rest
  }

  /** A field ended by `sep`. */
  function Field(a: Bytes, sep: Byte, rest: Bytes): Bytes
  {
    a + ([sep] + rest)
  }

  const FILE: Byte := 70
  const REFERENCE: Byte := 66
  const DATA: Byte := 68

  function References(names: seq<Bytes>, rest: Bytes): Bytes
  {
    if names == [] then rest else Tag(REFERENCE, Field(names[0], LF, References(names[1..], rest)))
  }

  function EntryHead(e: Entry, rest: Bytes): Bytes
  {
    Tag(FILE, Field(e.path, NUL, Field(Number(e.mode), NUL, Field(Number(e.size), NUL, Field(e.checksum, LF, rest)))))
  }

  function EntryRecords(entries: seq<Entry>, rest: Bytes): Bytes
  {
    if entries == [] then rest
    else EntryHead(entries[0], References(entries[0].blocks, EntryRecords(entries[1..], rest)))
  }

  function DataHead(name: Bytes, size: nat, rest: Bytes): Bytes
  {
    Tag(DATA, Field(name, NUL, Field(Number(size), LF, rest)))
  }

  function DataRecords(names: seq<Bytes>, blocks: Blocks): Bytes
    requires forall x :: x in names ==> x in blocks
  {
    if names == [] then []
    else DataHead(names[0], |blocks[names[0]]|, blocks[names[0]] + DataRecords(names[1..], blocks))
  }

  /** The byte stream the archive checksum is taken over. */
  ghost function Canonical(entries: seq<Entry>, blocks: Blocks): Bytes
  {
    EntryRecords(entries, DataRecords(SortedNames(blocks.Keys), blocks))
  }

  ghost function DigestOf(hash: Hash, entries: seq<Entry>, blocks: Blocks): Bytes
  {
    Ascii("sha256:") + hash(Canonical(entries, blocks))
  }

  lemma FieldAppend(a: Bytes, sep: Byte, x: Bytes, y: Bytes)
    ensures Field(a, sep, x + y) == Field(a, sep, x) + y
  {
    assert a + ([sep] + (x + y)) == a + ([sep] + x) + y;
  }

  lemma TagAppend(c: Byte, x: Bytes, y: Bytes)
    ensures Tag(c, x + y) == Tag(c, x) + y
  {
    assert [c, NUL] + (x + y) == [c, NUL] + x + y;
  }

  /** A head is written before the rest of the stream is known. */
  lemma EntryHeadAppend(e: Entry, rest: Bytes)
    ensures EntryHead(e, rest) == EntryHead(e, []) + rest
  {
    hide Tag;
    hide Field;
    hide Number;
    assert [] + rest == rest;
    var f4 := Field(e.checksum, LF, []);
    var f3 := Field(Number(e.size), NUL, f4);
    var f2 := Field(Number(e.mode), NUL, f3);
    FieldAppend(e.checksum, LF, [], rest);
    FieldAppend(Number(e.size), NUL, f4, rest);
    FieldAppend(Number(e.mode), NUL, f3, rest);
    FieldAppend(e.path, NUL, f2, rest);
    TagAppend(FILE, Field(e.path, NUL, f2), rest);
  }

  lemma ReferenceAppend(name: Bytes, rest: Bytes)
    ensures Tag(REFERENCE, Field(name, LF, rest)) == Tag(REFERENCE, Field(name, LF, [])) + rest
  {
    hide Tag;
    hide Field;
    assert [] + rest == rest;
    FieldAppend(name, LF, [], rest);
    TagAppend(REFERENCE, Field(name, LF, []), rest);
  }

  lemma DataHeadAppend(name: Bytes, size: nat, rest: Bytes)
    ensures DataHead(name, size, rest) == DataHead(name, size, []) + rest
  {
    hide Tag;
    hide Field;
    hide Number;
    assert [] + rest == rest;
    var f := Field(Number(size), LF, []);
    FieldAppend(Number(size), LF, [], rest);
    FieldAppend(name, NUL, f, rest);
    TagAppend(DATA, Field(name, NUL, f), rest);
  }

  /** The bytes written for one entry and its block references. */
  method WriteEntry(e: Entry, stream: Bytes, ghost rest: Bytes) returns (out: Bytes)
    ensures out + rest == stream + EntryHead(e, References(e.blocks, rest))
  {
    hide EntryHead;
    hide Tag;
    hide Field;
    out := stream + EntryHead(e, []);
    EntryHeadAppend(e, References(e.blocks, rest));
    ghost var whole := stream + EntryHead(e, References(e.blocks, rest));
    assert whole == out + References(e.blocks[0..], rest);
    for j := 0 to |e.blocks|
      invariant whole == out + References(e.blocks[j..], rest)
    {
      var r := Tag(REFERENCE, Field(e.blocks[j], LF, []));
      ReferenceAppend(e.blocks[j], References(e.blocks[j + 1..], rest));
      assert e.blocks[j..][1..] == e.blocks[j + 1..];
      out := out + r;
    }
    assert e.blocks[|e.blocks|..] == [];
  }

  lemma DataStep(out: Bytes, names: seq<Bytes>, i: nat, blocks: Blocks)
    requires i < |names| && forall x :: x in names ==> x in blocks
    ensures var data := blocks[names[i]];
            out + DataRecords(names[i..], blocks) ==
              (out + DataHead(names[i], |data|, []) + data) + DataRecords(names[i + 1..], blocks)
  {
    hide DataHead;
    var data, rest := blocks[names[i]], DataRecords(names[i + 1..], blocks);
    assert names[i..][0] == names[i] && names[i..][1..] == names[i + 1..];
    assert DataRecords(names[i..], blocks) == DataHead(names[i], |data|, data + rest);
    hide DataRecords;
    DataHeadAppend(names[i], |data|, data + rest);
    var head := DataHead(names[i], |data|, []);
    assert out + (head + (data + rest)) == (out + head + data) + rest;
  }

  /** The bytes written for every stored block, in name order. */
  method WriteBlocks(blocks: Blocks, stream: Bytes) returns (out: Bytes)
    ensures out == stream + DataRecords(SortedNames(blocks.Keys), blocks)
  {
    hide DataHead;
    var names := CollectSorted(blocks.Keys);
    ghost var whole := stream + DataRecords(names, blocks);
    out := stream;
    assert names[0..] == names;
    assert DataRecords([], blocks) == [];
    hide DataRecords;
    for i := 0 to |names|
      invariant whole == out + DataRecords(names[i..], blocks)
    {
      var data := blocks[names[i]];
      DataStep(out, names, i, blocks);
      out := out + DataHead(names[i], |data|, []) + data;
    }
    assert names[|names|..] == [];
  }

  /** The running hash over entries, then over blocks in name order. */
  method Digest(hash: Hash, entries: seq<Entry>, blocks: Blocks) returns (sum: Bytes)
    ensures sum == DigestOf(hash, entries, blocks)
  {
    hide EntryHead;
    hide References;
    ghost var tail := DataRecords(SortedNames(blocks.Keys), blocks);
    hide DataRecords;
    var stream: Bytes := [];
    assert entries[0..] == entries;
    for i := 0 to |entries|
      invariant stream + EntryRecords(entries[i..], tail) == Canonical(entries, blocks)
    {
      assert entries[i..][1..] == entries[i + 1..];
      stream := WriteEntry(entries[i], stream, EntryRecords(entries[i + 1..], tail));
    }
    assert entries[|entries|..] == [];
    stream := WriteBlocks(blocks, stream);
    sum := Ascii("sha256:") + hash(stream);
  }

  // ---------------------------------------------- what the digest determines

  /** A separator that occurs in neither field ends both at the same place. */
  lemma FieldUnique(a: Bytes, sep: Byte, x: Bytes, b: Bytes, y: Bytes)
    requires sep !in a && sep !in b
    requires Field(a, sep, x) == Field(b, sep, y)
    ensures a == b && x == y
  {
    var s := Field(a, sep, x);
    assert s[|a|] == sep && s[|b|] == sep;
    assert forall i :: 0 <= i < |a| ==> s[i] != sep;
    assert forall i :: 0 <= i < |b| ==> s[i] != sep;
    assert a == s[..|a|] && b == s[..|b|];
    assert x == s[|a| + 1..] && y == s[|b| + 1..];
  }

  lemma TagUnique(c: Byte, x: Bytes, y: Bytes)
    requires Tag(c, x) == Tag(c, y)
    ensures x == y
  {
    assert x == Tag(c, x)[2..] && y == Tag(c, y)[2..];
  }

  /** Begins with a record of kind `c`. */
  predicate Starts(c: Byte, s: Bytes)
  {
    s != [] && s[0] == c
  }

  lemma NumberClean(n: int)
    ensures NUL !in Number(n) && LF !in Number(n)
  {
  }

  lemma NumberInjective(m: int, n: int)
    requires Number(m) == Number(n)
    ensures m == n
  {
    var p, q := Decimal.Print(m), Decimal.Print(n);
    assert |p| == |q|;
    forall i | 0 <= i < |p| ensures p[i] == q[i] {
      assert Ascii(p)[i] == Ascii(q)[i];
    }
    assert p == q;
    Decimal.PrintInjective(m, n);
  }

  /** What the digest records of an entry: everything but its modification time. */
  function Sealed(e: Entry): Entry
  {
    e.(modTime := 0)
  }

  /** A path that holds one of the separators at most. */
  predicate Plain(path: Bytes)
  {
    NUL !in path || LF !in path
  }

  predicate CleanEntry(e: Entry)
  {
    && Plain(e.path) && NUL !in e.checksum && LF !in e.checksum
    && forall b :: b in e.blocks ==> LF !in b
  }

  lemma {:induction false} ReferencesUnique(a: seq<Bytes>, x: Bytes, b: seq<Bytes>, y: Bytes)
    requires (forall n :: n in a ==> LF !in n) && (forall n :: n in b ==> LF !in n)
    requires !Starts(REFERENCE, x) && !Starts(REFERENCE, y)
    requires References(a, x) == References(b, y)
    ensures a == b && x == y
    decreases |a| + |b|
  {
    hide Field;
    if a != [] && b != [] {
      var p, q := References(a[1..], x), References(b[1..], y);
      TagUnique(REFERENCE, Field(a[0], LF, p), Field(b[0], LF, q));
      FieldUnique(a[0], LF, p, b[0], q);
      ReferencesUnique(a[1..], x, b[1..], y);
      assert a == [a[0]] + a[1..] && b == [b[0]] + b[1..];
    } else {
      assert a == [] || Starts(REFERENCE, References(a, x));
      assert b == [] || Starts(REFERENCE, References(b, y));
    }
  }

  /** A separator that occurs after it in neither field starts both last fields
      at the same place. */
  lemma LastFieldUnique(a: Bytes, sep: Byte, x: Bytes, b: Bytes, y: Bytes)
    requires sep !in x && sep !in y
    requires Field(a, sep, x) == Field(b, sep, y)
    ensures a == b && x == y
  {
    var s := Field(a, sep, x);
    assert s[|a|] == sep && s[|b|] == sep;
    assert forall i :: |a| < i < |s| ==> s[i] == x[i - |a| - 1];
    assert forall i :: |b| < i < |s| ==> s[i] == y[i - |b| - 1];
    assert |a| == |b|;
    assert a == s[..|a|] && b == s[..|b|];
    assert x == s[|a| + 1..] && y == s[|b| + 1..];
  }

  lemma FieldNest(a: Bytes, s: Byte, b: Bytes, t: Byte, x: Bytes)
    ensures Field(a, s, Field(b, t, x)) == Field(Field(a, s, b), t, x)
  {
    assert a + ([s] + (b + ([t] + x))) == (a + ([s] + b)) + ([t] + x);
  }

  /** What an entry writes between its tag and the end of its line. */
  function LineOf(e: Entry): Bytes
  {
    Field(Field(Field(e.path, NUL, Number(e.mode)), NUL, Number(e.size)), NUL, e.checksum)
  }

  lemma EntryHeadIsLine(e: Entry, x: Bytes)
    ensures EntryHead(e, x) == Tag(FILE, Field(LineOf(e), LF, x))
  {
    hide Tag;
    hide Field;
    hide Number;
    var m, z, rest := Number(e.mode), Number(e.size), Field(e.checksum, LF, x);
    FieldNest(e.path, NUL, m, NUL, Field(z, NUL, rest));
    FieldNest(Field(e.path, NUL, m), NUL, z, NUL, rest);
    FieldNest(Field(Field(e.path, NUL, m), NUL, z), NUL, e.checksum, LF, x);
  }

  predicate SameHead(e: Entry, f: Entry)
  {
    e.path == f.path && e.mode == f.mode && e.size == f.size && e.checksum == f.checksum
  }

  /** Paths without a NUL are read from the left. */
  lemma ReadFromLeft(e: Entry, x: Bytes, f: Entry, y: Bytes)
    requires CleanEntry(e) && CleanEntry(f) && NUL !in e.path && NUL !in f.path
    requires EntryHead(e, x) == EntryHead(f, y)
    ensures SameHead(e, f) && x == y
  {
    hide Tag;
    hide Field;
    hide Number;
    var e4, f4 := Field(e.checksum, LF, x), Field(f.checksum, LF, y);
    var e3, f3 := Field(Number(e.size), NUL, e4), Field(Number(f.size), NUL, f4);
    var e2, f2 := Field(Number(e.mode), NUL, e3), Field(Number(f.mode), NUL, f3);
    TagUnique(FILE, Field(e.path, NUL, e2), Field(f.path, NUL, f2));
    NumberClean(e.size); NumberClean(f.size); NumberClean(e.mode); NumberClean(f.mode);
    FieldUnique(e.path, NUL, e2, f.path, f2);
    FieldUnique(Number(e.mode), NUL, e3, Number(f.mode), f3);
    FieldUnique(Number(e.size), NUL, e4, Number(f.size), f4);
    FieldUnique(e.checksum, LF, x, f.checksum, y);
    NumberInjective(e.mode, f.mode);
    NumberInjective(e.size, f.size);
  }

  lemma LineHasNoBreak(e: Entry)
    requires CleanEntry(e) && LF !in e.path
    ensures LF !in LineOf(e)
  {
    NumberClean(e.size);
    NumberClean(e.mode);
    hide Number;
  }

  /** Paths without an LF are read from the end of the line. */
  lemma ReadFromRight(e: Entry, x: Bytes, f: Entry, y: Bytes)
    requires CleanEntry(e) && CleanEntry(f) && LF !in e.path && LF !in f.path
    requires EntryHead(e, x) == EntryHead(f, y)
    ensures SameHead(e, f) && x == y
  {
    EntryHeadIsLine(e, x);
    EntryHeadIsLine(f, y);
    LineHasNoBreak(e);
    LineHasNoBreak(f);
    hide EntryHead;
    hide Tag;
    hide Field;
    hide Number;
    TagUnique(FILE, Field(LineOf(e), LF, x), Field(LineOf(f), LF, y));
    FieldUnique(LineOf(e), LF, x, LineOf(f), y);
    NumberClean(e.size); NumberClean(f.size); NumberClean(e.mode); NumberClean(f.mode);
    var e1, f1 := Field(e.path, NUL, Number(e.mode)), Field(f.path, NUL, Number(f.mode));
    LastFieldUnique(Field(e1, NUL, Number(e.size)), NUL, e.checksum, Field(f1, NUL, Number(f.size)), f.checksum);
    LastFieldUnique(e1, NUL, Number(e.size), f1, Number(f.size));
    LastFieldUnique(e.path, NUL, Number(e.mode), f.path, Number(f.mode));
    NumberInjective(e.mode, f.mode);
    NumberInjective(e.size, f.size);
  }

  /** A path with a NUL in it reaches past the first one, so it holds everything
      in front of it. */
  lemma LongerPath(e: Entry, x: Bytes, f: Entry, y: Bytes)
    requires NUL !in e.path && NUL in f.path && EntryHead(e, x) == EntryHead(f, y)
    ensures forall c :: c in e.path ==> c in f.path
  {
    hide Tag;
    hide Number;
    var u := Field(Number(e.mode), NUL, Field(Number(e.size), NUL, Field(e.checksum, LF, x)));
    var v := Field(Number(f.mode), NUL, Field(Number(f.size), NUL, Field(f.checksum, LF, y)));
    TagUnique(FILE, Field(e.path, NUL, u), Field(f.path, NUL, v));
    FirstSeparator(e.path, u, f.path, v);
  }

  lemma FirstSeparator(a: Bytes, u: Bytes, b: Bytes, v: Bytes)
    requires NUL !in a && NUL in b && Field(a, NUL, u) == Field(b, NUL, v)
    ensures forall c :: c in a ==> c in b
  {
    var s := Field(a, NUL, u);
    var k :| 0 <= k < |b| && b[k] == NUL;
    assert s[k] == b[k] && s == Field(b, NUL, v);
    assert forall i :: 0 <= i < |a| ==> s[i] == a[i];
    assert |a| <= k;
    assert forall i :: 0 <= i < |a| ==> a[i] == b[i];
  }

  lemma EntryHeadUnique(e: Entry, x: Bytes, f: Entry, y: Bytes)
    requires CleanEntry(e) && CleanEntry(f)
    requires EntryHead(e, x) == EntryHead(f, y)
    ensures SameHead(e, f) && x == y
  {
    hide EntryHead;
    hide SameHead;
    if NUL !in e.path && NUL !in f.path {
      ReadFromLeft(e, x, f, y);
    } else {
      if NUL !in e.path {
        LongerPath(e, x, f, y);
      }
      if NUL !in f.path {
        LongerPath(f, y, e, x);
      }
      ReadFromRight(e, x, f, y);
    }
  }

  function SealedAll(es: seq<Entry>): (r: seq<Entry>)
    ensures |r| == |es| && forall i :: 0 <= i < |es| ==> r[i] == Sealed(es[i])
  {
    seq(|es|, i requires 0 <= i < |es| => Sealed(es[i]))
  }

  lemma EntryRecordsStart(es: seq<Entry>, rest: Bytes)
    ensures es != [] ==> Starts(FILE, EntryRecords(es, rest))
  {
    hide Field;
  }

  lemma {:induction false} EntriesUnique(a: seq<Entry>, x: Bytes, b: seq<Entry>, y: Bytes)
    requires (forall e :: e in a ==> CleanEntry(e)) && (forall e :: e in b ==> CleanEntry(e))
    requires x == [] || Starts(DATA, x)
    requires y == [] || Starts(DATA, y)
    requires EntryRecords(a, x) == EntryRecords(b, y)
    ensures SealedAll(a) == SealedAll(b) && x == y
    decreases |a| + |b|
  {
    hide EntryHead;
    hide CleanEntry;
    EntryRecordsStart(a, x);
    EntryRecordsStart(b, y);
    if a != [] && b != [] {
      var e, f := a[0], b[0];
      var p, q := EntryRecords(a[1..], x), EntryRecords(b[1..], y);
      EntryHeadUnique(e, References(e.blocks, p), f, References(f.blocks, q));
      EntryRecordsStart(a[1..], x);
      EntryRecordsStart(b[1..], y);
      CleanReferences(e);
      CleanReferences(f);
      ReferencesUnique(e.blocks, p, f.blocks, q);
      EntriesUnique(a[1..], x, b[1..], y);
      assert SealedAll(a) == [Sealed(e)] + SealedAll(a[1..]);
      assert SealedAll(b) == [Sealed(f)] + SealedAll(b[1..]);
    }
  }

  lemma CleanReferences(e: Entry)
    requires CleanEntry(e)
    ensures forall n :: n in e.blocks ==> LF !in n
  {
  }

  lemma DataHeadUnique(a: Bytes, m: nat, x: Bytes, b: Bytes, n: nat, y: Bytes)
    requires NUL !in a && NUL !in b
    requires DataHead(a, m, x) == DataHead(b, n, y)
    ensures a == b && m == n && x == y
  {
    hide Tag;
    hide Field;
    hide Number;
    var s, u := Field(Number(m), LF, x), Field(Number(n), LF, y);
    TagUnique(DATA, Field(a, NUL, s), Field(b, NUL, u));
    FieldUnique(a, NUL, s, b, u);
    NumberClean(m);
    NumberClean(n);
    FieldUnique(Number(m), LF, x, Number(n), y);
    NumberInjective(m, n);
  }

  lemma DataRecordsStart(names: seq<Bytes>, blocks: Blocks)
    requires forall x :: x in names ==> x in blocks
    ensures DataRecords(names, blocks) == [] <==> names == []
    ensures names != [] ==> Starts(DATA, DataRecords(names, blocks))
  {
    hide Field;
  }

  lemma {:induction false} DataUnique(a: seq<Bytes>, m: Blocks, b: seq<Bytes>, n: Blocks)
    requires (forall x :: x in a ==> x in m && NUL !in x) && (forall x :: x in b ==> x in n && NUL !in x)
    requires DataRecords(a, m) == DataRecords(b, n)
    ensures a == b && forall x :: x in a ==> m[x] == n[x]
  {
    hide DataHead;
    DataRecordsStart(a, m);
    DataRecordsStart(b, n);
    if a != [] && b != [] {
      var d, f := m[a[0]], n[b[0]];
      var p, q := DataRecords(a[1..], m), DataRecords(b[1..], n);
      DataHeadUnique(a[0], |d|, d + p, b[0], |f|, f + q);
      assert d == (d + p)[..|d|] && f == (f + q)[..|f|];
      assert p == (d + p)[|d|..] && q == (f + q)[|f|..];
      DataUnique(a[1..], m, b[1..], n);
      assert a == [a[0]] + a[1..] && b == [b[0]] + b[1..];
    }
  }

  /** The canonical stream is uniquely decodable: it determines every entry, up
      to its modification time, and every stored block. */
  lemma CanonicalInjective(a: seq<Entry>, m: Blocks, b: seq<Entry>, n: Blocks)
    requires (forall e :: e in a ==> CleanEntry(e)) && (forall e :: e in b ==> CleanEntry(e))
    requires (forall x :: x in m ==> NUL !in x) && (forall x :: x in n ==> NUL !in x)
    requires Canonical(a, m) == Canonical(b, n)
    ensures SealedAll(a) == SealedAll(b) && m == n
  {
    hide CleanEntry;
    var p, q := SortedNames(m.Keys), SortedNames(n.Keys);
    DataRecordsStart(p, m);
    DataRecordsStart(q, n);
    EntriesUnique(a, DataRecords(p, m), b, DataRecords(q, n));
    DataUnique(p, m, q, n);
    forall x ensures x in m.Keys <==> x in n.Keys { assert x in p <==> x in q; }
    assert m.Keys == n.Keys;
    forall x | x in m ensures m[x] == n[x] { assert x in p; }
  }

  // --------------------------------------------------------- second readings

  lemma {:induction false} ReferencesAppend(names: seq<Bytes>, x: Bytes, y: Bytes)
    ensures References(names, x + y) == References(names, x) + y
  {
    hide Tag;
    hide Field;
    if names != [] {
      var rest := References(names[1..], x);
      ReferencesAppend(names[1..], x, y);
      FieldAppend(names[0], LF, rest, y);
      TagAppend(REFERENCE, Field(names[0], LF, rest), y);
    }
  }

  lemma EntryHeadAppends(e: Entry, x: Bytes, y: Bytes)
    ensures EntryHead(e, x + y) == EntryHead(e, x) + y
  {
    hide EntryHead;
    EntryHeadAppend(e, x + y);
    EntryHeadAppend(e, x);
    assert EntryHead(e, []) + (x + y) == EntryHead(e, []) + x + y;
  }

  /** The whole record of an entry, without the tag it begins with. */
  function Untagged(e: Entry): Bytes
  {
    EntryHead(e, References(e.blocks, []))[2..]
  }

  /** One entry whose path swallows the record in front of it. */
  function Merged(e: Entry, f: Entry): Entry
  {
    f.(path := Untagged(e) + [FILE, NUL] + f.path)
  }

  lemma RecordAppend(e: Entry, y: Bytes)
    ensures EntryHead(e, References(e.blocks, y)) == Tag(FILE, Untagged(e) + y)
  {
    ReferencesAppend(e.blocks, [], y);
    assert [] + y == y;
    EntryHeadAppends(e, References(e.blocks, []), y);
    var r := EntryHead(e, References(e.blocks, []));
    assert r[0] == FILE && r[1] == NUL by { hide Field; }
    hide EntryHead;
    hide References;
    assert r == [FILE, NUL] + Untagged(e);
    assert [FILE, NUL] + Untagged(e) + y == [FILE, NUL] + (Untagged(e) + y);
  }

  lemma MergedRecord(e: Entry, f: Entry, rest: Bytes)
    ensures EntryHead(e, References(e.blocks, EntryHead(f, rest))) == EntryHead(Merged(e, f), rest)
  {
    hide Untagged;
    hide Number;
    var tail := Field(Number(f.mode), NUL, Field(Number(f.size), NUL, Field(f.checksum, LF, rest)));
    RecordAppend(e, EntryHead(f, rest));
    assert EntryHead(f, rest) == Tag(FILE, Field(f.path, NUL, tail));
    assert EntryHead(Merged(e, f), rest) == Tag(FILE, Field(Merged(e, f).path, NUL, tail));
    hide EntryHead;
    hide References;
    assert Untagged(e) + ([FILE, NUL] + (f.path + ([NUL] + tail))) == (Untagged(e) + [FILE, NUL] + f.path) + ([NUL] + tail);
  }

  /** Every list of two entries or more has a second reading: merging two
      neighbours gives the very same stream. */
  lemma {:induction false} MergedStream(pre: seq<Entry>, e: Entry, f: Entry, post: seq<Entry>, rest: Bytes)
    ensures EntryRecords(pre + [e, f] + post, rest) == EntryRecords(pre + [Merged(e, f)] + post, rest)
  {
    hide EntryHead;
    hide References;
    hide Merged;
    if pre == [] {
      assert pre + [e, f] + post == [e, f] + post && ([e, f] + post)[1..] == [f] + post && ([f] + post)[1..] == post;
      assert pre + [Merged(e, f)] + post == [Merged(e, f)] + post && ([Merged(e, f)] + post)[1..] == post;
      MergedRecord(e, f, References(f.blocks, EntryRecords(post, rest)));
      assert Merged(e, f).blocks == f.blocks by { MergedFields(e, f); }
    } else {
      MergedStream(pre[1..], e, f, post, rest);
      assert (pre + [e, f] + post)[1..] == pre[1..] + [e, f] + post;
      assert (pre + [Merged(e, f)] + post)[1..] == pre[1..] + [Merged(e, f)] + post;
    }
  }

  /** The merged path holds both separators, and only that sets it apart. */
  lemma MergedFields(e: Entry, f: Entry)
    ensures Merged(e, f) == f.(path := Merged(e, f).path)
    ensures !Plain(Merged(e, f).path)
    ensures |Merged(e, f).path| > |e.path| && |Merged(e, f).path| > |f.path|
  {
    RecordAppend(e, []);
    EntryHeadIsLine(e, References(e.blocks, []));
    hide References;
    hide Number;
    var u := Untagged(e);
    assert u == Field(LineOf(e), LF, References(e.blocks, []));
    assert u[|LineOf(e)|] == LF;
    assert LF in u;
    var path := Merged(e, f).path;
    assert path[|u| + 1] == NUL && path[|LineOf(e)|] == LF;
  }

  /** So no condition on the paths can be dropped: whatever the entries are, two of
      them are enough for a different list with the same stream. */
  lemma SecondReading(a: seq<Entry>, rest: Bytes) returns (b: seq<Entry>)
    requires |a| >= 2
    ensures EntryRecords(b, rest) == EntryRecords(a, rest) && |b| == |a| - 1
    ensures exists e :: e in b && !Plain(e.path)
  {
    var e, f, post := a[0], a[1], a[2..];
    MergedStream([], e, f, post, rest);
    MergedFields(e, f);
    b := [Merged(e, f)] + post;
    assert [] + [e, f] + post == a && [] + [Merged(e, f)] + post == b;
    assert b[0] == Merged(e, f);
  }
}
