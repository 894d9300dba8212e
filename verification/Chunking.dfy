/** Content-defined chunking: the rolling buzhash splitter is proved equal to a
    splitter that rehashes its whole window at every byte. */
module Chunking {
  import opened Bytes

  const WINDOW: nat := 48
  const CHUNK_MIN: nat := 2048
  const CHUNK_MASK: bv64 := 0x1FFF
  const CHUNK_MAX: nat := 65536
  const GOLDEN: bv64 := 0x9E3779B97F4A7C15

  /** One 64-bit value per byte value. */
  type Table = t: seq<bv64> | |t| == 256 witness seq(256, _ => 0)

  // ---------------------------------------------------------------- rotation

  function Rotate1(x: bv64): bv64
  {
    (x << 1) | (x >> 63)
  }

  /** `x` rotated left by `n`, one bit at a time. */
  function Rotate(x: bv64, n: nat): bv64
  {
    if n == 0 then x else Rotate1(Rotate(x, n - 1))
  }

  /** Go's `bits.RotateLeft64(x, chunkWindow % 64)`. */
  function RotateByWindow(x: bv64): bv64
  {
    (x << 48) | (x >> 16)
  }

  function Xor(x: bv64, y: bv64): bv64
  {
    x ^ y
  }

  lemma Rotate1Xor(x: bv64, y: bv64)
    ensures Rotate1(Xor(x, y)) == Xor(Rotate1(x), Rotate1(y))
  {
  }

  lemma XorGroup(x: bv64, y: bv64, z: bv64)
    ensures Xor(Xor(x, y), z) == Xor(x, Xor(y, z))
    ensures Xor(x, 0) == x == Xor(0, x)
    ensures Xor(Xor(x, y), x) == y
  {
  }

  lemma {:induction false} RotateAdd(x: bv64, m: nat, n: nat)
    ensures Rotate(Rotate(x, m), n) == Rotate(x, m + n)
  {
    hide Rotate1;
    if n > 0 {
      RotateAdd(x, m, n - 1);
    }
  }

  function Rotate4(x: bv64): bv64
  {
    (x << 4) | (x >> 60)
  }

  function Rotate16(x: bv64): bv64
  {
    (x << 16) | (x >> 48)
  }

  lemma Rotate4Compose(x: bv64)
    ensures Rotate4(x) == Rotate1(Rotate1(Rotate1(Rotate1(x))))
  {
  }

  lemma Rotate16Compose(x: bv64)
    ensures Rotate16(x) == Rotate4(Rotate4(Rotate4(Rotate4(x))))
  {
  }

  lemma WindowCompose(x: bv64)
    ensures RotateByWindow(x) == Rotate16(Rotate16(Rotate16(x)))
  {
  }

  lemma {:induction false} RotateBy4(x: bv64, n: nat)
    requires n == 4
    ensures Rotate(x, n) == Rotate4(x)
  {
    hide Rotate1;
    hide Rotate4;
    Rotate4Compose(x);
    assert Rotate(x, n) == Rotate1(Rotate(x, n - 1));
    assert Rotate(x, n - 1) == Rotate1(Rotate(x, n - 2));
    assert Rotate(x, n - 2) == Rotate1(Rotate(x, n - 3));
    assert Rotate(x, n - 3) == Rotate1(Rotate(x, n - 4));
  }

  lemma {:induction false} RotateBy16(x: bv64, n: nat)
    requires n == 4
    ensures Rotate(x, 4 * n) == Rotate16(x)
  {
    hide *;
    Rotate16Compose(x);
    RotateBy4(x, n);
    RotateBy4(Rotate4(x), n);
    RotateBy4(Rotate4(Rotate4(x)), n);
    RotateBy4(Rotate4(Rotate4(Rotate4(x))), n);
    RotateAdd(x, n, n);
    RotateAdd(x, n + n, n);
    RotateAdd(x, n + n + n, n);
  }

  /** Pre-rotating by the window is the same as ageing a byte WINDOW times. */
  lemma {:induction false} RotateByWindowIsRotate(x: bv64, n: nat)
    requires n == 4
    ensures RotateByWindow(x) == Rotate(x, 12 * n)
  {
    hide *;
    WindowCompose(x);
    RotateBy16(x, n);
    RotateBy16(Rotate16(x), n);
    RotateBy16(Rotate16(Rotate16(x)), n);
    RotateAdd(x, 4 * n, 4 * n);
    RotateAdd(x, 8 * n, 4 * n);
  }

  // ------------------------------------------------------------------ tables

  /** The splitmix64 state after `n` increments of the seed. */
  function Seed(n: nat): bv64
  {
    if n == 0 then GOLDEN else Seed(n - 1) + GOLDEN
  }

  function Mix(s: bv64): bv64
  {
    var a := (s ^ (s >> 30)) * 0xBF58476D1CE4E5B9;
    var b := (a ^ (a >> 27)) * 0x94D049BB133111EB;
    b ^ (b >> 31)
  }

  /** The first 256 outputs of splitmix64, in order. */
  function BuzTable(): (t: Table)
    ensures forall i :: 0 <= i < 256 ==> t[i] == Mix(Seed(i + 1))
  {
    seq(256, i requires 0 <= i < 256 => Mix(Seed(i + 1)))
  }

  /** The first two values of the table, worked out. */
  lemma TableStarts()
    ensures BuzTable()[0] == 0x6E789E6AA1B965F4 && BuzTable()[1] == 0x06C45D188009454F
  {
    var golden: bv64 := 0x9E3779B97F4A7C15;
    assert Seed(1) == golden + golden;
    assert Seed(2) == golden + golden + golden;
  }

  /** `out` undoes, with one xor, a byte that entered WINDOW rotations ago. */
  ghost predicate TablesReady(t: Table, table: array<bv64>, out: array<bv64>)
    reads table, out
  {
    && table.Length == out.Length == 256
    && table[..] == t
    && forall i :: 0 <= i < 256 ==> out[i] == Rotate(t[i], WINDOW)
  }

  method NewBuzTables() returns (table: array<bv64>, out: array<bv64>)
    ensures fresh(table) && fresh(out) && table != out
    ensures TablesReady(BuzTable(), table, out)
  {
    hide Mix;
    hide Rotate;
    hide RotateByWindow;
    table, out := new bv64[256], new bv64[256];
    var state := GOLDEN;
    for i := 0 to 256
      invariant state == Seed(i)
      invariant forall k :: 0 <= k < i ==> table[k] == Mix(Seed(k + 1)) && out[k] == Rotate(table[k], WINDOW)
    {
      state := state + GOLDEN;
      assert state == Seed(i + 1);
      var z := Mix(state);
      table[i] := z;
      out[i] := RotateByWindow(z);
      RotateByWindowIsRotate(z, 4);
    }
    assert table[..] == BuzTable();
  }

  // ---------------------------------------------------- the naive splitter

  /** The xor of the table values of `w`, each rotated by its age: the newest
      byte by 0, the oldest by `|w| - 1`. */
  function WindowHash(t: Table, w: Bytes): bv64
  {
    if w == [] then 0 else Xor(Rotate(t[w[0]], |w| - 1), WindowHash(t, w[1..]))
  }

  /** The last WINDOW bytes of the chunk so far, or all of them. */
  function Window(chunk: Bytes): Bytes
  {
    if |chunk| <= WINDOW then chunk else chunk[|chunk| - WINDOW..]
  }

  predicate Boundary(h: bv64)
  {
    h & CHUNK_MASK == 0
  }

  /** A chunk holding exactly these bytes ends here. */
  predicate CutHere(t: Table, chunk: Bytes)
  {
    |chunk| >= CHUNK_MIN && (|chunk| >= CHUNK_MAX || Boundary(WindowHash(t, Window(chunk))))
  }

  /** The length of the first chunk of `s`, knowing it is at least `n`. */
  function FirstCut(t: Table, s: Bytes, n: nat): (r: nat)
    requires 1 <= n <= |s|
    ensures n <= r <= |s|
    ensures CutHere(t, s[..r]) || r == |s|
    ensures forall k :: n <= k < r ==> !CutHere(t, s[..k])
    decreases |s| - n
  {
    if n == |s| || CutHere(t, s[..n]) then n else FirstCut(t, s, n + 1)
  }

  function Split(t: Table, s: Bytes): seq<Bytes>
    decreases |s|
  {
    if s == [] then [] else
    var n := FirstCut(t, s, 1);
    [s[..n]] + Split(t, s[n..])
  }

  // -------------------------------------------------------- the rolling hash

  lemma {:induction false} WindowHashSlide(t: Table, w: Bytes, b: Byte)
    ensures WindowHash(t, w + [b]) == Xor(Rotate1(WindowHash(t, w)), t[b])
  {
    hide Rotate1;
    hide Xor;
    if w == [] {
      assert w + [b] == [b] && [b][1..] == [];
      assert Rotate(t[b], 0) == t[b];
      XorGroup(t[b], 0, 0);
      assert Rotate1(0) == 0 by { Rotate1Zero(); }
    } else {
      WindowHashSlide(t, w[1..], b);
      assert (w + [b])[1..] == w[1..] + [b];
      var r, h := Rotate(t[w[0]], |w| - 1), WindowHash(t, w[1..]);
      Rotate1Xor(r, h);
      XorGroup(Rotate1(r), Rotate1(h), t[b]);
    }
  }

  lemma Rotate1Zero()
    ensures Rotate1(0) == 0
  {
  }

  /** One loop iteration moves the hash from one window to the next. */
  lemma RollingStep(t: Table, chunk: Bytes, b: Byte)
    ensures var h := Xor(Rotate1(WindowHash(t, Window(chunk))), t[b]);
            WindowHash(t, Window(chunk + [b])) ==
              if |chunk| >= WINDOW then Xor(h, Rotate(t[chunk[|chunk| - WINDOW]], WINDOW)) else h
  {
    hide Rotate1;
    hide Xor;
    hide Rotate;
    var w := Window(chunk);
    WindowHashSlide(t, w, b);
    if |chunk| >= WINDOW {
      var next := w + [b];
      assert next[1..] == Window(chunk + [b]);
      XorGroup(Rotate(t[next[0]], WINDOW), WindowHash(t, next[1..]), 0);
    } else {
      assert Window(chunk + [b]) == w + [b];
    }
  }

  /** The first boundary, when every shorter prefix has been ruled out. */
  lemma {:induction false} FirstCutReached(t: Table, s: Bytes, n: nat, r: nat)
    requires 1 <= n <= r <= |s|
    requires forall k :: n <= k < r ==> !CutHere(t, s[..k])
    requires r == |s| || CutHere(t, s[..r])
    ensures FirstCut(t, s, n) == r
    decreases r - n
  {
    if n < r {
      FirstCutReached(t, s, n + 1, r);
    }
  }

  /** Taking the first chunk off `s`. */
  lemma SplitOff(t: Table, s: Bytes, r: nat)
    requires 1 <= r <= |s|
    requires forall k :: 1 <= k < r ==> !CutHere(t, s[..k])
    requires r == |s| || CutHere(t, s[..r])
    ensures Split(t, s) == [s[..r]] + Split(t, s[r..])
  {
    FirstCutReached(t, s, 1, r);
  }

  /** Where the splitter stands after `i` bytes: `out` is what the naive
      splitter cuts off before `start`, and it has not cut since. */
  ghost predicate Progress(t: Table, data: Bytes, out: seq<Bytes>, start: nat, i: nat)
  {
    && start <= i <= |data|
    && Split(t, data) == out + Split(t, data[start..])
    && forall e :: start < e <= i ==> !CutHere(t, data[start..e])
  }

  /** At the start of a chunk the window is empty and the hash is 0. */
  lemma StartProgress(t: Table, data: Bytes, start: nat)
    requires start <= |data|
    ensures WindowHash(t, Window(data[start..start])) == 0
    ensures start == 0 ==> Progress(t, data, [], 0, 0)
  {
    assert data[start..start] == [];
    assert data[0..] == data;
  }

  lemma CutDecision(t: Table, chunk: Bytes, h: bv64)
    requires h == WindowHash(t, Window(chunk))
    ensures CutHere(t, chunk) <==> |chunk| >= CHUNK_MIN && (|chunk| >= CHUNK_MAX || Boundary(h))
  {
  }

  lemma NoCutProgress(t: Table, data: Bytes, out: seq<Bytes>, start: nat, i: nat)
    requires i < |data| && Progress(t, data, out, start, i)
    requires !CutHere(t, data[start..i + 1])
    ensures Progress(t, data, out, start, i + 1)
  {
    hide CutHere;
    hide Split;
    forall e | start < e <= i + 1 ensures !CutHere(t, data[start..e]) {
    }
  }

  lemma CutProgress(t: Table, data: Bytes, out: seq<Bytes>, start: nat, i: nat)
    requires i < |data| && Progress(t, data, out, start, i)
    requires CutHere(t, data[start..i + 1])
    ensures Progress(t, data, out + [data[start..i + 1]], i + 1, i + 1)
  {
    hide CutHere;
    var rest, size := data[start..], i + 1 - start;
    forall k | 1 <= k <= size ensures CutHere(t, rest[..k]) == CutHere(t, data[start..start + k]) {
      assert rest[..k] == data[start..start + k];
    }
    SplitOff(t, rest, size);
    assert rest[size..] == data[i + 1..];
    var tail := Split(t, data[i + 1..]);
    assert rest[..size] == data[start..i + 1];
    assert out + ([data[start..i + 1]] + tail) == (out + [data[start..i + 1]]) + tail;
    assert Progress(t, data, out + [data[start..i + 1]], i + 1, i + 1);
  }

  lemma LastProgress(t: Table, data: Bytes, out: seq<Bytes>, start: nat)
    requires Progress(t, data, out, start, |data|)
    ensures Split(t, data) == if start < |data| then out + [data[start..]] else out
  {
    hide CutHere;
    var rest := data[start..];
    if start < |data| {
      forall k | 1 <= k <= |rest| ensures !CutHere(t, rest[..k]) {
        assert rest[..k] == data[start..start + k];
      }
      SplitOff(t, rest, |rest|);
      assert rest[|rest|..] == [] && rest[..|rest|] == rest;
    }
  }

  /** The hash update at byte `i` of the chunk that began at `start`. */
  method Roll(t: Table, buzTable: array<bv64>, buzOut: array<bv64>, data: Bytes, start: nat, i: nat, h: bv64)
    returns (next: bv64)
    requires TablesReady(t, buzTable, buzOut)
    requires start <= i < |data|
    requires h == WindowHash(t, Window(data[start..i]))
    ensures next == WindowHash(t, Window(data[start..i + 1]))
  {
    hide Rotate1;
    hide Xor;
    hide Rotate;
    hide WindowHash;
    hide Window;
    assert buzTable[data[i]] == t[data[i]];
    assert i - start >= WINDOW ==> buzOut[data[i - WINDOW]] == Rotate(t[data[i - WINDOW]], WINDOW);
    hide TablesReady;
    RollingStep(t, data[start..i], data[i]);
    assert data[start..i] + [data[i]] == data[start..i + 1];
    next := Xor(Rotate1(h), buzTable[data[i]]);
    if i - start >= WINDOW {
      next := Xor(next, buzOut[data[i - WINDOW]]);
    }
  }

  method SplitBlocks(t: Table, buzTable: array<bv64>, buzOut: array<bv64>, data: Bytes)
    returns (out: seq<Bytes>)
    requires TablesReady(t, buzTable, buzOut)
    ensures out == Split(t, data)
  {
    hide Boundary;
    hide WindowHash;
    hide CutHere;
    hide Progress;
    out := [];
    if |data| == 0 {
      assert Split(t, data) == [];
      return;
    }
    var start, h := 0, 0 as bv64;
    StartProgress(t, data, 0);
    for i := 0 to |data|
      invariant start <= i && Progress(t, data, out, start, i)
      invariant h == WindowHash(t, Window(data[start..i]))
    {
      h := Roll(t, buzTable, buzOut, data, start, i, h);
      var size := i - start + 1;
      CutDecision(t, data[start..i + 1], h);
      if size < CHUNK_MIN {
        NoCutProgress(t, data, out, start, i);
        continue;
      }
      if size >= CHUNK_MAX || Boundary(h) {
        CutProgress(t, data, out, start, i);
        out := out + [data[start..i + 1]];
        start := i + 1;
        h := 0;
        StartProgress(t, data, start);
      } else {
        NoCutProgress(t, data, out, start, i);
      }
    }
    LastProgress(t, data, out, start);
    if start < |data| {
      out := out + [data[start..]];
    }
  }

  // ---------------------------------------- what the chunk list is, and does

  /** No boundary falls strictly inside `c`. */
  predicate Unbroken(t: Table, c: Bytes)
  {
    c != [] && forall k :: 1 <= k < |c| ==> !CutHere(t, c[..k])
  }

  /** `cs` cuts `s` at every boundary and nowhere else. */
  predicate IsChunking(t: Table, s: Bytes, cs: seq<Bytes>)
  {
    && Flatten(cs) == s
    && (forall i :: 0 <= i < |cs| ==> Unbroken(t, cs[i]))
    && (forall i :: 0 <= i < |cs| - 1 ==> CutHere(t, cs[i]))
  }

  lemma {:induction false} SplitIsChunking(t: Table, s: Bytes)
    ensures IsChunking(t, s, Split(t, s))
    decreases |s|
  {
    if s != [] {
      var n := FirstCut(t, s, 1);
      var tail := Split(t, s[n..]);
      SplitIsChunking(t, s[n..]);
      assert s == s[..n] + s[n..];
      assert Split(t, s) == [s[..n]] + tail && Split(t, s)[1..] == tail;
      assert Unbroken(t, s[..n]) by {
        forall k | 1 <= k < n ensures !CutHere(t, s[..n][..k]) { assert s[..n][..k] == s[..k]; }
      }
      assert tail != [] ==> n < |s|;
    }
  }

  lemma {:induction false} ChunkingIsSplit(t: Table, s: Bytes, cs: seq<Bytes>)
    requires IsChunking(t, s, cs)
    ensures cs == Split(t, s)
    decreases |cs|
  {
    if cs != [] {
      var c := cs[0];
      assert s == c + Flatten(cs[1..]);
      forall k | 1 <= k < |c| ensures !CutHere(t, s[..k]) { assert s[..k] == c[..k]; }
      assert s[..|c|] == c && s[|c|..] == Flatten(cs[1..]);
      assert |cs| == 1 ==> Flatten(cs[1..]) == [];
      SplitOff(t, s, |c|);
      ChunkingIsSplit(t, s[|c|..], cs[1..]);
      assert cs == [c] + cs[1..];
    }
  }

  /** The splitter's output is the one and only chunking of its input. */
  lemma SplitIsTheChunking(t: Table, s: Bytes, cs: seq<Bytes>)
    ensures cs == Split(t, s) <==> IsChunking(t, s, cs)
  {
    SplitIsChunking(t, s);
    if IsChunking(t, s, cs) {
      ChunkingIsSplit(t, s, cs);
    }
  }

  lemma MaskIsRemainder(h: bv64)
    ensures Boundary(h) <==> h % 8192 == 0
  {
  }

  lemma CutInNumbers(t: Table, c: Bytes)
    ensures CutHere(t, c) <==> |c| >= 65536 || (|c| >= 2048 && WindowHash(t, c[|c| - 48..]) % 8192 == 0)
  {
    hide WindowHash;
    MaskIsRemainder(WindowHash(t, Window(c)));
    hide Boundary;
  }

  /** The chunking in plain numbers: chunks of at most 65536 bytes that join to the
      input; no chunk goes on past a place, 2048 bytes in or later, where its last
      48 bytes hash to a multiple of 8192; and every chunk but the last is 65536
      bytes long or ends at such a place. */
  lemma SplitInNumbers(t: Table, s: Bytes, cs: seq<Bytes>)
    ensures cs == Split(t, s) <==>
              && Flatten(cs) == s
              && (forall i :: 0 <= i < |cs| ==> 0 < |cs[i]| <= 65536)
              && (forall i, n :: 0 <= i < |cs| && 2048 <= n < |cs[i]| ==> WindowHash(t, cs[i][..n][n - 48..]) % 8192 != 0)
              && (forall i :: 0 <= i < |cs| - 1 ==>
                    |cs[i]| == 65536 || (|cs[i]| >= 2048 && WindowHash(t, cs[i][|cs[i]| - 48..]) % 8192 == 0))
  {
    SplitIsTheChunking(t, s, cs);
    hide Split;
    hide WindowHash;
    hide CutHere;
    forall i | 0 <= i < |cs| ensures Unbroken(t, cs[i]) <==>
      0 < |cs[i]| <= 65536 && forall n :: 2048 <= n < |cs[i]| ==> WindowHash(t, cs[i][..n][n - 48..]) % 8192 != 0
    {
      UnbrokenInNumbers(t, cs[i]);
    }
    hide Unbroken;
    forall i | 0 <= i < |cs| ensures CutHere(t, cs[i]) <==>
      |cs[i]| >= 65536 || (|cs[i]| >= 2048 && WindowHash(t, cs[i][|cs[i]| - 48..]) % 8192 == 0)
    {
      CutInNumbers(t, cs[i]);
    }
  }

  lemma UnbrokenInNumbers(t: Table, c: Bytes)
    ensures Unbroken(t, c) <==>
              0 < |c| <= 65536 && forall n :: 2048 <= n < |c| ==> WindowHash(t, c[..n][n - 48..]) % 8192 != 0
  {
    hide WindowHash;
    hide CutHere;
    forall n | 1 <= n < |c|
      ensures CutHere(t, c[..n]) <==> n >= 65536 || (n >= 2048 && WindowHash(t, c[..n][n - 48..]) % 8192 == 0)
    {
      CutInNumbers(t, c[..n]);
    }
    if |c| > 65536 {
      assert CutHere(t, c[..65536]);
    }
  }

  /** Chunks reassemble to the input and obey the size limits. */
  lemma SplitSizes(t: Table, s: Bytes)
    ensures Flatten(Split(t, s)) == s
    ensures forall i :: 0 <= i < |Split(t, s)| ==> 0 < |Split(t, s)[i]| <= CHUNK_MAX
    ensures forall i :: 0 <= i < |Split(t, s)| - 1 ==> CHUNK_MIN <= |Split(t, s)[i]|
  {
    SplitIsChunking(t, s);
    var cs := Split(t, s);
    forall i | 0 <= i < |cs| ensures 0 < |cs[i]| <= CHUNK_MAX {
      assert Unbroken(t, cs[i]);
      assert |cs[i]| > CHUNK_MAX ==> CutHere(t, cs[i][..CHUNK_MAX]);
    }
  }

  /** Resynchronisation: once a boundary falls at the end of `a`, whatever came
      before has no influence on how `s` is cut. */
  lemma Resynchronise(t: Table, a: Bytes, s: Bytes, k: nat)
    requires k <= |Split(t, a + s)|
    requires Flatten(Split(t, a + s)[..k]) == a
    ensures Split(t, a + s)[..k] == Split(t, a)
    ensures Split(t, a + s)[k..] == Split(t, s)
  {
    var cs := Split(t, a + s);
    SplitIsChunking(t, a + s);
    assert cs == cs[..k] + cs[k..];
    FlattenAppend(cs[..k], cs[k..]);
    assert a + Flatten(cs[k..]) == a + s;
    assert Flatten(cs[k..]) == (a + s)[|a|..] == s;
    ChunkingIsSplit(t, a, cs[..k]);
    ChunkingIsSplit(t, s, cs[k..]);
  }

  /** Two files that differ before a common boundary share every later chunk. */
  lemma EditsShareTheTail(t: Table, a: Bytes, b: Bytes, s: Bytes, j: nat, k: nat)
    requires j <= |Split(t, a + s)| && Flatten(Split(t, a + s)[..j]) == a
    requires k <= |Split(t, b + s)| && Flatten(Split(t, b + s)[..k]) == b
    ensures Split(t, a + s)[j..] == Split(t, b + s)[k..]
  {
    Resynchronise(t, a, s, j);
    Resynchronise(t, b, s, k);
  }

  /** Appending to a file re-cuts its last chunk only. */
  lemma AppendKeepsEarlierChunks(t: Table, a: Bytes, s: Bytes)
    requires a != []
    ensures var cs := Split(t, a); cs != [] && cs[..|cs| - 1] <= Split(t, a + s)
  {
    hide CutHere;
    var cs := Split(t, a);
    var k := |cs| - 1;
    SplitIsChunking(t, a);
    assert cs == cs[..k] + [cs[k]];
    FlattenAppend(cs[..k], [cs[k]]);
    assert Flatten([cs[k]]) == cs[k] + Flatten([]) == cs[k];
    var tail := Split(t, cs[k] + s);
    SplitIsChunking(t, cs[k] + s);
    FlattenAppend(cs[..k], tail);
    var ds := cs[..k] + tail;
    assert Flatten(ds) == Flatten(cs[..k]) + (cs[k] + s) == a + s;
    ChunkingIsSplit(t, a + s, ds);
  }
}
