/** The parts of Go's `strings` package the billing and auth code leans on,
    for ASCII text. */
module Text {

  datatype Option<+T> = None | Some(value: T)

  predicate IsSpace(c: char)
  {
    c == ' ' || '\t' <= c <= '\r'
  }

  function TrimLeft(s: string): (r: string)
    ensures r == [] || !IsSpace(r[0])
    ensures s == [] || IsSpace(s[0]) || r == s
    ensures forall c :: c in r ==> c in s
  {
    if s != [] && IsSpace(s[0]) then TrimLeft(s[1..]) else s
  }

  function TrimRight(s: string): (r: string)
    ensures r == [] || !IsSpace(r[|r| - 1])
    ensures r <= s
    ensures s == [] || IsSpace(s[|s| - 1]) || r == s
  {
    if s != [] && IsSpace(s[|s| - 1]) then TrimRight(s[..|s| - 1]) else s
  }

  /** `strings.TrimSpace`: no space at either end, and text without any at its
      ends is left alone. */
  function TrimSpace(s: string): (r: string)
    ensures r == [] || (!IsSpace(r[0]) && !IsSpace(r[|r| - 1]))
    ensures s != [] && !IsSpace(s[0]) && !IsSpace(s[|s| - 1]) ==> r == s
  {
    TrimRight(TrimLeft(s))
  }

  lemma {:induction false} TrimLeftSplits(s: string) returns (a: string)
    ensures s == a + TrimLeft(s) && forall c :: c in a ==> c as int == 32 || 9 <= c as int <= 13
  {
    if s != [] && IsSpace(s[0]) {
      a := TrimLeftSplits(s[1..]);
      assert s == [s[0]] + s[1..];
      a := [s[0]] + a;
    } else {
      a := [];
    }
  }

  lemma {:induction false} TrimRightSplits(s: string) returns (b: string)
    ensures s == TrimRight(s) + b && forall c :: c in b ==> c as int == 32 || 9 <= c as int <= 13
  {
    if s != [] && IsSpace(s[|s| - 1]) {
      var k := |s| - 1;
      b := TrimRightSplits(s[..k]);
      assert s == s[..k] + [s[k]];
      b := b + [s[k]];
    } else {
      b := [];
      assert s == s + b;
    }
  }

  /** Trimming takes spaces off both ends, and all of them. */
  lemma TrimSplits(s: string) returns (a: string, b: string)
    ensures var r := TrimSpace(s);
            && s == a + r + b && (forall c :: c in a + b ==> c as int == 32 || 9 <= c as int <= 13)
            && (r != [] ==> (33 <= r[0] as int || r[0] as int <= 8 || 14 <= r[0] as int <= 31))
            && (r != [] ==> (33 <= r[|r| - 1] as int || r[|r| - 1] as int <= 8 || 14 <= r[|r| - 1] as int <= 31))
  {
    hide TrimLeft;
    hide TrimRight;
    a := TrimLeftSplits(s);
    b := TrimRightSplits(TrimLeft(s));
    assert a + (TrimSpace(s) + b) == a + TrimSpace(s) + b;
  }

  /** The index of the first `c`, or the length. */
  function Find(s: string, c: char): (i: nat)
    ensures i <= |s| && c !in s[..i] && (i < |s| ==> s[i] == c)
  {
    if s == [] || s[0] == c then 0
    else
      var i := 1 + Find(s[1..], c);
      assert s[..i] == [s[0]] + s[1..][..i - 1];
      i
  }

  lemma FindFirst(a: string, c: char, b: string)
    requires c !in a
    ensures Find(a + [c] + b, c) == |a|
  {
    var s := a + [c] + b;
    var i := Find(s, c);
    assert s[|a|] == c;
    assert forall k :: 0 <= k < |a| ==> s[k] != c;
    assert forall k :: 0 <= k < i ==> s[..i][k] != c;
  }

  /** `strings.Split` on one character. */
  function Split(s: string, c: char): (parts: seq<string>)
    ensures parts != []
    decreases |s|
  {
    var i := Find(s, c);
    if i == |s| then [s] else [s[..i]] + Split(s[i + 1..], c)
  }

  /** `strings.Join`, the inverse of Split. */
  function Join(parts: seq<string>, c: char): string
    requires parts != []
  {
    if |parts| == 1 then parts[0] else parts[0] + [c] + Join(parts[1..], c)
  }

  lemma {:induction false} SplitJoin(parts: seq<string>, c: char)
    requires parts != [] && forall p :: p in parts ==> c !in p
    ensures Split(Join(parts, c), c) == parts
  {
    if |parts| == 1 {
      SplitOne(parts[0], c);
      assert parts == [parts[0]];
    } else {
      var rest := Join(parts[1..], c);
      SplitJoin(parts[1..], c);
      SplitFirst(parts[0], c, rest);
      assert parts == [parts[0]] + parts[1..];
      hide Split;
    }
  }

  lemma SplitOne(a: string, c: char)
    requires c !in a
    ensures Split(a, c) == [a]
  {
    assert forall k :: 0 <= k < |a| ==> a[k] != c;
  }

  lemma SplitFirst(a: string, c: char, rest: string)
    requires c !in a
    ensures Split(a + [c] + rest, c) == [a] + Split(rest, c)
  {
    FindFirst(a, c, rest);
    hide Find;
    var s := a + [c] + rest;
    assert s[..|a|] == a && s[|a| + 1..] == rest;
  }
}
