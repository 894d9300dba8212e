/** Grandfather-father-son retention: the one-pass slot allocator, the size cap,
    and what pruning may and may not delete. */
module Retention {
  import opened Bytes
  import opened Manifest

  datatype Policy = Policy(daily: int, weekly: int, monthly: int, yearly: int, maxTotalSize: int)

  /** A point in time with its civil date; `weekday` 0 is Sunday. */
  datatype Time = Time(instant: int, month: nat, day: nat, weekday: nat)

  datatype BackupFile = BackupFile(name: Bytes, when: Time, size: nat, incremental: bool)

  predicate IsYearly(t: Time) { t.month == 1 && t.day == 1 }

  predicate IsMonthly(t: Time) { t.day == 1 }

  predicate IsWeekly(t: Time) { t.weekday == 0 }

  /** Invalid settings fall back to their defaults; valid ones are untouched. */
  function NormalizeRetention(p: Policy): (r: Policy)
    ensures r.daily >= 1 && r.weekly >= 0 && r.monthly >= 0 && r.yearly >= 0 && r.maxTotalSize >= 0
    ensures p.daily >= 1 && p.weekly >= 0 && p.monthly >= 0 && p.yearly >= 0 && p.maxTotalSize >= 0 ==> r == p
    ensures r.daily == p.daily || p.daily < r.daily == 1
    ensures r.weekly == p.weekly || p.weekly < r.weekly == 0
    ensures r.monthly == p.monthly || p.monthly < r.monthly == 0
    ensures r.yearly == p.yearly || p.yearly < r.yearly == 0
    ensures r.maxTotalSize == p.maxTotalSize || p.maxTotalSize < r.maxTotalSize == 0
  {
    Policy(
      if p.daily < 1 then 1 else p.daily,
      if p.weekly < 0 then 0 else p.weekly,
      if p.monthly < 0 then 0 else p.monthly,
      if p.yearly < 0 then 0 else p.yearly,
      if p.maxTotalSize < 0 then 0 else p.maxTotalSize)
  }

  // ------------------------------------------------------------------ order

  /** Newest first; equal times by name. */
  predicate Before(a: BackupFile, b: BackupFile)
  {
    a.when.instant > b.when.instant || (a.when.instant == b.when.instant && Less(a.name, b.name))
  }

  predicate Ordered(files: seq<BackupFile>)
  {
    forall i, j :: 0 <= i < j < |files| ==> Before(files[i], files[j])
  }

  lemma BeforeFacts(a: BackupFile, b: BackupFile, c: BackupFile)
    ensures !Before(a, a)
    ensures !(Before(a, b) && Before(b, a))
    ensures a.name != b.name ==> Before(a, b) || Before(b, a)
    ensures Before(a, b) && Before(b, c) ==> Before(a, c)
  {
    LessTrichotomy(a.name, b.name);
    if Before(a, b) && Before(b, c) && a.when.instant == b.when.instant == c.when.instant {
      LessTransitive(a.name, b.name, c.name);
    }
  }

  /** `files` with `f` put before the first later file. */
  function Place(files: seq<BackupFile>, f: BackupFile): (r: seq<BackupFile>)
    requires Ordered(files) && forall g :: g in files ==> g.name != f.name
    ensures Ordered(r)
    ensures forall g :: g in r <==> g == f || g in files
  {
    if files == [] then [f]
    else if Before(f, files[0]) then
      assert forall j :: 0 < j < |files| ==> Before(f, files[j]) by {
        forall j | 0 < j < |files| ensures Before(f, files[j]) { BeforeFacts(f, files[0], files[j]); }
      }
      [f] + files
    else
      BeforeFacts(f, files[0], f);
      var rest := Place(files[1..], f);
      assert forall j :: 0 <= j < |rest| ==> Before(files[0], rest[j]) by {
        assert files[0] in files;
        forall j | 0 <= j < |rest| ensures Before(files[0], rest[j]) { assert rest[j] in rest; }
      }
      [files[0]] + rest
  }

  /** The backup directory: each archive under its own name. */
  type Dir = d: map<Bytes, BackupFile> | forall n :: n in d ==> d[n].name == n witness map[]

  /** The newest-first listing of a directory. */
  ghost function Listing(d: Dir): (r: seq<BackupFile>)
    ensures Ordered(r)
    ensures forall f :: f in r <==> f.name in d && d[f.name] == f
    decreases |d|
  {
    if d == map[] then [] else
    var n :| n in d;
    var rest := map k | k in d && k != n :: d[k];
    assert rest.Keys == d.Keys - {n};
    Place(Listing(rest), d[n])
  }

  lemma {:induction false} OrderedUnique(a: seq<BackupFile>, b: seq<BackupFile>)
    requires Ordered(a) && Ordered(b)
    requires forall f :: f in a <==> f in b
    ensures a == b
  {
    assert a != [] ==> a[0] in b;
    assert b != [] ==> b[0] in a;
    if a != [] && b != [] {
      var i :| 0 <= i < |b| && b[i] == a[0];
      var j :| 0 <= j < |a| && a[j] == b[0];
      BeforeFacts(a[0], b[0], a[0]);
      hide Before;
      forall f ensures f in a[1..] <==> f in b[1..] {
        if f in a[1..] {
          var k :| 1 <= k < |a| && a[k] == f;
          BeforeFacts(a[0], a[k], a[0]);
          assert f in b && f != b[0];
        }
        if f in b[1..] {
          var k :| 1 <= k < |b| && b[k] == f;
          BeforeFacts(b[0], b[k], b[0]);
          assert f in a && f != a[0];
        }
      }
      OrderedUnique(a[1..], b[1..]);
      assert a == [a[0]] + a[1..] && b == [b[0]] + b[1..];
    }
  }

  /** Directory entries arrive in any order; the sort fixes it. */
  method Scan(d: Dir) returns (out: seq<BackupFile>)
    ensures out == Listing(d)
    ensures forall i, j :: 0 <= i < j < |out| ==> out[i].when.instant >= out[j].when.instant
  {
    hide Before;
    out := [];
    var left := d.Keys;
    while left != {}
      invariant left <= d.Keys
      invariant Ordered(out)
      invariant forall f :: f in out <==> f.name in d.Keys - left && d[f.name] == f
      decreases left
    {
      var n :| n in left;
      out := Place(out, d[n]);
      left := left - {n};
    }
    OrderedUnique(out, Listing(d));
    hide Ordered;
    hide Place;
    forall i, j | 0 <= i < j < |out| ensures out[i].when.instant >= out[j].when.instant {
      ListingByInstant(d, i, j);
    }
  }

  // ------------------------------------------------------------- count pass

  datatype Slot = Yearly | Monthly | Weekly | Daily | Nothing

  /** How many more backups each slot takes. */
  datatype Room = Room(yearly: int, monthly: int, weekly: int, daily: int) {
    function Of(s: Slot): int
    {
      match s
      case Yearly => yearly
      case Monthly => monthly
      case Weekly => weekly
      case Daily => daily
      case Nothing => 0
    }

    function Take(s: Slot): Room
    {
      match s
      case Yearly => this.(yearly := yearly - 1)
      case Monthly => this.(monthly := monthly - 1)
      case Weekly => this.(weekly := weekly - 1)
      case Daily => this.(daily := daily - 1)
      case Nothing => this
    }
  }

  function RoomOf(p: Policy): Room
  {
    Room(p.yearly, p.monthly, p.weekly, p.daily)
  }

  predicate Qualifies(f: BackupFile, s: Slot)
  {
    match s
    case Yearly => IsYearly(f.when)
    case Monthly => IsMonthly(f.when)
    case Weekly => IsWeekly(f.when)
    case Daily => true
    case Nothing => false
  }

  /** The highest-priority slot with room that the backup qualifies for. */
  function SlotFor(f: BackupFile, r: Room): Slot
  {
    if IsYearly(f.when) && r.yearly > 0 then Yearly
    else if IsMonthly(f.when) && r.monthly > 0 then Monthly
    else if IsWeekly(f.when) && r.weekly > 0 then Weekly
    else if r.daily > 0 then Daily
    else Nothing
  }

  /** Which files the count pass leaves in place. */
  function Keeps(files: seq<BackupFile>, r: Room): (k: seq<bool>)
    ensures |k| == |files|
  {
    if files == [] then []
    else if files[0].incremental then [true] + Keeps(files[1..], r)
    else var s := SlotFor(files[0], r);
         [s != Nothing] + Keeps(files[1..], r.Take(s))
  }

  // ------------------------------------------- the documented four-pass form

  /** One marking pass: the newest `room` unmarked full backups of a kind. */
  function Mark(files: seq<BackupFile>, s: Slot, room: int, marked: seq<bool>): (k: seq<bool>)
    requires |marked| == |files|
    ensures |k| == |files|
  {
    if files == [] then []
    else if !marked[0] && Qualifies(files[0], s) && room > 0 then [true] + Mark(files[1..], s, room - 1, marked[1..])
    else [marked[0]] + Mark(files[1..], s, room, marked[1..])
  }

  function Exempt(files: seq<BackupFile>): (k: seq<bool>)
    ensures |k| == |files|
  {
    if files == [] then [] else [files[0].incremental] + Exempt(files[1..])
  }

  /** Mark yearly, then monthly, then weekly, then daily backups. */
  function FourPasses(files: seq<BackupFile>, r: Room): (k: seq<bool>)
    ensures |k| == |files|
  {
    Mark(files, Daily, r.daily,
      Mark(files, Weekly, r.weekly,
        Mark(files, Monthly, r.monthly,
          Mark(files, Yearly, r.yearly, Exempt(files)))))
  }

  /** Whether a pass marks a file, and the room it leaves. */
  predicate Marks(f: BackupFile, s: Slot, room: int, marked: bool)
  {
    !marked && Qualifies(f, s) && room > 0
  }

  lemma MarkCons(f: BackupFile, rest: seq<BackupFile>, s: Slot, room: int, m: bool, ms: seq<bool>)
    requires |ms| == |rest|
    ensures Mark([f] + rest, s, room, [m] + ms) ==
              [m || Marks(f, s, room, m)] + Mark(rest, s, if Marks(f, s, room, m) then room - 1 else room, ms)
  {
    hide Qualifies;
    assert ([f] + rest)[1..] == rest && ([m] + ms)[1..] == ms;
  }

  /** What is left of each limit after the first file, pass by pass. */
  lemma MarksAreSlot(f: BackupFile, r: Room)
    ensures var y := Marks(f, Yearly, r.yearly, f.incremental);
            var m := Marks(f, Monthly, r.monthly, f.incremental || y);
            var w := Marks(f, Weekly, r.weekly, f.incremental || y || m);
            var d := Marks(f, Daily, r.daily, f.incremental || y || m || w);
            && RoomAfter(f, r) == Room(if y then r.yearly - 1 else r.yearly, if m then r.monthly - 1 else r.monthly,
                                       if w then r.weekly - 1 else r.weekly, if d then r.daily - 1 else r.daily)
            && (f.incremental || SlotFor(f, r) != Nothing <==> f.incremental || y || m || w || d)
  {
    hide IsYearly;
    hide IsMonthly;
    hide IsWeekly;
  }

  lemma FourPassesCons(f: BackupFile, rest: seq<BackupFile>, r: Room)
    ensures FourPasses([f] + rest, r) == [f.incremental || SlotFor(f, r) != Nothing] + FourPasses(rest, RoomAfter(f, r))
  {
    MarksAreSlot(f, r);
    var a := f.incremental;
    var y := Marks(f, Yearly, r.yearly, a);
    var m := Marks(f, Monthly, r.monthly, a || y);
    var w := Marks(f, Weekly, r.weekly, a || y || m);
    assert ([f] + rest)[1..] == rest;
    assert Exempt([f] + rest) == [a] + Exempt(rest);
    hide Marks;
    hide SlotFor;
    hide Exempt;
    hide Mark;
    var t := RoomAfter(f, r);
    hide RoomAfter;
    MarkCons(f, rest, Yearly, r.yearly, a, Exempt(rest));
    var m1 := Mark(rest, Yearly, t.yearly, Exempt(rest));
    MarkCons(f, rest, Monthly, r.monthly, a || y, m1);
    var m2 := Mark(rest, Monthly, t.monthly, m1);
    MarkCons(f, rest, Weekly, r.weekly, a || y || m, m2);
    var m3 := Mark(rest, Weekly, t.weekly, m2);
    MarkCons(f, rest, Daily, r.daily, a || y || m || w, m3);
  }

  /** One newest-first pass with four counters decides exactly what the four
      marking passes decide. */
  lemma {:induction false} OnePassIsFourPasses(files: seq<BackupFile>, r: Room)
    ensures Keeps(files, r) == FourPasses(files, r)
  {
    if files != [] {
      hide FourPasses;
      hide SlotFor;
      var f, rest := files[0], files[1..];
      assert files == [f] + rest;
      OnePassIsFourPasses(rest, RoomAfter(f, r));
      FourPassesCons(f, rest, r);
    }
  }

  /** What room is left after the first file. */
  function RoomAfter(f: BackupFile, r: Room): Room
  {
    r.Take(if f.incremental then Nothing else SlotFor(f, r))
  }

  // ---------------------------------------------------------------- exchange

  /** Equal except that `lost`, if it is an index at all, is kept by `a` only. */
  predicate DiffersAt(a: seq<bool>, b: seq<bool>, lost: int)
  {
    && |a| == |b|
    && forall i :: 0 <= i < |a| ==> if i == lost then a[i] && !b[i] else a[i] == b[i]
  }

  /** One slot less from here on costs at most one backup and saves none. */
  lemma {:induction false} OneSlotLess(files: seq<BackupFile>, r: Room, s: Slot) returns (lost: int)
    requires r.Of(s) > 0
    ensures DiffersAt(Keeps(files, r), Keeps(files, r.Take(s)), lost)
  {
    lost := -1;
    if files != [] {
      var f, rest := files[0], files[1..];
      var a, b := Keeps(files, r), Keeps(files, r.Take(s));
      if f.incremental {
        lost := OneSlotLess(rest, r, s);
      } else {
        var t, u := SlotFor(f, r), SlotFor(f, r.Take(s));
        if t == u {
          assert r.Take(t).Take(s) == r.Take(s).Take(t);
          lost := OneSlotLess(rest, r.Take(t), s);
        } else {
          assert t == s;
          if u == Nothing {
            return 0;
          }
          lost := OneSlotLess(rest, r.Take(s), u);
        }
      }
      assert a[1..] == Keeps(rest, if f.incremental then r else r.Take(SlotFor(f, r)));
      assert b[1..] == Keeps(rest, if f.incremental then r.Take(s) else r.Take(s).Take(SlotFor(f, r.Take(s))));
      if lost >= 0 {
        lost := lost + 1;
      }
      forall i | 0 <= i < |a| ensures if i == lost then a[i] && !b[i] else a[i] == b[i] {
        if i > 0 {
          assert a[i] == a[1..][i - 1] && b[i] == b[1..][i - 1];
        }
      }
    }
  }

  /** A new newest full backup takes at most one slot from the others. */
  lemma InsertInFront(x: BackupFile, b: seq<BackupFile>, r: Room) returns (lost: int)
    requires !x.incremental
    ensures DiffersAt(Keeps(b, r), Keeps([x] + b, r)[1..], lost)
    ensures Keeps([x] + b, r)[0] || lost < 0
  {
    assert ([x] + b)[1..] == b;
    var s := SlotFor(x, r);
    assert Keeps([x] + b, r)[1..] == Keeps(b, r.Take(s));
    if s == Nothing {
      lost := -1;
    } else {
      lost := OneSlotLess(b, r, s);
    }
  }

  lemma KeepsCons(f: BackupFile, rest: seq<BackupFile>, r: Room)
    ensures Keeps([f] + rest, r)[1..] == Keeps(rest, RoomAfter(f, r))
    ensures Keeps([f] + rest, r)[0] == (f.incremental || SlotFor(f, r) != Nothing)
  {
    hide SlotFor;
    assert ([f] + rest)[1..] == rest;
  }

  lemma Shift(s: seq<bool>, n: nat)
    requires 0 < n <= |s|
    ensures s[..n] == [s[0]] + s[1..][..n - 1] && s[n..] == s[1..][n - 1..]
  {
  }

  /** Inserting one full backup leaves newer decisions alone, rescues no older
      backup, and displaces at most one. */
  lemma {:induction false} InsertionExchange(a: seq<BackupFile>, x: BackupFile, b: seq<BackupFile>, r: Room) returns (lost: int)
    requires !x.incremental
    ensures var without, with := Keeps(a + b, r), Keeps(a + [x] + b, r);
            && with[..|a|] == without[..|a|]
            && DiffersAt(without[|a|..], with[|a| + 1..], lost)
            && (with[|a|] || lost < 0)
  {
    hide Keeps;
    hide DiffersAt;
    var without, with := Keeps(a + b, r), Keeps(a + [x] + b, r);
    if a == [] {
      lost := InsertInFront(x, b, r);
      assert a + b == b && a + [x] + b == [x] + b && without[0..] == without;
    } else {
      var f, rest := a[0], a[1..];
      lost := InsertionExchange(rest, x, b, RoomAfter(f, r));
      KeepsCons(f, rest + b, r);
      KeepsCons(f, rest + [x] + b, r);
      assert a + b == [f] + (rest + b) && a + [x] + b == [f] + (rest + [x] + b);
      hide RoomAfter;
      Shift(with, |a|);
      Shift(with, |a| + 1);
      Shift(without, |a|);
    }
  }

  // --------------------------------------------------------------- guarantee

  /** How many full backups in front of index `i` qualify for slot `s`. */
  function Ahead(files: seq<BackupFile>, i: nat, s: Slot): nat
    requires i <= |files|
  {
    if i == 0 then 0
    else (if !files[0].incremental && Qualifies(files[0], s) then 1 else 0) + Ahead(files[1..], i - 1, s)
  }

  /** Among the backups of a kind, the newest as many as its limit are safe. */
  lemma {:induction false} NewestOfEachKindAreKept(files: seq<BackupFile>, r: Room, i: nat, s: Slot)
    requires i < |files| && !files[i].incremental && Qualifies(files[i], s)
    requires Ahead(files, i, s) < r.Of(s)
    ensures Keeps(files, r)[i]
  {
    if i > 0 {
      var t := if files[0].incremental then Nothing else SlotFor(files[0], r);
      NewestOfEachKindAreKept(files[1..], r.Take(t), i - 1, s);
    }
  }

  /** The counters of the count pass are what is missing from the room. */
  function RoomLeft(p: Policy, yearly: int, monthly: int, weekly: int, daily: int): Room
  {
    Room(p.yearly - yearly, p.monthly - monthly, p.weekly - weekly, p.daily - daily)
  }

  // ------------------------------------------------------------------- prune

  /** The full backups the count pass keeps, newest first. */
  function Kept(files: seq<BackupFile>, r: Room): seq<BackupFile>
  {
    if files == [] then []
    else if files[0].incremental then Kept(files[1..], r)
    else
      var s := SlotFor(files[0], r);
      if s == Nothing then Kept(files[1..], r) else [files[0]] + Kept(files[1..], r.Take(s))
  }

  function Size(files: seq<BackupFile>): nat
  {
    if files == [] then 0 else Size(files[..|files| - 1]) + files[|files| - 1].size
  }

  function IncrementalSize(files: seq<BackupFile>): nat
  {
    if files == [] then 0
    else (if files[0].incremental then files[0].size else 0) + IncrementalSize(files[1..])
  }

  /** Drops oldest backups until what is left, with `base` more, fits `cap`. */
  function Fit(kept: seq<BackupFile>, base: nat, cap: int): (r: seq<BackupFile>)
    ensures r <= kept
    ensures cap > 0 ==> r == [] || base + Size(r) <= cap
    ensures forall k :: |r| < k <= |kept| ==> base + Size(kept[..k]) > cap > 0
  {
    if cap > 0 && kept != [] && base + Size(kept) > cap then
      var shorter := Fit(kept[..|kept| - 1], base, cap);
      assert forall k :: 0 <= k <= |kept| - 1 ==> kept[..|kept| - 1][..k] == kept[..k];
      assert kept[..|kept|] == kept;
      shorter
    else
      assert kept[..|kept|] == kept;
      kept
  }

  ghost function Survivors(files: seq<BackupFile>, p: Policy): seq<BackupFile>
  {
    var q := NormalizeRetention(p);
    Fit(Kept(files, RoomOf(q)), IncrementalSize(files), q.maxTotalSize)
  }

  predicate Stays(f: BackupFile, survivors: seq<BackupFile>)
  {
    f.incremental || f in survivors
  }

  ghost function Pruned(d: Dir, p: Policy): Dir
  {
    var survivors := Survivors(Listing(d), p);
    map n | n in d && Stays(d[n], survivors) :: d[n]
  }

  // -------------------------------------------------- pruning the directory

  /** The names of the listed files that do not stay. */
  ghost function Doomed(files: seq<BackupFile>, survivors: seq<BackupFile>): set<Bytes>
  {
    set f | f in files && !Stays(f, survivors) :: f.name
  }

  function Without(d: Dir, gone: set<Bytes>): Dir
  {
    map n | n in d && n !in gone :: d[n]
  }

  predicate DistinctNames(files: seq<BackupFile>)
  {
    forall i, j :: 0 <= i < j < |files| ==> files[i].name != files[j].name
  }

  lemma ListingNames(d: Dir)
    ensures DistinctNames(Listing(d))
  {
    var l := Listing(d);
    forall i, j | 0 <= i < j < |l| ensures l[i].name != l[j].name {
      assert l[i] in l && l[j] in l;
      BeforeFacts(l[i], l[j], l[i]);
    }
  }

  /** Removing every doomed name is what pruning means. */
  lemma PrunedIsWithout(d: Dir, p: Policy)
    ensures Pruned(d, p) == Without(d, Doomed(Listing(d), Survivors(Listing(d), p)))
  {
    var l := Listing(d);
    var survivors := Survivors(l, p);
    hide Survivors;
    forall n | n in d ensures Stays(d[n], survivors) <==> n !in Doomed(l, survivors) {
      assert d[n] in l;
      if n in Doomed(l, survivors) {
        var f :| f in l && !Stays(f, survivors) && f.name == n;
      }
    }
  }

  lemma {:induction false} KeptAreListed(files: seq<BackupFile>, r: Room)
    ensures forall f :: f in Kept(files, r) ==> f in files && !f.incremental
  {
    if files != [] {
      var s := if files[0].incremental then Nothing else SlotFor(files[0], r);
      KeptAreListed(files[1..], r.Take(s));
    }
  }

  /** The flags of the count pass and the list it builds agree. */
  lemma {:induction false} KeepsIsKept(files: seq<BackupFile>, r: Room, i: nat)
    requires DistinctNames(files) && i < |files|
    ensures Keeps(files, r)[i] <==> files[i].incremental || files[i] in Kept(files, r)
  {
    var s := if files[0].incremental then Nothing else SlotFor(files[0], r);
    KeptAreListed(files[1..], r.Take(s));
    if i == 0 {
      assert files[0] !in files[1..];
    } else {
      KeepsIsKept(files[1..], r.Take(s), i - 1);
      assert files[i] != files[0];
    }
  }

  // ------------------------------------------------- one more full backup

  lemma {:induction false} PlaceSplits(files: seq<BackupFile>, f: BackupFile) returns (k: nat)
    requires Ordered(files) && forall g :: g in files ==> g.name != f.name
    ensures k <= |files| && Place(files, f) == files[..k] + [f] + files[k..]
  {
    hide Before;
    if files == [] || Before(f, files[0]) {
      k := 0;
    } else {
      k := PlaceSplits(files[1..], f);
      k := k + 1;
      assert files[..k] == [files[0]] + files[1..][..k - 1] && files[k..] == files[1..][k - 1..];
    }
  }

  lemma ListingAdds(d: Dir, x: BackupFile)
    requires x.name !in d
    ensures Listing(d[x.name := x]) == Place(Listing(d), x)
  {
    hide Before;
    OrderedUnique(Listing(d[x.name := x]), Place(Listing(d), x));
  }

  ghost predicate Lists(d: Dir, l: seq<BackupFile>)
  {
    l == Listing(d)
  }

  /** Without a cap a listed file survives exactly when the count pass keeps it. */
  lemma SurvivesIff(d: Dir, p: Policy, l: seq<BackupFile>, i: nat)
    requires Lists(d, l) && p.maxTotalSize <= 0 && i < |l|
    ensures l[i].name in d && (l[i].name in Pruned(d, p) <==> Keeps(l, RoomOf(NormalizeRetention(p)))[i])
  {
    ListingNames(d);
    assert l[i] in l;
    KeepsIsKept(l, RoomOf(NormalizeRetention(p)), i);
    hide Keeps;
    hide Kept;
    hide Listing;
  }

  /** What the insertion of `x` at `k` does to the decisions of the count pass. */
  predicate Exchanged(l: seq<BackupFile>, x: BackupFile, k: nat, r: Room, gone: int)
    requires k <= |l|
  {
    var without, with := Keeps(l[..k] + l[k..], r), Keeps(l[..k] + [x] + l[k..], r);
    with[..k] == without[..k] && DiffersAt(without[k..], with[k + 1..], gone)
  }

  /** The file at `i` of the old listing, before and after the insertion. */
  lemma SurvivalMoves(d: Dir, e: Dir, p: Policy, l: seq<BackupFile>, x: BackupFile, k: nat, gone: int, i: nat)
    requires k <= |l| && i < |l| && p.maxTotalSize <= 0
    requires Lists(d, l) && Lists(e, l[..k] + [x] + l[k..]) && Exchanged(l, x, k, RoomOf(NormalizeRetention(p)), gone)
    ensures l[i].name in Pruned(e, p) <==> l[i].name in Pruned(d, p) && (i < k || i - k != gone)
  {
    hide Lists;
    hide Keeps;
    hide Pruned;
    hide NormalizeRetention;
    hide DiffersAt;
    assert l[..k] + l[k..] == l;
    ShiftedIndex(l[..k], x, l[k..], i, RoomOf(NormalizeRetention(p)), gone);
    SurvivesIff(d, p, l, i);
    SurvivesIff(e, p, l[..k] + [x] + l[k..], if i < k then i else i + 1);
  }

  lemma ListedOnce(d: Dir, l: seq<BackupFile>, n: Bytes) returns (i: nat)
    requires Lists(d, l) && n in d
    ensures i < |l| && l[i].name == n && forall j :: 0 <= j < |l| && l[j].name == n ==> j == i
  {
    ListingNames(d);
    assert d[n] in l;
    i :| 0 <= i < |l| && l[i] == d[n];
  }

  /** Adding one full backup to a directory without a cap rescues nothing from the
      next pruning and displaces at most one backup that was safe. */
  lemma OneMoreBackup(d: Dir, x: BackupFile, p: Policy) returns (lost: set<Bytes>)
    requires x.name !in d && !x.incremental && p.maxTotalSize <= 0
    ensures |lost| <= 1
    ensures forall n :: n in d ==> (n in Pruned(d[x.name := x], p) <==> n in Pruned(d, p) && n !in lost)
  {
    hide Lists;
    hide Keeps;
    hide Pruned;
    hide NormalizeRetention;
    hide DiffersAt;
    hide Displaced;
    var l, k := InsertedListing(d, x);
    var gone := InsertionExchange(l[..k], x, l[k..], RoomOf(NormalizeRetention(p)));
    assert Exchanged(l, x, k, RoomOf(NormalizeRetention(p)), gone) by { assert |l[..k]| == k; }
    lost := Displaced(l, k, gone);
    assert |lost| <= 1;
    forall n | n in d ensures n in Pruned(d[x.name := x], p) <==> n in Pruned(d, p) && n !in lost {
      NameMoves(d, d[x.name := x], p, l, x, k, gone, n);
    }
  }

  function Displaced(l: seq<BackupFile>, k: nat, gone: int): (lost: set<Bytes>)
    requires k <= |l|
    ensures |lost| <= 1
  {
    if 0 <= gone < |l| - k then {l[k + gone].name} else {}
  }

  lemma NameMoves(d: Dir, e: Dir, p: Policy, l: seq<BackupFile>, x: BackupFile, k: nat, gone: int, n: Bytes)
    requires k <= |l| && n in d && p.maxTotalSize <= 0
    requires Lists(d, l) && Lists(e, l[..k] + [x] + l[k..]) && Exchanged(l, x, k, RoomOf(NormalizeRetention(p)), gone)
    ensures n in Pruned(e, p) <==> n in Pruned(d, p) && n !in Displaced(l, k, gone)
  {
    hide Lists;
    hide Exchanged;
    hide Pruned;
    hide NormalizeRetention;
    var i := ListedOnce(d, l, n);
    SurvivalMoves(d, e, p, l, x, k, gone, i);
  }

  lemma InsertedListing(d: Dir, x: BackupFile) returns (l: seq<BackupFile>, k: nat)
    requires x.name !in d
    ensures k <= |l| && Lists(d, l) && Lists(d[x.name := x], l[..k] + [x] + l[k..])
  {
    l := Listing(d);
    ListingAdds(d, x);
    hide Before;
    k := PlaceSplits(l, x);
  }

  /** Where an older or newer file is found after the insertion. */
  lemma ShiftedIndex(a: seq<BackupFile>, x: BackupFile, b: seq<BackupFile>, i: nat, r: Room, gone: int)
    requires i < |a + b|
    requires var without, with := Keeps(a + b, r), Keeps(a + [x] + b, r);
             with[..|a|] == without[..|a|] && DiffersAt(without[|a|..], with[|a| + 1..], gone)
    ensures var j := if i < |a| then i else i + 1;
            && (a + [x] + b)[j] == (a + b)[i]
            && (Keeps(a + [x] + b, r)[j] <==> Keeps(a + b, r)[i] && !(i >= |a| && i - |a| == gone))
  {
    hide Keeps;
    var without, with := Keeps(a + b, r), Keeps(a + [x] + b, r);
    if i < |a| {
      assert with[i] == with[..|a|][i] && without[i] == without[..|a|][i];
    } else {
      assert with[i + 1] == with[|a| + 1..][i - |a|] && without[i] == without[|a|..][i - |a|];
    }
  }

  // ------------------------------------- one more full backup under a size cap

  /** The full backups that are flagged. */
  function Picked(files: seq<BackupFile>, flags: seq<bool>): seq<BackupFile>
    requires |flags| == |files|
  {
    if files == [] then [] else One(files[0], flags[0]) + Picked(files[1..], flags[1..])
  }

  function One(f: BackupFile, flag: bool): seq<BackupFile>
  {
    if flag && !f.incremental then [f] else []
  }

  lemma PickedCons(f: BackupFile, flag: bool, rest: seq<BackupFile>, flags: seq<bool>)
    requires |flags| == |rest|
    ensures Picked([f] + rest, [flag] + flags) == One(f, flag) + Picked(rest, flags)
  {
    hide One;
    assert ([f] + rest)[1..] == rest && ([flag] + flags)[1..] == flags;
  }

  lemma {:induction false} KeptIsPicked(files: seq<BackupFile>, r: Room)
    ensures Kept(files, r) == Picked(files, Keeps(files, r))
  {
    if files != [] {
      var s := if files[0].incremental then Nothing else SlotFor(files[0], r);
      KeptIsPicked(files[1..], r.Take(s));
      hide SlotFor;
      assert Keeps(files, r)[1..] == Keeps(files[1..], r.Take(s));
    }
  }

  lemma {:induction false} PickedAppend(a: seq<BackupFile>, i: seq<bool>, b: seq<BackupFile>, j: seq<bool>)
    requires |i| == |a| && |j| == |b|
    ensures Picked(a + b, i + j) == Picked(a, i) + Picked(b, j)
  {
    hide One;
    if a == [] {
      assert a + b == b && i + j == j;
    } else {
      var f, flag, c, k := a[0], i[0], a[1..], i[1..];
      PickedAppend(c, k, b, j);
      PickedCons(f, flag, c + b, k + j);
      hide Picked;
      assert a + b == [f] + (c + b) && i + j == [flag] + (k + j);
      assert a == [f] + c && i == [flag] + k;
      PickedCons(f, flag, c, k);
    }
  }

  /** Taking one flag away takes at most one backup out of the list. */
  lemma {:induction false} PickedDrops(files: seq<BackupFile>, i: seq<bool>, j: seq<bool>, lost: int)
    returns (u: seq<BackupFile>, y: seq<BackupFile>, v: seq<BackupFile>)
    requires |i| == |files| && DiffersAt(i, j, lost)
    ensures Picked(files, i) == u + y + v && Picked(files, j) == u + v && |y| <= 1
    ensures lost < 0 ==> y == []
  {
    hide One;
    if files == [] {
      u, y, v := [], [], [];
    } else {
      var f, rest := files[0], files[1..];
      var i', j' := i[1..], j[1..];
      if lost == 0 {
        assert i' == j';
        u, y, v := [], One(f, i[0]), Picked(rest, i');
        assert One(f, j[0]) == [] && |y| <= 1 by { Singles(f, i[0], j[0]); }
      } else {
        u, y, v := PickedDrops(rest, i', j', lost - 1);
        assert Picked(files, i) == One(f, i[0]) + Picked(rest, i');
        assert Picked(files, j) == One(f, i[0]) + Picked(rest, j');
        hide Picked;
        assert One(f, i[0]) + (u + y + v) == (One(f, i[0]) + u) + y + v;
        u := One(f, i[0]) + u;
      }
    }
  }

  lemma Singles(f: BackupFile, flag: bool, other: bool)
    requires flag && !other
    ensures |One(f, flag)| <= 1 && One(f, other) == []
  {
  }

  /** How the kept list changes: `entered` goes in behind `newer`, and
      `displaced`, at most one backup, comes out in front of `older`. */
  datatype Move = Move(newer: seq<BackupFile>, entered: seq<BackupFile>, between: seq<BackupFile>,
                       displaced: seq<BackupFile>, older: seq<BackupFile>) {
    function Before(): seq<BackupFile>
    {
      newer + between + displaced + older
    }

    function After(): seq<BackupFile>
    {
      newer + entered + between + older
    }

    /** Nothing enters and nothing leaves, or `x` enters and at most one leaves. */
    predicate Admits(x: BackupFile)
    {
      (entered == [] && displaced == []) || (entered == [x] && |displaced| <= 1)
    }

    /** Some older backup fits with the bytes that entered, but not with those
        that were displaced. */
    predicate FreesRoom(base: nat, cap: int)
    {
      exists n :: 0 < n <= |older| && Fits(base, cap, entered, n) && !Fits(base, cap, displaced, n)
    }

    predicate Fits(base: nat, cap: int, extra: seq<BackupFile>, n: nat)
      requires n <= |older|
    {
      cap <= 0 || base + Size(newer) + Size(between) + Size(extra) + Size(older[..n]) <= cap
    }
  }

  lemma KeptMoves(a: seq<BackupFile>, x: BackupFile, b: seq<BackupFile>, r: Room) returns (m: Move)
    requires !x.incremental
    ensures m.Before() == Kept(a + b, r) && m.After() == Kept(a + [x] + b, r) && m.Admits(x)
  {
    hide Keeps;
    hide DiffersAt;
    hide Picked;
    var without, with := Keeps(a + b, r), Keeps(a + [x] + b, r);
    var lost := InsertionExchange(a, x, b, r);
    KeptIsPicked(a + b, r);
    KeptIsPicked(a + [x] + b, r);
    hide Kept;
    var i, j, k, t := without[..|a|], without[|a|..], with[|a| + 1..], with[|a|];
    assert without == i + j && with == i + ([t] + k) && a + [x] + b == a + ([x] + b);
    PickedAppend(a, i, b, j);
    PickedAppend(a, i, [x] + b, [t] + k);
    PickedCons(x, t, b, k);
    var u, y, v := PickedDrops(b, j, k, lost);
    var p, e := Picked(a, i), One(x, t);
    m := Move(p, e, u, y, v);
    assert p + (u + y + v) == p + u + y + v && p + (e + (u + v)) == p + e + u + v;
  }

  lemma {:induction false} SizeAppend(a: seq<BackupFile>, b: seq<BackupFile>)
    ensures Size(a + b) == Size(a) + Size(b)
  {
    if b == [] {
      assert a + b == a;
    } else {
      var n := |b| - 1;
      SizeAppend(a, b[..n]);
      assert (a + b)[..|a + b| - 1] == a + b[..n];
    }
  }

  /** A backup survives the cap exactly when it fits with all newer ones. */
  lemma FitsIff(a: seq<BackupFile>, f: BackupFile, b: seq<BackupFile>, base: nat, cap: int)
    requires DistinctNames(a + [f] + b)
    ensures f in Fit(a + [f] + b, base, cap) <==> cap <= 0 || base + Size(a) + f.size <= cap
  {
    var k := a + [f] + b;
    var r, n := Fit(k, base, cap), |a| + 1;
    assert k[..n] == a + [f];
    assert (a + [f])[..|a|] == a;
    assert Size(k[..n]) == Size(a) + f.size;
    assert k[|a|] == f;
    if n <= |r| {
      assert r[|a|] == k[|a|];
      assert r == k[..n] + r[n..];
      SizeAppend(k[..n], r[n..]);
    } else {
      forall i | 0 <= i < |r| ensures r[i] != f { assert r[i] == k[i]; }
    }
  }

  lemma FitsAt(k: seq<BackupFile>, a: seq<BackupFile>, b: seq<BackupFile>, c: seq<BackupFile>, n: nat, base: nat, cap: int)
    requires k == a + b + c && DistinctNames(k) && n < |b|
    ensures b[n] in Fit(k, base, cap) <==> cap <= 0 || base + Size(a) + Size(b[..n + 1]) <= cap
  {
    hide Fit;
    hide DistinctNames;
    assert k == (a + b[..n]) + [b[n]] + (b[n + 1..] + c);
    FitsIff(a + b[..n], b[n], b[n + 1..] + c, base, cap);
    SizeAppend(a, b[..n]);
    assert b[..n + 1][..n] == b[..n];
  }

  /** A backup newer than what is displaced is not saved by the exchange. */
  lemma NewerNotRescued(m: Move, f: BackupFile, base: nat, cap: int)
    requires DistinctNames(m.Before()) && DistinctNames(m.After()) && (f in m.newer || f in m.between)
    requires f in Fit(m.After(), base, cap)
    ensures f in Fit(m.Before(), base, cap)
  {
    hide Fit;
    hide DistinctNames;
    var p, e, u, y, v := m.newer, m.entered, m.between, m.displaced, m.older;
    var k, after := m.Before(), m.After();
    if f in p {
      var i :| 0 <= i < |p| && p[i] == f;
      assert k == [] + p + (u + y + v) && after == [] + p + (e + u + v);
      FitsAt(k, [], p, u + y + v, i, base, cap);
      FitsAt(after, [], p, e + u + v, i, base, cap);
    } else {
      var i :| 0 <= i < |u| && u[i] == f;
      assert k == p + u + (y + v) && after == (p + e) + u + v;
      FitsAt(k, p, u, y + v, i, base, cap);
      FitsAt(after, p + e, u, v, i, base, cap);
      SizeAppend(p, e);
    }
  }

  /** An older one survives exactly when it fits. */
  lemma OlderFits(m: Move, n: nat, base: nat, cap: int)
    requires DistinctNames(m.Before()) && DistinctNames(m.After()) && n < |m.older|
    ensures m.older[n] in Fit(m.After(), base, cap) <==> m.Fits(base, cap, m.entered, n + 1)
    ensures m.older[n] in Fit(m.Before(), base, cap) <==> m.Fits(base, cap, m.displaced, n + 1)
  {
    hide Fit;
    hide DistinctNames;
    var p, e, u, y, v := m.newer, m.entered, m.between, m.displaced, m.older;
    assert m.Before() == (p + u + y) + v + [] && m.After() == (p + e + u) + v + [];
    FitsAt(m.Before(), p + u + y, v, [], n, base, cap);
    FitsAt(m.After(), p + e + u, v, [], n, base, cap);
    SizeAppend(p + u, y);
    SizeAppend(p, u);
    SizeAppend(p + e, u);
    SizeAppend(p, e);
  }

  /** What is in both lists was not displaced and did not enter. */
  lemma InBoth(m: Move, x: BackupFile, f: BackupFile)
    requires m.Admits(x) && x !in m.Before() && f in m.Before() && f in m.After()
    ensures f in m.newer || f in m.between || f in m.older
  {
    assert f != x;
  }

  /** Exactly when some backup survives because one more was taken. */
  lemma RescuedIff(m: Move, x: BackupFile, base: nat, cap: int)
    requires m.Admits(x) && x !in m.Before() && DistinctNames(m.Before()) && DistinctNames(m.After())
    ensures (exists f :: f in m.Before() && f in Fit(m.After(), base, cap) && f !in Fit(m.Before(), base, cap)) <==>
              m.FreesRoom(base, cap)
  {
    hide DistinctNames;
    hide Fit;
    hide Move.Fits;
    var k, after := m.Before(), m.After();
    if f :| f in k && f in Fit(after, base, cap) && f !in Fit(k, base, cap) {
      assert f in after;
      InBoth(m, x, f);
      if f in m.newer || f in m.between {
        NewerNotRescued(m, f, base, cap);
      } else {
        var n :| 0 <= n < |m.older| && m.older[n] == f;
        OlderFits(m, n, base, cap);
        assert 0 < n + 1 <= |m.older|;
      }
    }
    if m.FreesRoom(base, cap) {
      var n :| 0 < n <= |m.older| && m.Fits(base, cap, m.entered, n) && !m.Fits(base, cap, m.displaced, n);
      OlderFits(m, n - 1, base, cap);
      assert m.older[n - 1] in k;
    }
  }

  lemma {:induction false} IncrementalAppend(a: seq<BackupFile>, b: seq<BackupFile>)
    ensures IncrementalSize(a + b) == IncrementalSize(a) + IncrementalSize(b)
  {
    if a == [] {
      assert a + b == b;
    } else {
      IncrementalAppend(a[1..], b);
      assert (a + b)[1..] == a[1..] + b;
    }
  }

  lemma IncrementalsStay(a: seq<BackupFile>, x: BackupFile, b: seq<BackupFile>)
    requires !x.incremental
    ensures IncrementalSize(a + [x] + b) == IncrementalSize(a + b)
  {
    IncrementalAppend(a + [x], b);
    IncrementalAppend(a, [x]);
    IncrementalAppend(a, b);
  }

  /** `k` is what the count pass keeps of the directory, beside `base` bytes of
      incremental backups. */
  ghost predicate CountLeaves(d: Dir, q: Policy, k: seq<BackupFile>, base: nat)
  {
    k == Kept(Listing(d), RoomOf(q)) && base == IncrementalSize(Listing(d))
  }

  lemma KeptNames(d: Dir, q: Policy, k: seq<BackupFile>, base: nat)
    requires CountLeaves(d, q, k, base)
    ensures DistinctNames(k)
    ensures forall f :: f in k ==> f.name in d && d[f.name] == f && !f.incremental
  {
    ListingNames(d);
    KeptDistinct(Listing(d), RoomOf(q));
    KeptAreListed(Listing(d), RoomOf(q));
  }

  /** A file of the directory survives if it is incremental or the cap leaves it. */
  lemma SurvivesCapIff(d: Dir, p: Policy, k: seq<BackupFile>, base: nat, n: Bytes)
    requires CountLeaves(d, NormalizeRetention(p), k, base) && n in d
    ensures n in Pruned(d, p) <==> d[n].incremental || d[n] in Fit(k, base, NormalizeRetention(p).maxTotalSize)
  {
    hide Fit;
    hide Kept;
    hide Listing;
  }

  lemma DirectoryMoves(d: Dir, e: Dir, x: BackupFile, q: Policy) returns (m: Move, base: nat)
    requires x.name !in d && !x.incremental && e == d[x.name := x]
    ensures CountLeaves(d, q, m.Before(), base) && CountLeaves(e, q, m.After(), base) && m.Admits(x)
  {
    hide Kept;
    hide IncrementalSize;
    hide Move.Before;
    hide Move.After;
    hide Move.Admits;
    var l, i := InsertedListing(d, x);
    assert l[..i] + l[i..] == l;
    m := KeptMoves(l[..i], x, l[i..], RoomOf(q));
    IncrementalsStay(l[..i], x, l[i..]);
    base := IncrementalSize(l);
  }

  lemma MoveWithin(m: Move, x: BackupFile)
    requires m.Admits(x)
    ensures forall f :: f in m.After() && f != x ==> f in m.Before()
  {
  }

  lemma SmallerFreesNone(m: Move, x: BackupFile, base: nat, cap: int)
    requires m.Admits(x) && Size(m.displaced) <= x.size
    ensures !m.FreesRoom(base, cap)
  {
    assert [x][..0] == [];
    assert Size([x]) == x.size;
  }

  /** Some backup that would have been removed survives. */
  ghost predicate Rescues(d: Dir, e: Dir, p: Policy)
  {
    exists n :: n in d && n in Pruned(e, p) && n !in Pruned(d, p)
  }

  /** Adding one full backup to any directory, under any policy: a backup that the
      next pruning would have removed survives it if and only if the exchange in
      the kept list frees room for an older one. None does without a cap, or when
      nothing larger than the newcomer is displaced. */
  lemma OneMoreUnderCap(d: Dir, e: Dir, x: BackupFile, p: Policy) returns (m: Move, base: nat)
    requires x.name !in d && !x.incremental && e == d[x.name := x]
    ensures var q := NormalizeRetention(p);
            && CountLeaves(d, q, m.Before(), base) && CountLeaves(e, q, m.After(), base) && m.Admits(x)
            && (Rescues(d, e, p) <==> m.FreesRoom(base, q.maxTotalSize))
    ensures p.maxTotalSize <= 0 || Size(m.displaced) <= x.size ==> !Rescues(d, e, p)
  {
    hide CountLeaves;
    hide Fit;
    hide Pruned;
    hide Move.Before;
    hide Move.After;
    hide DistinctNames;
    hide Size;
    var q := NormalizeRetention(p);
    var cap := q.maxTotalSize;
    assert p.maxTotalSize <= 0 ==> cap <= 0;
    hide NormalizeRetention;
    m, base := DirectoryMoves(d, e, x, q);
    assert p.maxTotalSize <= 0 ==> !m.FreesRoom(base, cap);
    hide Move.FreesRoom;
    hide Move.Admits;
    KeptNames(d, q, m.Before(), base);
    KeptNames(e, q, m.After(), base);
    RescuedIff(m, x, base, cap);
    MoveWithin(m, x);
    if Size(m.displaced) <= x.size {
      SmallerFreesNone(m, x, base, cap);
    }
    if Rescues(d, e, p) {
      var n :| n in d && n in Pruned(e, p) && n !in Pruned(d, p);
      SurvivesCapIff(d, p, m.Before(), base, n);
      SurvivesCapIff(e, p, m.After(), base, n);
      assert d[n] in m.After() && d[n] != x;
    }
    if f :| f in m.Before() && f in Fit(m.After(), base, cap) && f !in Fit(m.Before(), base, cap) {
      SurvivesCapIff(d, p, m.Before(), base, f.name);
      SurvivesCapIff(e, p, m.After(), base, f.name);
    }
  }

  /** Such an exchange: with one daily and one monthly slot, a new plain backup `x`
      displaces a larger one, and the first of the month that did not fit beside
      the larger one now does. */
  lemma SmallerNewcomerRescues(x: BackupFile, y: BackupFile, z: BackupFile, cap: int)
    requires !x.incremental && !y.incremental && !z.incremental && x.name != z.name && y.name != z.name
    requires !IsMonthly(x.when) && !IsMonthly(y.when) && IsMonthly(z.when)
    requires x.size + z.size <= cap < y.size + z.size && cap > 0
    ensures var r := Room(0, 1, 0, 1);
            z in Fit(Kept([x, y, z], r), 0, cap) && z !in Fit(Kept([y, z], r), 0, cap)
  {
    hide Fit;
    var r, s := Room(0, 1, 0, 1), Room(0, 1, 0, 0);
    assert Kept([z], s) == [z] by { assert [z][1..] == []; }
    assert [y, z][1..] == [z] && [x, y, z][1..] == [y, z];
    assert Kept([y, z], s) == [z];
    assert Kept([y, z], r) == [y] + [z];
    assert Kept([x, y, z], r) == [x] + [z];
    hide Kept;
    assert [y] + [z] + [] == [y] + [z] && [x] + [z] + [] == [x] + [z];
    FitsIff([y], z, [], 0, cap);
    FitsIff([x], z, [], 0, cap);
    assert [x][..0] == [] && [y][..0] == [];
  }

  /** The state of the count pass in front of `files[i]`. */
  ghost predicate CountState(files: seq<BackupFile>, p: Policy, i: nat, room: Room, kept: seq<BackupFile>, total: int, gone: set<Bytes>)
  {
    && i <= |files|
    && Kept(files, RoomOf(p)) == kept + Kept(files[i..], room)
    && total + IncrementalSize(files[i..]) == IncrementalSize(files) + Size(kept)
    && (forall f :: f in kept ==> f in files[..i])
    && gone == Doomed(files[..i], kept)
  }

  lemma CountStart(files: seq<BackupFile>, p: Policy)
    ensures CountState(files, p, 0, RoomOf(p), [], 0, {})
  {
    assert files[0..] == files && files[..0] == [];
  }

  lemma CountDone(files: seq<BackupFile>, p: Policy, room: Room, kept: seq<BackupFile>, total: int, gone: set<Bytes>)
    requires CountState(files, p, |files|, room, kept, total, gone)
    ensures kept == Kept(files, RoomOf(p))
    ensures total == IncrementalSize(files) + Size(kept)
    ensures gone == Doomed(files, kept)
  {
    assert files[|files|..] == [] && files[..|files|] == files;
  }

  lemma DoomedSnoc(files: seq<BackupFile>, f: BackupFile, kept: seq<BackupFile>)
    requires f !in files && (forall g :: g in kept ==> g in files) && !f.incremental
    ensures Doomed(files + [f], kept) == Doomed(files, kept) + {f.name}
    ensures Doomed(files + [f], kept + [f]) == Doomed(files, kept)
  {
    assert forall g :: g in files + [f] <==> g in files || g == f;
    forall g | g in files + [f] ensures Stays(g, kept + [f]) <==> g == f || Stays(g, kept) {
    }
  }

  lemma CountSkip(files: seq<BackupFile>, p: Policy, i: nat, room: Room, kept: seq<BackupFile>, total: int, gone: set<Bytes>)
    requires i < |files| && files[i].incremental && CountState(files, p, i, room, kept, total, gone)
    ensures CountState(files, p, i + 1, room, kept, total + files[i].size, gone)
  {
    assert files[i..][1..] == files[i + 1..];
    assert files[..i + 1] == files[..i] + [files[i]];
    assert Doomed(files[..i + 1], kept) == Doomed(files[..i], kept);
  }

  lemma CountDrop(files: seq<BackupFile>, p: Policy, i: nat, room: Room, kept: seq<BackupFile>, total: int, gone: set<Bytes>)
    requires DistinctNames(files) && i < |files| && !files[i].incremental && SlotFor(files[i], room) == Nothing
    requires CountState(files, p, i, room, kept, total, gone)
    ensures CountState(files, p, i + 1, room, kept, total, gone + {files[i].name})
  {
    hide SlotFor;
    assert files[i..][1..] == files[i + 1..];
    assert files[..i + 1] == files[..i] + [files[i]];
    DoomedSnoc(files[..i], files[i], kept);
  }

  lemma CountKeep(files: seq<BackupFile>, p: Policy, i: nat, room: Room, kept: seq<BackupFile>, total: int, gone: set<Bytes>)
    requires DistinctNames(files) && i < |files| && !files[i].incremental && SlotFor(files[i], room) != Nothing
    requires CountState(files, p, i, room, kept, total, gone)
    ensures CountState(files, p, i + 1, room.Take(SlotFor(files[i], room)), kept + [files[i]], total + files[i].size, gone)
  {
    hide SlotFor;
    hide Doomed;
    hide Kept;
    hide IncrementalSize;
    hide Size;
    var f, s := files[i], SlotFor(files[i], room);
    NotBefore(files, i);
    hide DistinctNames;
    assert files[..i + 1] == files[..i] + [f];
    DoomedSnoc(files[..i], f, kept);
    KeptUnfold(files, i, room);
    SizeSnoc(kept, f);
    assert kept + ([f] + Kept(files[i + 1..], room.Take(s))) == (kept + [f]) + Kept(files[i + 1..], room.Take(s));
  }

  lemma NotBefore(files: seq<BackupFile>, i: nat)
    requires DistinctNames(files) && i < |files|
    ensures files[i] !in files[..i]
  {
  }

  lemma SizeSnoc(kept: seq<BackupFile>, f: BackupFile)
    ensures Size(kept + [f]) == Size(kept) + f.size
  {
    assert (kept + [f])[..|kept|] == kept;
  }

  lemma KeptUnfold(files: seq<BackupFile>, i: nat, room: Room)
    requires i < |files| && !files[i].incremental && SlotFor(files[i], room) != Nothing
    ensures Kept(files[i..], room) == [files[i]] + Kept(files[i + 1..], room.Take(SlotFor(files[i], room)))
    ensures IncrementalSize(files[i..]) == IncrementalSize(files[i + 1..])
  {
    hide SlotFor;
    assert files[i..][1..] == files[i + 1..];
  }

  /** What the count pass has removed so far is beyond saving. */
  lemma CountDoomed(files: seq<BackupFile>, p: Policy, i: nat, room: Room, kept: seq<BackupFile>, total: int, gone: set<Bytes>)
    requires DistinctNames(files) && CountState(files, p, i, room, kept, total, gone)
    ensures gone <= Doomed(files, Kept(files, RoomOf(p)))
  {
    KeptAreListed(files[i..], room);
    forall n | n in gone ensures n in Doomed(files, Kept(files, RoomOf(p))) {
      var f :| f in files[..i] && !Stays(f, kept) && f.name == n;
      var a :| 0 <= a < i && files[a] == f;
      assert forall b :: 0 <= b < |files[i..]| ==> files[i..][b] == files[i + b];
      assert f !in files[i..];
      assert f in files && !Stays(f, Kept(files, RoomOf(p)));
    }
  }

  lemma DoomedGrows(files: seq<BackupFile>, fewer: seq<BackupFile>, more: seq<BackupFile>)
    requires fewer <= more
    ensures Doomed(files, more) <= Doomed(files, fewer)
  {
    assert forall f :: f in fewer ==> f in more;
  }

  /** Dropping the last of `kept[..k + 1]` dooms exactly that one more. */
  lemma DoomedStep(list: seq<BackupFile>, kept: seq<BackupFile>, k: nat)
    requires k < |kept| && DistinctNames(kept) && DistinctNames(list)
    requires forall f :: f in kept ==> f in list && !f.incremental
    ensures Doomed(list, kept[..k]) == Doomed(list, kept[..k + 1]) + {kept[k].name}
    ensures kept[k].name !in Doomed(list, kept[..k + 1])
  {
    var f := kept[k];
    assert f in kept;
    assert f !in kept[..k];
    assert kept[..k + 1] == kept[..k] + [f];
    forall g | g in list ensures Stays(g, kept[..k + 1]) <==> Stays(g, kept[..k]) || g == f {
    }
    forall g | g in list && g.name == f.name ensures g == f {
      var a :| 0 <= a < |list| && list[a] == g;
      var b :| 0 <= b < |list| && list[b] == f;
    }
  }

  /** The state of the size pass with `kept[..i]` still in place. */
  ghost predicate SizeState(list: seq<BackupFile>, kept: seq<BackupFile>, base: nat, cap: int, i: nat, total: int, gone: set<Bytes>)
  {
    && i <= |kept|
    && total == base + Size(kept[..i])
    && Fit(kept, base, cap) == Fit(kept[..i], base, cap)
    && gone == Doomed(list, kept[..i])
    && gone <= Doomed(list, Fit(kept, base, cap))
  }

  lemma SizeStep(list: seq<BackupFile>, kept: seq<BackupFile>, base: nat, cap: int, i: nat, total: int, gone: set<Bytes>)
    requires DistinctNames(list) && (forall f :: f in kept ==> f in list && !f.incremental) && DistinctNames(kept)
    requires SizeState(list, kept, base, cap, i, total, gone) && i > 0 && total > cap > 0
    ensures SizeState(list, kept, base, cap, i - 1, total - kept[i - 1].size, gone + {kept[i - 1].name})
    ensures kept[i - 1].name !in gone
    ensures gone + {kept[i - 1].name} <= Doomed(list, Fit(kept, base, cap))
  {
    assert kept[..i][..i - 1] == kept[..i - 1];
    DoomedStep(list, kept, i - 1);
    DoomedGrows(list, Fit(kept[..i - 1], base, cap), kept[..i - 1]);
  }

  lemma SizeStart(list: seq<BackupFile>, kept: seq<BackupFile>, base: nat, cap: int, total: int, gone: set<Bytes>)
    requires total == base + Size(kept) && gone == Doomed(list, kept)
    ensures SizeState(list, kept, base, cap, |kept|, total, gone)
  {
    assert kept[..|kept|] == kept;
    DoomedGrows(list, Fit(kept, base, cap), kept);
  }

  lemma SizeDone(list: seq<BackupFile>, kept: seq<BackupFile>, base: nat, cap: int, i: nat, total: int, gone: set<Bytes>)
    requires SizeState(list, kept, base, cap, i, total, gone)
    requires i == 0 || total <= cap || (cap <= 0 && i == |kept|)
    ensures gone == Doomed(list, Fit(kept, base, cap))
  {
  }

  lemma {:induction false} KeptDistinct(files: seq<BackupFile>, r: Room)
    requires DistinctNames(files)
    ensures DistinctNames(Kept(files, r))
  {
    if files != [] {
      var s := if files[0].incremental then Nothing else SlotFor(files[0], r);
      var rest := Kept(files[1..], r.Take(s));
      KeptDistinct(files[1..], r.Take(s));
      KeptAreListed(files[1..], r.Take(s));
      forall j | 0 <= j < |rest| ensures rest[j].name != files[0].name {
        assert rest[j] in files[1..];
      }
    }
  }

  datatype Outcome = Removed(paths: seq<Bytes>) | RemoveFailed

  class BackupDirectory {
    var files: Dir

    constructor (d: Dir)
      ensures files == d
    {
      files := d;
    }

    /** `os.Remove`, which fails for the names in `stuck`. */
    method Remove(name: Bytes, stuck: set<Bytes>) returns (ok: bool)
      modifies this
      ensures ok == (name !in stuck)
      ensures files == if ok then Without(old(files), {name}) else old(files)
    {
      ok := name !in stuck;
      if ok {
        files := Without(files, {name});
      }
    }

    method CountPass(list: seq<BackupFile>, policy: Policy, stuck: set<Bytes>)
      returns (ok: bool, kept: seq<BackupFile>, total: int, removed: set<Bytes>)
      requires DistinctNames(list)
      modifies this
      ensures files == Without(old(files), removed)
      ensures removed <= Doomed(list, Kept(list, RoomOf(policy)))
      ensures ok <==> Doomed(list, Kept(list, RoomOf(policy))) !! stuck
      ensures ok ==>
                && kept == Kept(list, RoomOf(policy))
                && total == IncrementalSize(list) + Size(kept)
                && removed == Doomed(list, kept)
    {
      hide SlotFor;
      hide CountState;
      var yearly, monthly, weekly, daily := 0, 0, 0, 0;
      kept, total, removed := [], 0, {};
      CountStart(list, policy);
      for i := 0 to |list|
        invariant CountState(list, policy, i, RoomLeft(policy, yearly, monthly, weekly, daily), kept, total, removed)
        invariant files == Without(old(files), removed)
        invariant removed !! stuck
        invariant removed <= Doomed(list, Kept(list, RoomOf(policy)))
      {
        var f := list[i];
        ghost var room := RoomLeft(policy, yearly, monthly, weekly, daily);
        if f.incremental {
          CountSkip(list, policy, i, room, kept, total, removed);
          total := total + f.size;
          continue;
        }
        SlotCases(f, policy, yearly, monthly, weekly, daily);
        if IsYearly(f.when) && yearly < policy.yearly {
          yearly := yearly + 1;
        } else if IsMonthly(f.when) && monthly < policy.monthly {
          monthly := monthly + 1;
        } else if IsWeekly(f.when) && weekly < policy.weekly {
          weekly := weekly + 1;
        } else if daily < policy.daily {
          daily := daily + 1;
        } else {
          CountDrop(list, policy, i, room, kept, total, removed);
          CountDoomed(list, policy, i + 1, room, kept, total, removed + {f.name});
          var gone := Remove(f.name, stuck);
          if !gone {
            return false, kept, total, removed;
          }
          removed := removed + {f.name};
          continue;
        }
        CountKeep(list, policy, i, room, kept, total, removed);
        kept := kept + [f];
        total := total + f.size;
      }
      CountDone(list, policy, RoomLeft(policy, yearly, monthly, weekly, daily), kept, total, removed);
      ok := true;
    }

    /** Deletes from the oldest end of `kept` while `total` is over the cap. */
    method SizePass(list: seq<BackupFile>, kept: seq<BackupFile>, sum: int, cap: int, gone: set<Bytes>, stuck: set<Bytes>)
      returns (ok: bool, removed: set<Bytes>)
      requires DistinctNames(list) && (forall f :: f in kept ==> f in list && !f.incremental) && DistinctNames(kept)
      requires sum == IncrementalSize(list) + Size(kept)
      requires gone == Doomed(list, kept) && gone !! stuck
      modifies this
      ensures ok <==> Doomed(list, Fit(kept, IncrementalSize(list), cap)) !! stuck
      ensures files == Without(old(files), removed - gone)
      ensures gone <= removed <= Doomed(list, Fit(kept, IncrementalSize(list), cap))
      ensures ok ==> removed == Doomed(list, Fit(kept, IncrementalSize(list), cap))
    {
      hide IncrementalSize;
      hide SizeState;
      hide Doomed;
      hide Fit;
      hide Size;
      hide Stays;
      ghost var base := IncrementalSize(list);
      removed, ok := gone, true;
      var total, i: nat := sum, |kept|;
      SizeStart(list, kept, base, cap, total, removed);
      if cap > 0 {
        while i > 0 && total > cap
          invariant i <= |kept|
          invariant SizeState(list, kept, base, cap, i, total, removed)
          invariant removed !! stuck && gone <= removed
          invariant files == Without(old(files), removed - gone)
        {
          SizeStep(list, kept, base, cap, i, total, removed);
          var f := kept[i - 1];
          var deleted := Remove(f.name, stuck);
          if !deleted {
            return false, removed;
          }
          removed := removed + {f.name};
          total := total - f.size;
          i := i - 1;
        }
      }
      SizeDone(list, kept, base, cap, i, total, removed);
    }

    /** On success the directory is pruned and the removed paths come back in
        order. On failure the sweep stopped early: some doomed files remain, but
        nothing that stays under the policy is gone. */
    method Prune(retention: Policy, stuck: set<Bytes>) returns (r: Outcome)
      modifies this
      ensures r.Removed? <==> old(files).Keys - Pruned(old(files), retention).Keys !! stuck
      ensures r.Removed? ==>
                && files == Pruned(old(files), retention)
                && r.paths == SortedNames(old(files).Keys - files.Keys)
      ensures r.RemoveFailed? ==>
                && (forall n :: n in files ==> n in old(files) && files[n] == old(files)[n])
                && (forall n :: n in Pruned(old(files), retention) ==> n in files)
    {
      var list := Scan(files);
      ListingNames(files);
      DoomedKeys(files, retention);
      var ok, removed := Sweep(list, retention, stuck);
      PartlyPruned(old(files), retention, files, removed);
      if !ok {
        return RemoveFailed;
      }
      var paths := CollectSorted(removed);
      return Removed(paths);
    }

    /** Both passes over a listing. */
    method Sweep(list: seq<BackupFile>, retention: Policy, stuck: set<Bytes>) returns (ok: bool, removed: set<Bytes>)
      requires DistinctNames(list)
      modifies this
      ensures files == Without(old(files), removed)
      ensures removed <= Doomed(list, Survivors(list, retention))
      ensures ok <==> Doomed(list, Survivors(list, retention)) !! stuck
      ensures ok ==> removed == Doomed(list, Survivors(list, retention))
    {
      hide Kept;
      hide Fit;
      hide Doomed;
      var policy := NormalizeRetention(retention);
      KeptAreListed(list, RoomOf(policy));
      KeptDistinct(list, RoomOf(policy));
      DoomedGrows(list, Survivors(list, retention), Kept(list, RoomOf(policy)));
      hide NormalizeRetention;
      var kept, total;
      ok, kept, total, removed := CountPass(list, policy, stuck);
      if ok {
        ghost var first := removed;
        ok, removed := SizePass(list, kept, total, policy.maxTotalSize, removed, stuck);
        WithoutTwice(old(files), first, removed);
      }
    }
  }

  lemma WithoutTwice(d: Dir, a: set<Bytes>, b: set<Bytes>)
    requires a <= b
    ensures Without(Without(d, a), b - a) == Without(d, b)
  {
  }

  /** The names pruning removes. */
  lemma DoomedKeys(d: Dir, p: Policy)
    ensures d.Keys - Pruned(d, p).Keys == Doomed(Listing(d), Survivors(Listing(d), p))
  {
    var l := Listing(d);
    var survivors := Survivors(l, p);
    PrunedIsWithout(d, p);
    hide Survivors;
    assert Doomed(l, survivors) <= d.Keys;
  }

  /** A directory that has lost some of the doomed names, or all of them. */
  lemma PartlyPruned(d: Dir, p: Policy, now: Dir, gone: set<Bytes>)
    requires now == Without(d, gone)
    requires gone <= d.Keys - Pruned(d, p).Keys
    ensures forall n :: n in now ==> n in d && now[n] == d[n]
    ensures forall n :: n in Pruned(d, p) ==> n in now
    ensures gone == d.Keys - Pruned(d, p).Keys ==> now == Pruned(d, p)
  {
  }

  /** The five branches of the count pass name the slot that is taken. */
  lemma SlotCases(f: BackupFile, p: Policy, yearly: int, monthly: int, weekly: int, daily: int)
    ensures var room := RoomLeft(p, yearly, monthly, weekly, daily);
            if IsYearly(f.when) && yearly < p.yearly then
              SlotFor(f, room) == Yearly && room.Take(Yearly) == RoomLeft(p, yearly + 1, monthly, weekly, daily)
            else if IsMonthly(f.when) && monthly < p.monthly then
              SlotFor(f, room) == Monthly && room.Take(Monthly) == RoomLeft(p, yearly, monthly + 1, weekly, daily)
            else if IsWeekly(f.when) && weekly < p.weekly then
              SlotFor(f, room) == Weekly && room.Take(Weekly) == RoomLeft(p, yearly, monthly, weekly + 1, daily)
            else if daily < p.daily then
              SlotFor(f, room) == Daily && room.Take(Daily) == RoomLeft(p, yearly, monthly, weekly, daily + 1)
            else SlotFor(f, room) == Nothing
  {
  }

  // ---------------------------------------------------- what pruning ensures

  lemma PruneKeepsIncrementals(d: Dir, p: Policy)
    ensures forall n :: n in d && d[n].incremental ==> n in Pruned(d, p)
  {
  }

  /** With a cap, the result fits it or holds no full backup; what the cap
      removed is the shortest tail of the oldest backups that makes it fit. */
  lemma CapIsRespected(d: Dir, p: Policy)
    requires p.maxTotalSize > 0
    ensures var kept := Kept(Listing(d), RoomOf(NormalizeRetention(p)));
            var left := Survivors(Listing(d), p);
            var base := IncrementalSize(Listing(d));
            && left <= kept
            && (left == [] || base + Size(left) <= p.maxTotalSize)
            && (forall k :: |left| < k <= |kept| ==> base + Size(kept[..k]) > p.maxTotalSize)
            && (forall n :: n in d && !d[n].incremental ==> (n in Pruned(d, p) <==> d[n] in left))
  {
  }

  // ------------------------------------------------------------ by the clock

  /** A listing is newest first: no file is newer than one listed before it. */
  lemma ListingByInstant(d: Dir, i: nat, j: nat)
    requires i < j < |Listing(d)|
    ensures Listing(d)[i].when.instant >= Listing(d)[j].when.instant
  {
    hide Listing;
    assert Before(Listing(d)[i], Listing(d)[j]);
  }

  /** The names in front of `i` that qualify for a slot. */
  function AheadNames(files: seq<BackupFile>, i: nat, s: Slot): set<Bytes>
    requires i <= |files|
  {
    set j | 0 <= j < i && !files[j].incremental && Qualifies(files[j], s) :: files[j].name
  }

  lemma {:induction false} AheadCounts(files: seq<BackupFile>, i: nat, s: Slot)
    requires DistinctNames(files) && i <= |files|
    ensures |AheadNames(files, i, s)| == Ahead(files, i, s)
  {
    hide Qualifies;
    if i == 0 {
      assert AheadNames(files, i, s) == {};
    } else {
      var rest := files[1..];
      AheadCounts(rest, i - 1, s);
      AheadShift(files, i, s);
      NotAhead(files, i, s);
      hide AheadNames;
      hide DistinctNames;
    }
  }

  lemma NotAhead(files: seq<BackupFile>, i: nat, s: Slot)
    requires DistinctNames(files) && 0 < i <= |files|
    ensures files[0].name !in AheadNames(files[1..], i - 1, s)
  {
    assert forall j :: 0 <= j < i - 1 ==> files[1..][j] == files[j + 1];
  }

  lemma AheadShift(files: seq<BackupFile>, i: nat, s: Slot)
    requires 0 < i <= |files|
    ensures AheadNames(files, i, s) ==
              AheadNames(files[1..], i - 1, s) + if !files[0].incremental && Qualifies(files[0], s) then {files[0].name} else {}
  {
    hide Qualifies;
    var rest := files[1..];
    forall n | n in AheadNames(files, i, s)
      ensures n in AheadNames(rest, i - 1, s) + if !files[0].incremental && Qualifies(files[0], s) then {files[0].name} else {}
    {
      var j :| 0 <= j < i && !files[j].incremental && Qualifies(files[j], s) && files[j].name == n;
      assert j > 0 ==> rest[j - 1] == files[j];
    }
    forall n | n in AheadNames(rest, i - 1, s) ensures n in AheadNames(files, i, s) {
      var j :| 0 <= j < i - 1 && !rest[j].incremental && Qualifies(rest[j], s) && rest[j].name == n;
      assert files[j + 1] == rest[j];
    }
    assert files[0] == files[0];
  }

  lemma {:induction false} SubsetCount(a: set<Bytes>, b: set<Bytes>)
    requires a <= b
    ensures |a| <= |b|
  {
    if a != {} {
      var x :| x in a;
      SubsetCount(a - {x}, b - {x});
    }
  }

  /** Other full backups of the kind that are not older. */
  ghost function Rivals(d: Dir, n: Bytes, s: Slot): set<Bytes>
    requires n in d
  {
    set k | k in d && k != n && !d[k].incremental && Qualifies(d[k], s) && d[k].when.instant >= d[n].when.instant
  }

  lemma AheadAreRivals(d: Dir, n: Bytes, i: nat, s: Slot)
    requires n in d && i < |Listing(d)| && Listing(d)[i].name == n
    ensures AheadNames(Listing(d), i, s) <= Rivals(d, n, s)
  {
    var l := Listing(d);
    ListingNames(d);
    assert l[i] in l;
    forall m | m in AheadNames(l, i, s) ensures m in Rivals(d, n, s) {
      var j :| 0 <= j < i && !l[j].incremental && Qualifies(l[j], s) && l[j].name == m;
      assert l[j] in l;
      ListingByInstant(d, j, i);
    }
  }

  lemma KindSafe(d: Dir, p: Policy, n: Bytes, s: Slot)
    requires n in d && !d[n].incremental && p.maxTotalSize <= 0 && Qualifies(d[n], s)
    requires |Rivals(d, n, s)| < RoomOf(NormalizeRetention(p)).Of(s)
    ensures n in Pruned(d, p)
  {
    hide Qualifies;
    hide Pruned;
    hide Rivals;
    hide AheadNames;
    hide NormalizeRetention;
    var l, r := Listing(d), RoomOf(NormalizeRetention(p));
    assert Lists(d, l);
    var i := ListedOnce(d, l, n);
    ListingNames(d);
    assert l[i] in l;
    AheadAreRivals(d, n, i, s);
    SubsetCount(AheadNames(l, i, s), Rivals(d, n, s));
    AheadCounts(l, i, s);
    NewestOfEachKindAreKept(l, r, i, s);
    SurvivesIff(d, p, l, i);
  }

  /** What the policy promises, by date and time: without a cap, a full backup of
      the first of January, of a first of a month, of a Sunday, or of any day is
      safe while fewer others of its kind than the limit are as new. */
  lemma SafeByDate(d: Dir, p: Policy, n: Bytes)
    requires n in d && !d[n].incremental && p.maxTotalSize <= 0
    ensures (&& d[n].when.month == 1 && d[n].when.day == 1
             && |set k | k in d && k != n && !d[k].incremental && d[k].when.month == 1 && d[k].when.day == 1 &&
                         d[k].when.instant >= d[n].when.instant| < p.yearly) ==> n in Pruned(d, p)
    ensures (&& d[n].when.day == 1
             && |set k | k in d && k != n && !d[k].incremental && d[k].when.day == 1 &&
                         d[k].when.instant >= d[n].when.instant| < p.monthly) ==> n in Pruned(d, p)
    ensures (&& d[n].when.weekday == 0
             && |set k | k in d && k != n && !d[k].incremental && d[k].when.weekday == 0 &&
                         d[k].when.instant >= d[n].when.instant| < p.weekly) ==> n in Pruned(d, p)
    ensures |set k | k in d && k != n && !d[k].incremental && d[k].when.instant >= d[n].when.instant| < p.daily ==>
              n in Pruned(d, p)
  {
    hide Pruned;
    assert Rivals(d, n, Yearly) == set k | k in d && k != n && !d[k].incremental && d[k].when.month == 1 &&
                                           d[k].when.day == 1 && d[k].when.instant >= d[n].when.instant;
    assert Rivals(d, n, Monthly) == set k | k in d && k != n && !d[k].incremental && d[k].when.day == 1 &&
                                            d[k].when.instant >= d[n].when.instant;
    assert Rivals(d, n, Weekly) == set k | k in d && k != n && !d[k].incremental && d[k].when.weekday == 0 &&
                                           d[k].when.instant >= d[n].when.instant;
    assert Rivals(d, n, Daily) == set k | k in d && k != n && !d[k].incremental && d[k].when.instant >= d[n].when.instant;
    SafeByKind(d, p, n, Yearly);
    SafeByKind(d, p, n, Monthly);
    SafeByKind(d, p, n, Weekly);
    SafeByKind(d, p, n, Daily);
  }

  lemma SafeByKind(d: Dir, p: Policy, n: Bytes, s: Slot)
    requires n in d && !d[n].incremental && p.maxTotalSize <= 0
    ensures Qualifies(d[n], s) && |Rivals(d, n, s)| < RoomOf(NormalizeRetention(p)).Of(s) ==> n in Pruned(d, p)
  {
    if Qualifies(d[n], s) && |Rivals(d, n, s)| < RoomOf(NormalizeRetention(p)).Of(s) {
      KindSafe(d, p, n, s);
    }
  }

  /** Without a cap, the newest full backup survives every policy. */
  lemma NewestSurvives(d: Dir, p: Policy, n: Bytes)
    requires n in d && !d[n].incremental && p.maxTotalSize <= 0
    requires forall k :: k in d && k != n && !d[k].incremental ==> d[k].when.instant < d[n].when.instant
    ensures n in Pruned(d, p)
  {
    hide Pruned;
    assert Rivals(d, n, Daily) == {};
    KindSafe(d, p, n, Daily);
  }

  /** With daily slots alone, the pass keeps the newest so many. */
  lemma {:induction false} DailyKeeps(files: seq<BackupFile>, daily: int, i: nat)
    requires i < |files| && !files[i].incremental
    ensures Keeps(files, Room(0, 0, 0, daily))[i] <==> Ahead(files, i, Daily) < daily
  {
    if i > 0 {
      DailyKeeps(files[1..], if !files[0].incremental && daily > 0 then daily - 1 else daily, i - 1);
    }
  }

  /** With daily slots only, no cap and different times, a full backup stays if and
      only if fewer full backups than the limit are newer. */
  lemma DailyOnlyIff(d: Dir, p: Policy, n: Bytes)
    requires n in d && !d[n].incremental
    requires p.daily >= 1 && p.weekly <= 0 && p.monthly <= 0 && p.yearly <= 0 && p.maxTotalSize <= 0
    requires forall k :: k in d && k != n && !d[k].incremental ==> d[k].when.instant != d[n].when.instant
    ensures n in Pruned(d, p) <==>
              |set k | k in d && !d[k].incremental && d[k].when.instant > d[n].when.instant| < p.daily
  {
    hide Pruned;
    var newer := set k | k in d && !d[k].incremental && d[k].when.instant > d[n].when.instant;
    var l := Listing(d);
    assert RoomOf(NormalizeRetention(p)) == Room(0, 0, 0, p.daily);
    hide NormalizeRetention;
    assert Lists(d, l);
    var i := ListedOnce(d, l, n);
    ListingNames(d);
    assert l[i] in l;
    AheadNewer(d, n, i);
    AheadCounts(l, i, Daily);
    DailyKeeps(l, p.daily, i);
    SurvivesIff(d, p, l, i);
    hide Keeps;
    hide AheadNames;
  }

  lemma AheadNewer(d: Dir, n: Bytes, i: nat)
    requires n in d && i < |Listing(d)| && Listing(d)[i].name == n
    requires forall k :: k in d && k != n && !d[k].incremental ==> d[k].when.instant != d[n].when.instant
    ensures AheadNames(Listing(d), i, Daily) == set k | k in d && !d[k].incremental && d[k].when.instant > d[n].when.instant
  {
    var l := Listing(d);
    AheadAreRivals(d, n, i, Daily);
    assert l[i] in l;
    hide Listing;
    forall k | k in d && !d[k].incremental && d[k].when.instant > d[n].when.instant ensures k in AheadNames(l, i, Daily) {
      assert d[k] in l;
      var j :| 0 <= j < |l| && l[j] == d[k];
    }
  }

  /** The cap takes the oldest: of two full backups that the counts would keep, one
      that is dropped for size is not newer than one that stays. */
  lemma CapDropsOldest(d: Dir, p: Policy, a: Bytes, b: Bytes)
    requires a in d && b in d && !d[a].incremental && !d[b].incremental
    requires a in Pruned(d, p.(maxTotalSize := 0)) && a !in Pruned(d, p) && b in Pruned(d, p)
    ensures d[a].when.instant <= d[b].when.instant
  {
    hide Fit;
    hide Pruned;
    hide Kept;
    hide IncrementalSize;
    hide Listing;
    var q, none, l := NormalizeRetention(p), p.(maxTotalSize := 0), Listing(d);
    var kept, base := Kept(l, RoomOf(q)), IncrementalSize(l);
    assert RoomOf(NormalizeRetention(none)) == RoomOf(q);
    SurvivesCapIff(d, p, kept, base, a);
    SurvivesCapIff(d, p, kept, base, b);
    SurvivesCapIff(d, none, kept, base, a);
    KeptOrdered(l, RoomOf(q));
    DroppedIsOlder(kept, Fit(kept, base, q.maxTotalSize), d[a], d[b]);
  }

  lemma DroppedIsOlder(kept: seq<BackupFile>, left: seq<BackupFile>, a: BackupFile, b: BackupFile)
    requires Ordered(kept) && left <= kept && a in kept && a !in left && b in left
    ensures a.when.instant <= b.when.instant
  {
    var i :| 0 <= i < |kept| && kept[i] == a;
    var j :| 0 <= j < |left| && left[j] == b;
    assert forall x :: 0 <= x < |left| ==> left[x] == kept[x] && left[x] in left;
    assert Before(kept[j], kept[i]);
  }

  lemma {:induction false} KeptOrdered(files: seq<BackupFile>, r: Room)
    requires Ordered(files)
    ensures Ordered(Kept(files, r))
  {
    hide Before;
    if files != [] {
      var s := if files[0].incremental then Nothing else SlotFor(files[0], r);
      var rest := Kept(files[1..], r.Take(s));
      KeptOrdered(files[1..], r.Take(s));
      KeptAreListed(files[1..], r.Take(s));
      forall j | 0 <= j < |rest| ensures Before(files[0], rest[j]) {
        assert rest[j] in files[1..];
        var k :| 1 <= k < |files| && files[k] == rest[j];
      }
    }
  }

  /** The number of full backups kept never exceeds the sum of the limits. */
  lemma {:induction false} KeptIsBounded(files: seq<BackupFile>, r: Room)
    requires r.yearly >= 0 && r.monthly >= 0 && r.weekly >= 0 && r.daily >= 0
    ensures |Kept(files, r)| <= r.yearly + r.monthly + r.weekly + r.daily
  {
    if files != [] {
      var s := if files[0].incremental then Nothing else SlotFor(files[0], r);
      KeptIsBounded(files[1..], r.Take(s));
    }
  }

  /** The listed files of a set, in listing order. */
  ghost function Select(files: seq<BackupFile>, left: seq<BackupFile>): (r: seq<BackupFile>)
    ensures forall f :: f in r <==> f in files && Stays(f, left)
  {
    if files == [] then []
    else if Stays(files[0], left) then [files[0]] + Select(files[1..], left)
    else Select(files[1..], left)
  }

  lemma {:induction false} SelectOrdered(files: seq<BackupFile>, left: seq<BackupFile>)
    requires Ordered(files)
    ensures Ordered(Select(files, left))
    ensures IncrementalSize(Select(files, left)) == IncrementalSize(files)
  {
    hide Before;
    if files != [] {
      var rest := Select(files[1..], left);
      SelectOrdered(files[1..], left);
      forall j | 0 <= j < |rest| ensures Before(files[0], rest[j]) {
        assert rest[j] in files[1..];
      }
      if Stays(files[0], left) {
        assert Select(files, left)[1..] == rest;
      }
    }
  }

  /** Running the count pass on its own output keeps all of it. */
  lemma {:induction false} SelectKept(files: seq<BackupFile>, r: Room, left: seq<BackupFile>, all: seq<BackupFile>)
    requires DistinctNames(files) && left <= Kept(files, r)
    requires forall f :: f in files && !f.incremental ==> (f in all <==> f in left)
    ensures Kept(Select(files, all), r) == left
  {
    hide SlotFor;
    if files != [] {
      var f, rest := files[0], files[1..];
      var s := if f.incremental then Nothing else SlotFor(f, r);
      KeptAreListed(rest, r.Take(s));
      assert f !in rest && DistinctNames(rest);
      hide DistinctNames;
      if f.incremental {
        SelectKept(rest, r, left, all);
        assert Select(files, all)[1..] == Select(rest, all);
      } else if s == Nothing {
        assert f !in left;
        SelectKept(rest, r, left, all);
      } else if left == [] {
        SelectKept(rest, r, left, all);
      } else {
        assert left[0] == f && left[1..] <= Kept(rest, r.Take(s));
        assert forall g :: g in rest ==> (g in left <==> g in left[1..]);
        SelectKept(rest, r.Take(s), left[1..], all);
        assert Select(files, all)[1..] == Select(rest, all);
        assert left == [f] + left[1..];
      }
    }
  }

  lemma FitIsFixed(kept: seq<BackupFile>, base: nat, cap: int)
    ensures Fit(Fit(kept, base, cap), base, cap) == Fit(kept, base, cap)
  {
  }

  /** Pruning a pruned directory removes nothing. */
  lemma PruneIsIdempotent(d: Dir, p: Policy)
    ensures Pruned(Pruned(d, p), p) == Pruned(d, p)
  {
    var l, e := Listing(d), Pruned(d, p);
    var q := NormalizeRetention(p);
    var kept := Kept(l, RoomOf(q));
    var left := Survivors(l, p);
    KeptAreListed(l, RoomOf(q));
    ListingNames(d);
    SelectOrdered(l, left);
    assert Listing(e) == Select(l, left) by {
      hide Before;
      hide Survivors;
      hide Kept;
      forall f ensures f in Listing(e) <==> f in Select(l, left) {
        assert f in l <==> f.name in d && d[f.name] == f;
      }
      OrderedUnique(Listing(e), Select(l, left));
    }
    SelectKept(l, RoomOf(q), left, left);
    FitIsFixed(kept, IncrementalSize(l), q.maxTotalSize);
    assert Survivors(Listing(e), p) == left;
  }
}
