/** The retry schedule for unpaid invoices: how its setting is read, when a retry
    is owed, and which retries fire over a run. */
module Dunning {
  import opened Attempts
  import opened Text
  import opened Decimal
  import opened Money
  import opened Invoices
  import opened Ledger
  import opened BillingService

  const SECONDS_PER_DAY := 86400

  // ---------------------------------------------------------------- day list

  /** `strconv.ParseInt(s, 10, 64)`. */
  function ParseInt(s: string): (r: Option<int>)
    ensures r.Some? ==> MIN64 <= r.value <= MAX64
  {
    if s == "" then None else
    var signed := s[0] == '-' || s[0] == '+';
    var digits := if signed then s[1..] else s;
    if digits == "" || !AllDigits(digits) then None
    else if s[0] == '-' then if Value(digits) > MAX64 + 1 then None else Some(0 - Value(digits))
    else if Value(digits) > MAX64 then None else Some(Value(digits))
  }

  /** The texts that read as a number: digits, with a sign or without, whose value
      fits 64 bits. */
  lemma ParseIntReads(s: string, n: int)
    ensures ParseInt(s) == Some(n) <==>
              exists digits :: digits != "" && AllDigits(digits) &&
                (((s == digits || s == "+" + digits) && n == Value(digits) && n <= 0x7FFF_FFFF_FFFF_FFFF) ||
                 (s == "-" + digits && n == 0 - Value(digits) && n >= -0x8000_0000_0000_0000))
  {
    hide Value;
    if ParseInt(s) == Some(n) {
      var digits := if s[0] == '-' || s[0] == '+' then s[1..] else s;
      assert s == [s[0]] + s[1..];
      assert digits != "" && AllDigits(digits);
    }
    if digits :| digits != "" && AllDigits(digits) &&
                 (((s == digits || s == "+" + digits) && n == Value(digits) && n <= 0x7FFF_FFFF_FFFF_FFFF) ||
                  (s == "-" + digits && n == 0 - Value(digits) && n >= -0x8000_0000_0000_0000)) {
      assert s != digits ==> s[1..] == digits;
      assert '0' <= digits[0] <= '9';
    }
  }

  predicate Reads(part: string, n: int)
  {
    ParseInt(TrimSpace(part)) == Some(n)
  }

  predicate Increasing(days: seq<int>)
  {
    forall i, j :: 0 <= i < j < |days| ==> days[i] < days[j]
  }

  /** The days a setting means: those it lists that are positive, each once, in
      ascending order. */
  ghost predicate IsDayList(raw: string, days: seq<int>)
  {
    && Increasing(days)
    && forall n :: n in days <==> n > 0 && Listed(Split(raw, ','), n)
  }

  predicate Listed(parts: seq<string>, n: int)
  {
    exists k :: 0 <= k < |parts| && Reads(parts[k], n)
  }

  method Insert(days: seq<int>, n: int) returns (out: seq<int>)
    requires Increasing(days) && n !in days
    ensures Increasing(out) && forall m :: m in out <==> m in days || m == n
  {
    for i := 0 to |days|
      invariant forall j :: 0 <= j < i ==> days[j] < n
    {
      if n < days[i] {
        out := days[..i] + [n] + days[i..];
        forall m ensures m in out <==> m in days || m == n {
          assert days == days[..i] + days[i..];
        }
        return;
      }
      assert days[i] != n;
    }
    out := days + [n];
  }

  method ParseDayList(raw: string) returns (days: seq<int>)
    ensures IsDayList(raw, days)
  {
    var parts := Split(raw, ',');
    var seen: set<int> := {};
    days := [];
    for k := 0 to |parts|
      invariant Increasing(days)
      invariant forall n :: n in seen <==> n in days
      invariant forall n :: n in days <==> n > 0 && Listed(parts[..k], n)
    {
      var n := ParseInt(TrimSpace(parts[k]));
      ListedSnoc(parts, k);
      hide Listed;
      if n.Some? && n.value > 0 && n.value !in seen {
        seen := seen + {n.value};
        days := Insert(days, n.value);
      }
    }
    assert parts[..|parts|] == parts;
  }

  lemma ListedSnoc(parts: seq<string>, k: nat)
    requires k < |parts|
    ensures forall n :: Listed(parts[..k + 1], n) <==> Listed(parts[..k], n) || Reads(parts[k], n)
  {
    hide Reads;
    forall n ensures Listed(parts[..k + 1], n) <==> Listed(parts[..k], n) || Reads(parts[k], n) {
      if Listed(parts[..k], n) {
        var i :| 0 <= i < k && Reads(parts[..k][i], n);
        assert Reads(parts[..k + 1][i], n);
      }
      if Reads(parts[k], n) {
        assert Reads(parts[..k + 1][k], n);
      }
      if Listed(parts[..k + 1], n) {
        var i :| 0 <= i < k + 1 && Reads(parts[..k + 1][i], n);
        assert i < k ==> Reads(parts[..k][i], n);
      }
    }
  }

  lemma LastIsLargest(a: seq<int>)
    requires Increasing(a) && a != []
    ensures forall n :: n in a ==> n <= a[|a| - 1]
    ensures forall n :: n in a[..|a| - 1] <==> n in a && n != a[|a| - 1]
  {
    assert a == a[..|a| - 1] + [a[|a| - 1]];
  }

  /** An ascending list is determined by its members. */
  lemma {:induction false} IncreasingUnique(a: seq<int>, b: seq<int>)
    requires Increasing(a) && Increasing(b) && forall n :: n in a <==> n in b
    ensures a == b
  {
    assert |a| > 0 ==> a[0] in a && a[0] in b;
    assert |b| > 0 ==> b[0] in b && b[0] in a;
    if a != [] && b != [] {
      LastIsLargest(a);
      LastIsLargest(b);
      var a0, b0 := a[..|a| - 1], b[..|b| - 1];
      assert Increasing(a0) && Increasing(b0);
      hide Increasing;
      assert a[|a| - 1] in a && b[|b| - 1] in b;
      assert a[|a| - 1] == b[|b| - 1];
      forall n ensures n in a0 <==> n in b0 {
        assert n in a0 <==> n in a && n != a[|a| - 1];
        assert n in b0 <==> n in b && n != b[|b| - 1];
      }
      IncreasingUnique(a0, b0);
      assert a == a0 + [a[|a| - 1]] && b == b0 + [b[|b| - 1]];
    }
  }

  /** A setting has exactly one reading. */
  lemma DayListUnique(raw: string, a: seq<int>, b: seq<int>)
    requires IsDayList(raw, a) && IsDayList(raw, b)
    ensures a == b
  {
    IncreasingUnique(a, b);
  }

  function Written(days: seq<int>): seq<string>
  {
    seq(|days|, k requires 0 <= k < |days| => Print(days[k]))
  }

  lemma ParsePrint(n: int)
    requires 0 < n <= MAX64
    ensures ParseInt(TrimSpace(Print(n))) == Some(n)
    ensures ',' !in Print(n)
  {
    var s := Digits(n);
    assert AllDigits(s);
    ValueDigits(n);
    assert !IsSpace(s[0]) && !IsSpace(s[|s| - 1]);
    assert s[0] != '-' && s[0] != '+';
    assert forall k :: 0 <= k < |s| ==> s[k] != ',';
  }

  lemma WrittenReads(days: seq<int>, k: nat)
    requires k < |days| && 0 < days[k] <= MAX64
    ensures Reads(Written(days)[k], days[k]) && ',' !in Written(days)[k]
  {
    ParsePrint(days[k]);
    hide Print;
  }

  lemma ReadsUnique(part: string, m: int, n: int)
    requires Reads(part, m) && Reads(part, n)
    ensures m == n
  {
    hide ParseInt;
    hide TrimSpace;
  }

  /** A list read position by position lists exactly its days. */
  lemma ListedWritten(parts: seq<string>, days: seq<int>, n: int)
    requires |parts| == |days| && forall k :: 0 <= k < |days| ==> Reads(parts[k], days[k])
    ensures Listed(parts, n) <==> n in days
  {
    hide Reads;
    if Listed(parts, n) {
      var k :| 0 <= k < |parts| && Reads(parts[k], n);
      ReadsUnique(parts[k], n, days[k]);
    }
    if n in days {
      var k :| 0 <= k < |days| && days[k] == n;
      assert Reads(parts[k], n);
    }
  }

  /** Writing out a schedule and reading it back gives the same schedule. */
  lemma DayListRoundTrip(days: seq<int>)
    requires days != [] && Increasing(days) && forall n :: n in days ==> 0 < n <= MAX64
    ensures IsDayList(Join(Written(days), ','), days)
  {
    hide Reads;
    hide Listed;
    hide Split;
    hide Join;
    hide Print;
    hide Increasing;
    var parts := Written(days);
    forall k | 0 <= k < |parts| ensures Reads(parts[k], days[k]) && ',' !in parts[k] {
      assert days[k] in days;
      WrittenReads(days, k);
    }
    hide Written;
    SplitJoin(parts, ',');
    forall n ensures n in days <==> n > 0 && Listed(parts, n) {
      ListedWritten(parts, days, n);
    }
  }

  // ------------------------------------------------------------ retry offset

  /** The retry owed now: the first one not yet used up by an attempt, once its
      day has come. */
  function DueOffset(schedule: seq<int>, dueAt: int, now: int, attempts: nat): Option<int>
  {
    if dueAt > 0 && now >= dueAt && attempts < |schedule| && (now - dueAt) / SECONDS_PER_DAY >= schedule[attempts]
    then Some(schedule[attempts]) else None
  }

  method DueRetryOffset(schedule: seq<int>, dueAt: int, now: int, attempts: nat) returns (r: Option<int>)
    ensures r == DueOffset(schedule, dueAt, now, attempts)
  {
    if dueAt <= 0 || now < dueAt {
      return None;
    }
    var elapsed := (now - dueAt) / SECONDS_PER_DAY;
    for index := 0 to |schedule|
      invariant index <= attempts
    {
      if index < attempts {
        continue;
      }
      if elapsed >= schedule[index] {
        return Some(schedule[index]);
      }
      return None;
    }
    return None;
  }

  // ------------------------------------------------------------------ passes

  /** When each invoice falls due, and on which days it is retried. */
  datatype Plan = Plan(schedule: seq<int>, dueAt: nat -> int)

  function DunningKey(id: nat, offset: int): string
  {
    "dunning:" + Print(id) + ":" + Print(offset)
  }

  /** One invoice in one pass. */
  function Retry(b: Books, plan: Plan, tenant: string, id: nat, now: int, c: Charging): Books
  {
    match Lookup(b, tenant, id)
    case None => b
    case Some(i) =>
      var offset := DueOffset(plan.schedule, plan.dueAt(id), now, |i.attempts|);
      if BalanceDue(i) <= 0 || offset.None? then b
      else ChargeInvoice(b, tenant, id, c.(key := DunningKey(id, offset.value))).0
  }

  datatype Open = Open(tenant: string, id: nat)

  function Retries(b: Books, plan: Plan, open: seq<Open>, now: int, c: Charging): Books
    decreases |open|
  {
    if open == [] then b
    else Retries(Retry(b, plan, open[0].tenant, open[0].id, now, c), plan, open[1..], now, c)
  }

  /** `RunDunning`, as far as it touches the ledger. */
  method RunDunning(s: Service, plan: Plan, open: seq<Open>, now: int, c: Charging)
    modifies s
    ensures s.State() == Retries(old(s.State()), plan, open, now, c)
  {
    hide DunningKey;
    for k := 0 to |open|
      invariant Retries(s.State(), plan, open[k..], now, c) == Retries(old(s.State()), plan, open, now, c)
    {
      assert open[k..][1..] == open[k + 1..];
      var tenant, id := open[k].tenant, open[k].id;
      if id in s.invoices && s.invoices[id].tenant == tenant && BalanceDue(s.invoices[id]) > 0 {
        var offset := DueRetryOffset(plan.schedule, plan.dueAt(id), now, |s.invoices[id].attempts|);
        if offset.Some? {
          var r := s.ChargeInvoice(tenant, id, c.(key := DunningKey(id, offset.value)));
        }
      }
    }
  }

  /** A retry that put at least one attempt on the books, by its place in the
      schedule. */
  datatype Fired = Fired(id: nat, index: nat)

  datatype Event =
    | Other(op: Op)
    | Pass(tenant: string, id: nat, now: int, charging: Charging)

  datatype Trace = Trace(books: Books, log: seq<Fired>)

  function Tries(b: Books, id: nat): nat
  {
    if id in b.invoices then |b.invoices[id].attempts| else 0
  }

  function Step(t: Trace, plan: Plan, e: Event): Trace
  {
    match e
    case Other(op) => Trace(Apply(t.books, op).0, t.log)
    case Pass(tenant, id, now, c) =>
      var d := Retry(t.books, plan, tenant, id, now, c);
      Trace(d, if Tries(d, id) > Tries(t.books, id) then t.log + [Fired(id, Tries(t.books, id))] else t.log)
  }

  function Play(plan: Plan, events: seq<Event>): Trace
  {
    if events == [] then Trace(EMPTY, []) else Step(Play(plan, events[..|events| - 1]), plan, events[|events| - 1])
  }

  predicate LogOk(t: Trace, plan: Plan)
  {
    && (forall k :: 0 <= k < |t.log| ==> t.log[k].index < |plan.schedule| && t.log[k].index < Tries(t.books, t.log[k].id))
    && (forall j, k :: 0 <= j < k < |t.log| && t.log[j].id == t.log[k].id ==> t.log[j].index < t.log[k].index)
  }

  lemma RetryKeeps(b: Books, plan: Plan, tenant: string, id: nat, now: int, c: Charging)
    requires Inv(b)
    ensures var d := Retry(b, plan, tenant, id, now, c);
            Inv(d) && Extends(b, d) && (Tries(d, id) > Tries(b, id) ==> Tries(b, id) < |plan.schedule|)
  {
    hide Inv;
    hide Extends;
    hide ChargeInvoice;
    hide DunningKey;
    Same(b);
    if Lookup(b, tenant, id).Some? {
      var offset := DueOffset(plan.schedule, plan.dueAt(id), now, |b.invoices[id].attempts|);
      if offset.Some? {
        ChargeKeeps(b, tenant, id, c.(key := DunningKey(id, offset.value)));
      }
    }
  }

  /** A retry that records an attempt is never early, and never for an invoice
      that is paid. */
  lemma NoRetryBeforeItsDay(b: Books, plan: Plan, tenant: string, id: nat, now: int, c: Charging)
    requires Tries(Retry(b, plan, tenant, id, now, c), id) > Tries(b, id)
    ensures id in b.invoices && BalanceDue(b.invoices[id]) > 0
    ensures Tries(b, id) < |plan.schedule|
    ensures plan.dueAt(id) > 0 && now >= plan.dueAt(id) + SECONDS_PER_DAY * plan.schedule[Tries(b, id)] && now >= plan.dueAt(id)
  {
    hide ChargeInvoice;
    hide DunningKey;
    var offset := DueOffset(plan.schedule, plan.dueAt(id), now, Tries(b, id));
    assert offset.Some?;
  }

  lemma TriesGrow(b: Books, d: Books, id: nat)
    requires Extends(b, d)
    ensures Tries(b, id) <= Tries(d, id)
  {
  }

  lemma StepKeeps(t: Trace, plan: Plan, e: Event)
    requires Inv(t.books) && LogOk(t, plan)
    ensures Inv(Step(t, plan, e).books) && LogOk(Step(t, plan, e), plan)
  {
    hide Inv;
    hide Extends;
    hide Retry;
    hide Apply;
    match e {
      case Other(op) => ApplyKeeps(t.books, op);
      case Pass(tenant, id, now, c) => RetryKeeps(t.books, plan, tenant, id, now, c);
    }
    forall k ensures Tries(t.books, k) <= Tries(Step(t, plan, e).books, k) {
      TriesGrow(t.books, Step(t, plan, e).books, k);
    }
    hide Tries;
  }

  lemma {:induction false} PlayKeeps(plan: Plan, events: seq<Event>)
    ensures Inv(Play(plan, events).books) && LogOk(Play(plan, events), plan)
  {
    if events == [] {
      RunInvariant([]);
    } else {
      hide Inv;
      hide Step;
      PlayKeeps(plan, events[..|events| - 1]);
      StepKeeps(Play(plan, events[..|events| - 1]), plan, events[|events| - 1]);
    }
  }

  /** Over every run of passes and other billing work, the retries of an invoice
      that record an attempt come at strictly increasing offsets, so each offset
      fires at most once. */
  lemma OffsetsFireInOrder(plan: Plan, events: seq<Event>, j: nat, k: nat)
    requires Increasing(plan.schedule)
    requires var log := Play(plan, events).log; j < k < |log| && log[j].id == log[k].id
    ensures var log := Play(plan, events).log;
            && log[j].index < |plan.schedule| && log[k].index < |plan.schedule|
            && plan.schedule[log[j].index] < plan.schedule[log[k].index]
  {
    PlayKeeps(plan, events);
  }

  /** An attempt made by anything else (a renewal charge, a failover try) uses up
      an offset: once `n` attempts are on the books, no retry at an earlier place
      in the schedule fires any more. */
  lemma {:induction false} UsedOffsetsNeverFire(plan: Plan, events: seq<Event>, m: nat, k: nat)
    requires m < |events|
    requires |Play(plan, events[..m]).log| <= k < |Play(plan, events).log|
    ensures var f := Play(plan, events).log[k]; f.index >= Tries(Play(plan, events[..m]).books, f.id)
    decreases |events|
  {
    hide Inv;
    hide Step;
    var init := events[..|events| - 1];
    assert init[..m] == events[..m];
    assert m == |init| ==> init[..m] == init;
    var t := Play(plan, init);
    StepLog(t, plan, events[|events| - 1]);
    if m < |init| && k < |t.log| {
      UsedOffsetsNeverFire(plan, init, m, k);
    } else {
      TriesOverTime(plan, init, m, Play(plan, events).log[k].id);
    }
  }

  lemma StepLog(t: Trace, plan: Plan, e: Event)
    ensures var d := Step(t, plan, e);
            && t.log <= d.log && |d.log| <= |t.log| + 1
            && (|d.log| > |t.log| ==> d.log[|t.log|].index == Tries(t.books, d.log[|t.log|].id))
  {
    hide Retry;
    hide Apply;
  }

  lemma {:induction false} TriesOverTime(plan: Plan, events: seq<Event>, m: nat, id: nat)
    requires m <= |events|
    ensures Tries(Play(plan, events[..m]).books, id) <= Tries(Play(plan, events).books, id)
    decreases |events|
  {
    hide Inv;
    hide Extends;
    hide Retry;
    hide Apply;
    hide Tries;
    if m == |events| {
      assert events[..m] == events;
    } else {
      var init := events[..|events| - 1];
      assert init[..m] == events[..m];
      TriesOverTime(plan, init, m, id);
      PlayKeeps(plan, init);
      var t, e := Play(plan, init), events[|events| - 1];
      match e
      case Other(op) =>
        ApplyKeeps(t.books, op);
        TriesGrow(t.books, Apply(t.books, op).0, id);
      case Pass(tenant, i, now, c) =>
        RetryKeeps(t.books, plan, tenant, i, now, c);
        TriesGrow(t.books, Retry(t.books, plan, tenant, i, now, c), id);
    }
  }

  // ---------------------------------------------------------- skipped offsets

  function Before(plan: Plan, events: seq<Event>, m: nat): Books
    requires m <= |events|
  {
    Play(plan, events[..m]).books
  }

  /** Event `m` takes the attempt count of the invoice past `n`. */
  predicate Passes(plan: Plan, events: seq<Event>, m: nat, id: nat, n: nat)
    requires m < |events|
  {
    Tries(Before(plan, events, m), id) <= n < Tries(Before(plan, events, m + 1), id)
  }

  lemma BeforeInit(plan: Plan, events: seq<Event>, m: nat)
    requires m < |events|
    ensures Before(plan, events[..|events| - 1], m) == Before(plan, events, m)
  {
    assert events[..|events| - 1][..m] == events[..m];
  }

  /** A count that was passed was passed by some event. */
  lemma {:induction false} PassedBy(plan: Plan, events: seq<Event>, id: nat, n: nat) returns (m: nat)
    requires n < Tries(Play(plan, events).books, id)
    ensures m < |events| && Passes(plan, events, m, id, n)
  {
    var k := |events| - 1;
    assert events[..|events|] == events;
    if n < Tries(Before(plan, events, k), id) {
      m := PassedBy(plan, events[..k], id, n);
      BeforeInit(plan, events, m);
      assert events[..k][..m + 1] == events[..m + 1];
    } else {
      m := k;
    }
  }

  /** ... and by one event only. */
  lemma PassedOnce(plan: Plan, events: seq<Event>, id: nat, n: nat, j: nat, m: nat)
    requires j < m < |events| && Passes(plan, events, j, id, n)
    ensures !Passes(plan, events, m, id, n)
  {
    TriesOverTime(plan, events[..m], j + 1, id);
    assert events[..m][..j + 1] == events[..j + 1];
  }

  lemma {:induction false} LogGrows(plan: Plan, events: seq<Event>, m: nat)
    requires m <= |events|
    ensures Play(plan, events[..m]).log <= Play(plan, events).log
    decreases |events|
  {
    hide Step;
    if m == |events| {
      assert events[..m] == events;
    } else {
      var init := events[..|events| - 1];
      assert init[..m] == events[..m];
      LogGrows(plan, init, m);
      StepLog(Play(plan, init), plan, events[|events| - 1]);
    }
  }

  /** Whatever is in the log was put there by a pass over that invoice. */
  lemma {:induction false} FiredBy(plan: Plan, events: seq<Event>, f: Fired) returns (m: nat)
    requires f in Play(plan, events).log
    ensures m < |events| && Passes(plan, events, m, f.id, f.index)
    ensures events[m].Pass? && events[m].id == f.id && Tries(Before(plan, events, m), f.id) == f.index
  {
    hide Retry;
    hide Apply;
    hide Tries;
    var k := |events| - 1;
    assert events[..|events|] == events;
    if f in Play(plan, events[..k]).log {
      m := FiredBy(plan, events[..k], f);
      BeforeInit(plan, events, m);
      assert events[..k][..m + 1] == events[..m + 1];
    } else {
      m := k;
    }
  }

  lemma PassFires(plan: Plan, events: seq<Event>, m: nat)
    requires m < |events| && events[m].Pass? && Passes(plan, events, m, events[m].id, Tries(Before(plan, events, m), events[m].id))
    ensures Fired(events[m].id, Tries(Before(plan, events, m), events[m].id)) in Play(plan, events).log
  {
    hide Retry;
    hide Apply;
    hide Tries;
    var upto := events[..m + 1];
    assert upto[..m] == events[..m] && upto[m] == events[m];
    var log := Play(plan, upto).log;
    assert log[|log| - 1] == Fired(events[m].id, Tries(Before(plan, events, m), events[m].id));
    hide Step;
    LogGrows(plan, events, m + 1);
  }

  /** An offset fired if and only if the event that took the attempt count past its
      place in the schedule was a pass that began exactly there; any other charge
      skips it. */
  lemma FiredIff(plan: Plan, events: seq<Event>, id: nat, n: nat, m: nat)
    requires m < |events| && Passes(plan, events, m, id, n)
    ensures Fired(id, n) in Play(plan, events).log <==>
              events[m].Pass? && events[m].id == id && Tries(Before(plan, events, m), id) == n
  {
    if Fired(id, n) in Play(plan, events).log {
      var k := FiredBy(plan, events, Fired(id, n));
      hide Play;
      if k < m {
        PassedOnce(plan, events, id, n, k, m);
      } else if m < k {
        PassedOnce(plan, events, id, n, m, k);
      }
    }
    if events[m].Pass? && events[m].id == id && Tries(Before(plan, events, m), id) == n {
      PassFires(plan, events, m);
    }
  }

  // ----------------------------------------------------------------- witness

  function Others(ops: seq<Op>): seq<Event>
  {
    seq(|ops|, k requires 0 <= k < |ops| => Other(ops[k]))
  }

  lemma {:induction false} PlayOthers(plan: Plan, ops: seq<Op>)
    ensures Play(plan, Others(ops)) == Trace(Run(ops), [])
  {
    hide Apply;
    if ops != [] {
      var k := |ops| - 1;
      PlayOthers(plan, ops[..k]);
      assert Others(ops)[..k] == Others(ops[..k]);
    }
  }

  lemma DunningKeyIsText(id: nat, offset: nat)
    ensures TrimSpace(DunningKey(id, offset)) != ""
  {
    var key, tail := DunningKey(id, offset), Print(offset);
    assert key[0] == 'd' && key[|key| - 1] == tail[|tail| - 1];
    assert AllDigits(Digits(offset));
    hide Digits;
  }

  /** Two providers, both with an instrument, both declining. */
  function TwoDeclines(key: string): Charging
  {
    Charging(key, ["o", "p"], [Method("o", true, true), Method("p", true, true)], true, p => Declined)
  }

  lemma DeclinedTwice(b: Books, tenant: string, id: nat, key: string)
    requires b.keys == map[] && !Closed(b, tenant, id, key)
    ensures var d := ChargeInvoice(b, tenant, id, TwoDeclines(key)).0;
            id in d.invoices && |d.invoices[id].attempts| == |b.invoices[id].attempts| + 2
  {
    hide BalanceDue;
    hide TrimSpace;
    hide WithPayment;
    var c, due := TwoDeclines(key), BalanceDue(b.invoices[id]);
    var o, p := Method("o", true, true), Method("p", true, true);
    assert "o" != "p";
    assert FirstMethod([o, p], "o", true) == Some(o);
    assert [o, p][1..] == [p] && FirstMethod([p], "p", true) == Some(p);
    assert FirstMethod([o, p], "p", true) == Some(p);
    hide FirstMethod;
    assert StoredKey(c, 0) == key && |StoredKey(c, 1)| > |key|;
    hide StoredKey;
    var first := ChargeThrough(b, id, c, 0, due);
    var second := ChargeThrough(first, id, c, 1, due);
    assert ChargeFrom(second, id, c, 2, due) == second;
    assert ChargeFrom(first, id, c, 1, due) == second;
    assert ChargeFrom(b, id, c, 0, due) == second;
  }

  const TWO_DAYS := Plan([1, 3], id => SECONDS_PER_DAY)

  /** The invoice is issued; on the third day a pass tries two providers. */
  function TwoTries(): seq<Event>
  {
    Others(IssuedRun()) + [Pass("t", 0, 4 * SECONDS_PER_DAY, TwoDeclines(""))]
  }

  /** On the third day the first offset is owed, through both providers. */
  lemma RetriedTwice(b: Books)
    requires b.keys == map[] && 0 in b.invoices && b.invoices[0].tenant == "t" && b.invoices[0].attempts == []
    requires Frozen(b.invoices[0]) && BalanceDue(b.invoices[0]) > 0
    ensures Tries(Retry(b, TWO_DAYS, "t", 0, 4 * SECONDS_PER_DAY, TwoDeclines("")), 0) == 2
  {
    var offset: nat := 1;
    var key := DunningKey(0, offset);
    DunningKeyIsText(0, offset);
    DeclinedTwice(b, "t", 0, key);
    hide ChargeInvoice;
    hide DunningKey;
    hide BalanceDue;
    assert TWO_DAYS.dueAt(0) == SECONDS_PER_DAY && TWO_DAYS.schedule == [1, 3];
    assert DueOffset([1, 3], SECONDS_PER_DAY, 4 * SECONDS_PER_DAY, 0) == Some(1);
    assert TwoDeclines("").(key := key) == TwoDeclines(key);
  }

  lemma TwoTriesResult()
    ensures var t := Play(TWO_DAYS, TwoTries()); t.log == [Fired(0, 0)] && Tries(t.books, 0) == 2
  {
    var events, pass := Others(IssuedRun()), Pass("t", 0, 4 * SECONDS_PER_DAY, TwoDeclines(""));
    PlayOthers(TWO_DAYS, IssuedRun());
    IssuedRunResult();
    hide IssuedRun;
    hide Run;
    hide Others;
    assert (events + [pass])[..|events|] == events;
    var b := Run(IssuedRun());
    assert BalanceDue(b.invoices[0]) == 100;
    RetriedTwice(b);
    hide Retry;
    hide TwoDeclines;
  }

  /** Once the attempts have used up the schedule, no retry of the invoice fires. */
  lemma NothingLeftToFire(plan: Plan, events: seq<Event>, m: nat, id: nat, k: nat)
    requires m <= |events| && |plan.schedule| <= Tries(Before(plan, events, m), id)
    requires |Play(plan, events[..m]).log| <= k < |Play(plan, events).log|
    ensures Play(plan, events).log[k].id != id
  {
    PlayKeeps(plan, events);
    hide Inv;
    assert events[..|events|] == events;
    UsedOffsetsNeverFire(plan, events, m, k);
  }

  /** One pass that tries two providers fires offset 1 and uses up offset 3, which
      then never fires, whatever happens later. */
  lemma OffsetIsSkipped(more: seq<Event>)
    ensures Fired(0, 0) in Play(TWO_DAYS, TwoTries() + more).log
    ensures Fired(0, 1) !in Play(TWO_DAYS, TwoTries() + more).log
  {
    hide Play;
    hide TwoTries;
    var events, m := TwoTries() + more, |TwoTries()|;
    assert events[..m] == TwoTries();
    TwoTriesResult();
    LogGrows(TWO_DAYS, events, m);
    var log := Play(TWO_DAYS, events).log;
    forall k | 1 <= k < |log| ensures log[k].id != 0 {
      NothingLeftToFire(TWO_DAYS, events, m, 0, k);
    }
    assert log[0] == Fired(0, 0);
  }
}
