/** Document numbering: any number of issuers run the read / insert /
    compare-and-set loop against one counter row per scope, interleaved
    statement by statement. */
module DocumentNumbers {
  import opened Decimal

  const MAX_ATTEMPTS: nat := 8

  datatype Pc =
    | Reading                // SELECT next_value
    | Inserting              // INSERT (scope, 1)
    | Swapping(next: int)    // UPDATE ... WHERE next_value = next
    | Done(number: int)
    | Exhausted              // eight attempts used up
    | Failed                 // a database error

  /** `began` is the scope's counter when the issuer started and `lost` the number
      of swaps it lost; both only record history. */
  datatype Issuer = Issuer(scope: string, prefix: string, attempt: nat, pc: Pc, began: int, lost: nat)

  datatype Allocation = Allocation(scope: string, prefix: string, number: int, issuer: nat)

  datatype State = State(next: map<string, int>, issuers: map<nat, Issuer>, log: seq<Allocation>)

  /** One statement of one issuer, or a new issuer arriving. */
  datatype Op = Start(id: nat, scope: string, prefix: string) | Execute(id: nat) | Abort(id: nat)

  const EMPTY: State := State(map[], map[], [])

  /** The number the scope will hand out next; a missing row stands for 1. */
  function Counter(s: State, scope: string): int
  {
    if scope in s.next then s.next[scope] else 1
  }

  /** The end of an iteration that did not return. */
  function Retry(p: Issuer): Issuer
  {
    p.(attempt := p.attempt + 1, pc := if p.attempt + 1 < MAX_ATTEMPTS then Reading else Exhausted)
  }

  function With(s: State, id: nat, p: Issuer): State
  {
    s.(issuers := s.issuers[id := p])
  }

  function Read(s: State, id: nat, p: Issuer): State
  {
    With(s, id, p.(pc := if p.scope in s.next then Swapping(s.next[p.scope]) else Inserting))
  }

  /** A row that exists already is left alone; either way the loop goes round. */
  function InsertRow(s: State, id: nat, p: Issuer): State
  {
    With(s, id, Retry(p)).(next := if p.scope in s.next then s.next else s.next[p.scope := 1])
  }

  function Swap(s: State, id: nat, p: Issuer, next: int): State
  {
    if p.scope in s.next && s.next[p.scope] == next then
      With(s, id, p.(pc := Done(next))).(
        next := s.next[p.scope := next + 1],
        log := s.log + [Allocation(p.scope, p.prefix, next, id)])
    else
      With(s, id, Retry(p).(lost := p.lost + 1))
  }

  function Statement(s: State, id: nat, p: Issuer): State
  {
    match p.pc
    case Reading => Read(s, id, p)
    case Inserting => InsertRow(s, id, p)
    case Swapping(next) => Swap(s, id, p, next)
    case _ => s
  }

  function Step(s: State, op: Op): State
  {
    match op
    case Start(id, scope, prefix) =>
      if id in s.issuers then s else With(s, id, Issuer(scope, prefix, 0, Reading, Counter(s, scope), 0))
    case Execute(id) =>
      if id in s.issuers then Statement(s, id, s.issuers[id]) else s
    case Abort(id) =>
      if id in s.issuers && !s.issuers[id].pc.Done? && !s.issuers[id].pc.Exhausted?
      then With(s, id, s.issuers[id].(pc := Failed)) else s
  }

  /** The state after an interleaving. */
  function Run(ops: seq<Op>): State
  {
    if ops == [] then EMPTY else Step(Run(ops[..|ops| - 1]), ops[|ops| - 1])
  }

  /** An issuer that a database error stops takes no number with it, and does
      nothing any more. */
  lemma AbortStops(s: State, id: nat, op: Op)
    requires id in s.issuers && !s.issuers[id].pc.Done? && !s.issuers[id].pc.Exhausted?
    ensures var d := Step(s, Abort(id));
            && d.next == s.next && d.log == s.log && d.issuers.Keys == s.issuers.Keys
            && (forall k :: k in s.issuers && k != id ==> d.issuers[k] == s.issuers[k])
            && d.issuers[id].pc == Failed
            && id in Step(d, op).issuers && Step(d, op).issuers[id].pc == Failed
            && (op == Execute(id) ==> Step(d, op) == d)
  {
  }

  /** One that has returned, or given up, cannot be stopped any more. */
  lemma ReturnedIsFinal(s: State, id: nat)
    requires id in s.issuers && (s.issuers[id].pc.Done? || s.issuers[id].pc.Exhausted?)
    ensures Step(s, Abort(id)) == s && Step(s, Execute(id)) == s
  {
  }

  // -------------------------------------------------------------- invariants

  /** The numbers handed out in a scope, in order. */
  function Numbers(log: seq<Allocation>, scope: string): seq<int>
  {
    if log == [] then [] else
    var k := |log| - 1;
    Numbers(log[..k], scope) + if log[k].scope == scope then [log[k].number] else []
  }

  /** Every scope has handed out 1, 2, 3, ... up to its counter, in that order. */
  ghost predicate Sequential(s: State)
  {
    forall scope :: |Numbers(s.log, scope)| == Counter(s, scope) - 1 &&
                    forall i :: 0 <= i < |Numbers(s.log, scope)| ==> Numbers(s.log, scope)[i] == i + 1
  }

  /** What one issuer knows of the counter. */
  predicate IssuerOk(s: State, p: Issuer)
  {
    && p.began + p.lost <= Counter(s, p.scope)
    && p.attempt <= p.lost + 1
    && (p.attempt > 0 ==> p.scope in s.next)
    && match p.pc
       case Reading => p.attempt < MAX_ATTEMPTS
       case Inserting => p.attempt == 0
       case Swapping(n) => p.attempt < MAX_ATTEMPTS && p.scope in s.next && p.began + p.lost <= n <= s.next[p.scope]
       case Done(n) => n < Counter(s, p.scope)
       case Exhausted => p.attempt == MAX_ATTEMPTS
       case Failed => true
  }

  predicate IssuersOk(s: State)
  {
    forall id :: id in s.issuers ==> IssuerOk(s, s.issuers[id])
  }

  /** Each allocation belongs to the one issuer that returned it. */
  predicate LogOk(s: State)
  {
    && (forall i, j :: 0 <= i < j < |s.log| ==> s.log[i].issuer != s.log[j].issuer)
    && forall i :: 0 <= i < |s.log| ==>
         && s.log[i].issuer in s.issuers
         && var p := s.issuers[s.log[i].issuer];
            p.pc == Done(s.log[i].number) && p.scope == s.log[i].scope && p.prefix == s.log[i].prefix
  }

  predicate ReturnedOk(s: State)
  {
    forall id :: id in s.issuers && s.issuers[id].pc.Done? ==>
      exists i :: 0 <= i < |s.log| && s.log[i].issuer == id
  }

  ghost predicate Inv(s: State)
  {
    Sequential(s) && IssuersOk(s) && LogOk(s) && ReturnedOk(s)
  }

  lemma NumbersSnoc(log: seq<Allocation>, a: Allocation, scope: string)
    ensures Numbers(log + [a], scope) == Numbers(log, scope) + if a.scope == scope then [a.number] else []
  {
    assert (log + [a])[..|log|] == log;
  }

  /** Counters never go back. */
  ghost predicate Grown(s: State, t: State)
  {
    forall scope :: (scope in s.next ==> scope in t.next) && Counter(s, scope) <= Counter(t, scope)
  }

  /** Replacing one issuer keeps every invariant that does not look at it. */
  lemma Replace(s: State, t: State, id: nat, q: Issuer)
    requires Inv(s) && Grown(s, t) && t.issuers == s.issuers[id := q] && IssuerOk(t, q)
    ensures IssuersOk(t)
  {
    forall k | k in t.issuers ensures IssuerOk(t, t.issuers[k]) {
      if k != id {
        assert IssuerOk(s, s.issuers[k]);
        assert Counter(s, s.issuers[k].scope) <= Counter(t, s.issuers[k].scope);
      }
    }
  }

  /** A statement that allocates nothing and returns nothing. */
  lemma Quiet(s: State, id: nat, q: Issuer, next: map<string, int>)
    requires Inv(s) && !q.pc.Done? && (id in s.issuers ==> !s.issuers[id].pc.Done?)
    requires var t := With(s, id, q).(next := next);
             IssuerOk(t, q) && Grown(s, t) && forall scope :: Counter(t, scope) == Counter(s, scope)
    ensures Inv(With(s, id, q).(next := next))
  {
    var t := With(s, id, q).(next := next);
    Replace(s, t, id, q);
    hide IssuerOk;
    forall k | k in t.issuers && t.issuers[k].pc.Done? ensures exists i :: 0 <= i < |t.log| && t.log[i].issuer == k {
      assert k in s.issuers && s.issuers[k].pc.Done?;
    }
  }

  lemma CounterPositive(s: State, scope: string)
    requires Sequential(s)
    ensures Counter(s, scope) >= 1
  {
    assert |Numbers(s.log, scope)| == Counter(s, scope) - 1;
  }

  lemma InsertKeeps(s: State, id: nat)
    requires Inv(s) && id in s.issuers && s.issuers[id].pc.Inserting?
    ensures Inv(InsertRow(s, id, s.issuers[id]))
  {
    var p := s.issuers[id];
    assert IssuerOk(s, p);
    CounterPositive(s, p.scope);
    Quiet(s, id, Retry(p), if p.scope in s.next then s.next else s.next[p.scope := 1]);
  }

  lemma ReadKeeps(s: State, id: nat)
    requires Inv(s) && id in s.issuers && s.issuers[id].pc.Reading?
    ensures Inv(Read(s, id, s.issuers[id]))
  {
    var p := s.issuers[id];
    assert IssuerOk(s, p);
    Quiet(s, id, p.(pc := if p.scope in s.next then Swapping(s.next[p.scope]) else Inserting), s.next);
  }

  lemma SwapLostKeeps(s: State, id: nat, n: int)
    requires Inv(s) && id in s.issuers && s.issuers[id].pc == Swapping(n)
    requires Counter(s, s.issuers[id].scope) != n
    ensures Inv(Swap(s, id, s.issuers[id], n))
  {
    hide Sequential;
    var p := s.issuers[id];
    assert IssuerOk(s, p);
    hide IssuersOk;
    Quiet(s, id, Retry(p).(lost := p.lost + 1), s.next);
  }

  lemma SwapWonSequential(s: State, id: nat, p: Issuer, n: int)
    requires Sequential(s) && p.scope in s.next && s.next[p.scope] == n
    ensures Sequential(Swap(s, id, p, n))
  {
    var t := Swap(s, id, p, n);
    var a := Allocation(p.scope, p.prefix, n, id);
    forall scope ensures |Numbers(t.log, scope)| == Counter(t, scope) - 1
      ensures forall i :: 0 <= i < |Numbers(t.log, scope)| ==> Numbers(t.log, scope)[i] == i + 1
    {
      assert |Numbers(s.log, scope)| == Counter(s, scope) - 1;
      NumbersSnoc(s.log, a, scope);
      hide Numbers;
    }
  }

  lemma SwapWonLog(s: State, id: nat, p: Issuer, n: int)
    requires LogOk(s) && ReturnedOk(s) && id in s.issuers && s.issuers[id] == p && p.pc.Swapping?
    requires p.scope in s.next && s.next[p.scope] == n
    ensures LogOk(Swap(s, id, p, n)) && ReturnedOk(Swap(s, id, p, n))
  {
    var t := Swap(s, id, p, n);
    assert forall i :: 0 <= i < |s.log| ==> s.log[i].issuer != id;
    forall k | k in t.issuers && t.issuers[k].pc.Done? ensures exists i :: 0 <= i < |t.log| && t.log[i].issuer == k {
      if k == id {
        assert t.log[|s.log|].issuer == k;
      } else {
        var i :| 0 <= i < |s.log| && s.log[i].issuer == k;
        assert t.log[i].issuer == k;
      }
    }
  }

  lemma SwapWonKeeps(s: State, id: nat, n: int)
    requires Inv(s) && id in s.issuers && s.issuers[id].pc == Swapping(n)
    requires Counter(s, s.issuers[id].scope) == n
    ensures Inv(Swap(s, id, s.issuers[id], n))
  {
    var p := s.issuers[id];
    assert IssuerOk(s, p);
    Replace(s, Swap(s, id, p, n), id, p.(pc := Done(n)));
    SwapWonSequential(s, id, p, n);
    SwapWonLog(s, id, p, n);
  }

  lemma StepKeeps(s: State, op: Op)
    requires Inv(s)
    ensures Inv(Step(s, op))
  {
    match op
    case Start(id, scope, prefix) =>
      if id !in s.issuers {
        Quiet(s, id, Issuer(scope, prefix, 0, Reading, Counter(s, scope), 0), s.next);
      }
    case Abort(id) =>
      if id in s.issuers && !s.issuers[id].pc.Done? && !s.issuers[id].pc.Exhausted? {
        assert IssuerOk(s, s.issuers[id]);
        Quiet(s, id, s.issuers[id].(pc := Failed), s.next);
      }
    case Execute(id) =>
      hide Inv;
      if id in s.issuers {
        match s.issuers[id].pc
        case Reading => ReadKeeps(s, id);
        case Inserting => InsertKeeps(s, id);
        case Swapping(n) =>
          if Counter(s, s.issuers[id].scope) == n {
            SwapWonKeeps(s, id, n);
          } else {
            SwapLostKeeps(s, id, n);
          }
        case _ =>
      }
  }

  /** The invariants hold after every interleaving of any number of issuers. */
  lemma {:induction false} RunInvariant(ops: seq<Op>)
    ensures Inv(Run(ops))
  {
    if ops == [] {
      forall scope ensures |Numbers(EMPTY.log, scope)| == Counter(EMPTY, scope) - 1 {
      }
    } else {
      RunInvariant(ops[..|ops| - 1]);
      StepKeeps(Run(ops[..|ops| - 1]), ops[|ops| - 1]);
    }
  }

  // ---------------------------------------------------------------- theorems

  function Document(a: Allocation): string
    requires a.number >= 0
  {
    a.prefix + Padded(a.number, 6)
  }

  lemma {:induction false} NumberAt(log: seq<Allocation>, i: nat) returns (k: nat)
    requires i < |log|
    ensures k < |Numbers(log, log[i].scope)| && Numbers(log, log[i].scope)[k] == log[i].number
    ensures k == |Numbers(log[..i], log[i].scope)|
  {
    var n := |log| - 1;
    if i == n {
      k := |Numbers(log[..n], log[i].scope)|;
    } else {
      k := NumberAt(log[..n], i);
      assert log[..n][..i] == log[..i];
    }
  }

  lemma {:induction false} NumbersGrow(log: seq<Allocation>, i: nat, j: nat, scope: string)
    requires i <= j <= |log|
    ensures |Numbers(log[..i], scope)| <= |Numbers(log[..j], scope)|
    ensures i < j && log[i].scope == scope ==> |Numbers(log[..i], scope)| < |Numbers(log[..j], scope)|
    decreases j
  {
    if i < j {
      NumbersGrow(log, i, j - 1, scope);
      assert log[..j][..j - 1] == log[..j - 1];
    }
  }

  /** Numbers of a scope are pairwise distinct and are exactly 1 up to the
      counter; under one prefix the printed documents differ as well. */
  lemma NumbersAreUnique(ops: seq<Op>, i: nat, j: nat)
    requires i < j < |Run(ops).log| && Run(ops).log[i].scope == Run(ops).log[j].scope
    ensures var a, b := Run(ops).log[i], Run(ops).log[j];
            && 1 <= a.number < b.number < Counter(Run(ops), a.scope)
            && (a.prefix == b.prefix ==> Document(a) != Document(b))
  {
    var s := Run(ops);
    var a, b := s.log[i], s.log[j];
    RunInvariant(ops);
    var m := NumberAt(s.log, i);
    var n := NumberAt(s.log, j);
    NumbersGrow(s.log, i, j, a.scope);
    assert |Numbers(s.log, a.scope)| == Counter(s, a.scope) - 1;
    if a.prefix == b.prefix && Document(a) == Document(b) {
      assert Document(a)[|a.prefix|..] == Padded(a.number, 6);
      assert Document(b)[|b.prefix|..] == Padded(b.number, 6);
      PaddedInjective(a.number, b.number, 6);
    }
  }

  /** Conversely, no number below the counter has been skipped. */
  lemma NoNumberIsSkipped(ops: seq<Op>, scope: string, n: int)
    requires 1 <= n < Counter(Run(ops), scope)
    ensures exists i :: 0 <= i < |Run(ops).log| && Run(ops).log[i].scope == scope && Run(ops).log[i].number == n
  {
    var s := Run(ops);
    RunInvariant(ops);
    assert |Numbers(s.log, scope)| == Counter(s, scope) - 1;
    assert Numbers(s.log, scope)[n - 1] == n;
    var i := Allocated(s.log, scope, n - 1);
  }

  lemma {:induction false} Allocated(log: seq<Allocation>, scope: string, k: nat) returns (i: nat)
    requires k < |Numbers(log, scope)|
    ensures i < |log| && log[i].scope == scope && log[i].number == Numbers(log, scope)[k]
  {
    var n := |log| - 1;
    if k < |Numbers(log[..n], scope)| {
      i := Allocated(log[..n], scope, k);
    } else {
      i := n;
    }
  }

  /** An issuer that gives up after eight attempts was overtaken at least seven
      times: without contention the loop always succeeds. */
  lemma GivingUpMeansContention(ops: seq<Op>, id: nat)
    requires id in Run(ops).issuers && Run(ops).issuers[id].pc.Exhausted?
    ensures var p := Run(ops).issuers[id];
            |Numbers(Run(ops).log, p.scope)| >= p.began - 1 + 7
  {
    var s := Run(ops);
    var p := s.issuers[id];
    RunInvariant(ops);
    assert IssuerOk(s, p);
    assert |Numbers(s.log, p.scope)| == Counter(s, p.scope) - 1;
  }

  // ---------------------------------------------------------------- prefixes

  /** `p` is `q` followed by digits that do not begin with a zero. */
  predicate Longer(p: string, q: string)
  {
    |p| > |q| && p[..|q|] == q && AllDigits(p[|q|..]) && p[|q|] != '0'
  }

  /** Some pair of numbers prints alike under the two prefixes. */
  predicate Ambiguous(p: string, q: string)
  {
    Longer(p, q) || Longer(q, p)
  }

  lemma LongPrefix(p: string, q: string, m: nat, n: nat)
    requires |p| > |q| && n > 0 && p + Padded(m, 6) == q + Padded(n, 6)
    ensures Longer(p, q)
  {
    var whole, tail, z := q + Padded(n, 6), Padded(n, 6), p[|q|..];
    assert whole[..|p|] == p && whole[..|q|] == q && p[..|q|] == q;
    assert tail == whole[|q|..] && |tail| == |z| + |Padded(m, 6)|;
    assert z == tail[..|z|];
    assert forall i :: 0 <= i < |z| ==> z[i] == tail[i];
    DigitsLead(n);
    assert |Digits(n)| > 6;
    assert tail == Digits(n);
  }

  /** Two different numbers print alike only under ambiguous prefixes. */
  lemma AlikeOnlyIfAmbiguous(p: string, q: string, m: nat, n: nat)
    requires m > 0 && n > 0 && m != n && p + Padded(m, 6) == q + Padded(n, 6)
    ensures Ambiguous(p, q)
  {
    if |p| > |q| {
      LongPrefix(p, q, m, n);
    } else if |q| > |p| {
      LongPrefix(q, p, n, m);
    } else {
      assert (p + Padded(m, 6))[|p|..] == Padded(m, 6) && (q + Padded(n, 6))[|q|..] == Padded(n, 6);
      PaddedInjective(m, n, 6);
    }
  }

  /** Under the longer prefix every number prints like another under the other. */
  lemma AlikeIfLonger(p: string, q: string, m: nat) returns (n: nat)
    requires Longer(p, q)
    ensures n > 0 && n != m && p + Padded(m, 6) == q + Padded(n, 6)
  {
    hide Padded;
    hide Digits;
    hide Value;
    var z, pad := p[|q|..], Padded(m, 6);
    var s := z + pad;
    assert AllDigits(s);
    DigitsValue(s);
    n := Value(s);
    PaddedLong(n, s);
    assert p == q + z;
    assert q + z + pad == q + s;
  }

  lemma PaddedLong(n: nat, s: string)
    requires Digits(n) == s && |s| > 6
    ensures Padded(n, 6) == s
  {
    hide Digits;
    assert Zeros(6, |s|) == [];
  }

  lemma RunThen(ops: seq<Op>, op: Op)
    ensures Run(ops + [op]) == Step(Run(ops), op)
  {
    assert (ops + [op])[..|ops|] == ops;
  }

  lemma RunThree(ops: seq<Op>, a: Op, b: Op, c: Op)
    ensures Run(ops + [a, b, c]) == Step(Step(Step(Run(ops), a), b), c)
  {
    hide Step;
    RunThen(ops, a);
    RunThen(ops + [a], b);
    RunThen(ops + [a] + [b], c);
    assert ops + [a] + [b] + [c] == ops + [a, b, c];
  }

  /** An issuer alone at an existing row takes the next number. */
  lemma IssueOne(s: State, id: nat, scope: string, prefix: string)
    requires id !in s.issuers && scope in s.next
    ensures var t := Step(Step(Step(s, Start(id, scope, prefix)), Execute(id)), Execute(id));
            && t.log == s.log + [Allocation(scope, prefix, s.next[scope], id)]
            && t.next == s.next[scope := s.next[scope] + 1]
            && t.issuers.Keys == s.issuers.Keys + {id}
  {
  }

  /** Abandoned before it read again, an issuer has only created the row. */
  lemma CreateRow(scope: string)
    ensures var t := Step(Step(Step(EMPTY, Start(0, scope, "")), Execute(0)), Execute(0));
            t.log == [] && t.next == map[scope := 1] && t.issuers.Keys == {0}
  {
  }

  /** Whatever prefixes are in force one after the other, some run hands out the
      numbers 1, 2, 3, ... under them. */
  lemma {:induction false} PrefixesInTurn(scope: string, prefixes: seq<string>) returns (ops: seq<Op>)
    ensures var s := Run(ops);
            && |s.log| == |prefixes| && s.next == map[scope := |prefixes| + 1]
            && (forall id :: id in s.issuers ==> id <= |prefixes|)
            && (forall k :: 0 <= k < |prefixes| ==> s.log[k] == Allocation(scope, prefixes[k], k + 1, k + 1))
  {
    if prefixes == [] {
      assert Run([]) == EMPTY;
      CreateRow(scope);
      hide Step;
      ops := [] + [Start(0, scope, ""), Execute(0), Execute(0)];
      RunThree([], Start(0, scope, ""), Execute(0), Execute(0));
      hide Run;
    } else {
      hide Run;
      hide Step;
      var k := |prefixes| - 1;
      ops := PrefixesInTurn(scope, prefixes[..k]);
      var s, id, p := Run(ops), k + 1, prefixes[k];
      RunThree(ops, Start(id, scope, p), Execute(id), Execute(id));
      IssueOne(s, id, scope, p);
      ops := ops + [Start(id, scope, p), Execute(id), Execute(id)];
      assert map[scope := |prefixes|][scope := |prefixes| + 1] == map[scope := |prefixes| + 1];
    }
  }

  /** Two allocations of one scope, under `p` and `q`, print alike. */
  ghost predicate Collide(s: State, i: nat, j: nat, p: string, q: string)
  {
    && i < |s.log| && j < |s.log| && i != j
    && s.log[i].scope == s.log[j].scope && s.log[i].prefix == p && s.log[j].prefix == q
    && s.log[i].number >= 0 && s.log[j].number >= 0
    && Document(s.log[i]) == Document(s.log[j])
  }

  lemma CollisionReached(p: string, q: string) returns (ops: seq<Op>, i: nat, j: nat)
    requires Longer(p, q)
    ensures Collide(Run(ops), i, j, p, q)
  {
    var m: nat := 1;
    var n := AlikeIfLonger(p, q, m);
    i, j := 0, n - 1;
    ops := PrefixesInTurn("invoice", seq(n, k => if k == 0 then p else q));
    hide Run;
    hide Padded;
  }

  /** A change of prefix can make two documents of one scope print alike, in some
      run, if and only if one prefix is the other followed by digits that do not
      begin with a zero. */
  lemma PrefixesCollideIff(p: string, q: string)
    ensures (exists ops, i: nat, j: nat :: Collide(Run(ops), i, j, p, q)) <==> Ambiguous(p, q)
  {
    if Longer(p, q) {
      var ops, i, j := CollisionReached(p, q);
    } else if Longer(q, p) {
      var ops, i, j := CollisionReached(q, p);
      assert Collide(Run(ops), j, i, p, q);
    }
    forall ops, i: nat, j: nat | Collide(Run(ops), i, j, p, q) ensures Ambiguous(p, q) {
      NumbersAreUnique(ops, if i < j then i else j, if i < j then j else i);
      hide Run;
      AlikeOnlyIfAmbiguous(p, q, Run(ops).log[i].number, Run(ops).log[j].number);
    }
  }
}
