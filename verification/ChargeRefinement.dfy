/** A charge whose statements are not interleaved with another's is the ledger's
    charge: the statement protocol refines the sequential operation. */
module ChargeRefinement {
  import opened Attempts
  import opened Invoices
  import opened Ledger
  import P = ChargeProtocol

  /** What a call with these settings reads. */
  function ConfigOf(c: Charging): (r: P.Config)
    ensures |r.enabled| == |c.enabled| && r.failover == c.failover
    ensures forall i :: 0 <= i < |c.enabled| ==>
              r.enabled[i] == P.Provider(c.enabled[i], PickMethod(c.methods, c.enabled[i]).Some?)
  {
    P.Config(
      seq(|c.enabled|, i requires 0 <= i < |c.enabled| =>
        P.Provider(c.enabled[i], PickMethod(c.methods, c.enabled[i]).Some?)),
      c.failover)
  }

  // ---------------------------------------------------------------- matching

  /** The attempt table and the balance say of an invoice what the books say. */
  predicate Shows(s: P.State, id: nat, inv: Invoice)
  {
    && id in s.due && s.due[id] == BalanceDue(inv)
    && forall a :: a in inv.attempts ==> a.key in s.attempts && s.attempts[a.key].state == a.state
  }

  predicate Mirrors(s: P.State, b: Books)
  {
    && s.attempts.Keys == b.keys.Keys
    && s.due.Keys == b.invoices.Keys
    && forall id :: id in b.invoices ==> Shows(s, id, b.invoices[id])
  }

  /** A new attempt of one invoice under a new key keeps the match. */
  lemma AttemptMirrors(s: P.State, b: Books, t: P.State, id: nat, inv: Invoice, a: Attempt)
    requires Mirrors(s, b) && id in b.invoices && a.key !in b.keys
    requires inv.attempts == b.invoices[id].attempts + [a]
    requires exists owner :: t.attempts == s.attempts[a.key := P.Row(owner, a.state)]
    requires t.due == s.due[id := BalanceDue(inv)]
    ensures Mirrors(t, Put(b, id, inv).(keys := b.keys[a.key := id]))
  {
    hide BalanceDue;
    forall k | k in b.invoices && k != id ensures Shows(t, k, b.invoices[k]) {
      assert Shows(s, k, b.invoices[k]);
    }
    assert Shows(s, id, b.invoices[id]);
  }

  // -------------------------------------------------------------- one at a time

  /** The next statement of a call, with what its provider answers. */
  function NextOp(s: P.State, call: nat, c: Charging): P.Op
  {
    if call in s.calls && s.calls[call].pc.Charging? && s.calls[call].pc.index < |c.enabled| then
      P.Execute(call, c.outcomes(c.enabled[s.calls[call].pc.index]))
    else P.Execute(call, Declined)
  }

  /** `n` statements of one call, with none of another in between. */
  function Alone(s: P.State, call: nat, c: Charging, n: nat): P.State
    decreases n
  {
    if n == 0 then s else Alone(P.Step(s, NextOp(s, call, c)), call, c, n - 1)
  }

  lemma {:induction false} AloneAdds(s: P.State, call: nat, c: Charging, m: nat, n: nat)
    ensures Alone(s, call, c, m + n) == Alone(Alone(s, call, c, m), call, c, n)
    decreases m
  {
    if m > 0 {
      hide P.Step;
      AloneAdds(P.Step(s, NextOp(s, call, c)), call, c, m - 1, n);
    }
  }

  /** `call` is a charge of `id` with the settings of `c`. */
  predicate Runs(s: P.State, call: nat, id: nat, c: Charging)
  {
    call in s.calls && s.calls[call].key == c.key && s.calls[call].invoice == id && s.calls[call].config == ConfigOf(c)
  }

  lemma SameKeys(c: Charging, i: nat)
    requires i < |c.enabled|
    ensures P.StoredKey(ConfigOf(c), c.key, i) == StoredKey(c, i)
  {
  }

  /** Where a call stands after provider `i`. */
  function AfterProvider(b: Books, c: Charging, i: nat, amount: int): P.Pc
    requires i < |c.enabled|
  {
    if StoredKey(c, i) !in b.keys && c.outcomes(c.enabled[i]) == Captured then P.Returned
    else P.Next(ConfigOf(c), i, amount)
  }

  lemma OneStatement(s: P.State, call: nat, c: Charging)
    ensures Alone(s, call, c, 1) == P.Step(s, NextOp(s, call, c))
  {
    hide P.Step;
    hide NextOp;
    assert Alone(P.Step(s, NextOp(s, call, c)), call, c, 0) == P.Step(s, NextOp(s, call, c));
  }

  function At(s: P.State, call: nat, pc: P.Pc): map<nat, P.Call>
    requires call in s.calls
  {
    s.calls[call := s.calls[call].(pc := pc)]
  }

  /** Claiming a key that is taken. */
  lemma ClaimTaken(s: P.State, call: nat, id: nat, c: Charging, i: nat, amount: int)
    requires i < |c.enabled| && Runs(s, call, id, c) && s.calls[call].pc == P.Claiming(i, amount)
    requires StoredKey(c, i) in s.attempts
    ensures Alone(s, call, c, 1) == s.(calls := At(s, call, P.Next(ConfigOf(c), i, amount)))
  {
    OneStatement(s, call, c);
    SameKeys(c, i);
    hide P.StoredKey;
    hide P.Next;
  }

  /** Claiming a free key, charging and writing the outcome down. */
  lemma ClaimFree(s: P.State, call: nat, id: nat, c: Charging, i: nat, amount: int)
    requires i < |c.enabled| && Runs(s, call, id, c) && s.calls[call].pc == P.Claiming(i, amount)
    requires StoredKey(c, i) !in s.attempts
    ensures Alone(s, call, c, 1) ==
              s.(calls := At(s, call, P.Charging(i, amount)), attempts := s.attempts[StoredKey(c, i) := P.Row(call, Pending)])
  {
    OneStatement(s, call, c);
    SameKeys(c, i);
    hide P.StoredKey;
    hide P.Next;
  }

  lemma ChargeOnce(s: P.State, call: nat, id: nat, c: Charging, i: nat, amount: int)
    requires i < |c.enabled| && Runs(s, call, id, c) && s.calls[call].pc == P.Charging(i, amount)
    ensures var t := Alone(s, call, c, 1);
            && t.attempts == s.attempts && t.due == s.due
            && t.calls == At(s, call, P.Completing(i, amount, c.outcomes(c.enabled[i])))
  {
    OneStatement(s, call, c);
    hide P.StoredKey;
  }

  lemma WriteOutcome(s: P.State, call: nat, id: nat, c: Charging, i: nat, amount: int, o: Outcome)
    requires i < |c.enabled| && Runs(s, call, id, c) && s.calls[call].pc == P.Completing(i, amount, o)
    requires StoredKey(c, i) in s.attempts && s.attempts[StoredKey(c, i)].owner == call
    ensures var t := Alone(s, call, c, 1);
            && t.attempts == s.attempts[StoredKey(c, i) := P.Row(call, AttemptState(o))] && t.due == s.due
            && t.calls == At(s, call, if o == Captured then P.Recording(amount) else P.Next(ConfigOf(c), i, amount))
  {
    OneStatement(s, call, c);
    SameKeys(c, i);
    hide P.StoredKey;
    hide P.Next;
  }

  lemma BookPayment(s: P.State, call: nat, id: nat, c: Charging, amount: int)
    requires Runs(s, call, id, c) && s.calls[call].pc == P.Recording(amount) && id in s.due && s.due[id] == amount > 0
    ensures Alone(s, call, c, 1) == s.(calls := At(s, call, P.Returned), due := s.due[id := 0])
  {
    OneStatement(s, call, c);
  }

  /** Claim, charge and outcome of a provider under a free key, in one piece. */
  lemma ThreeStatements(s: P.State, call: nat, id: nat, c: Charging, i: nat, amount: int)
    requires i < |c.enabled| && Runs(s, call, id, c) && s.calls[call].pc == P.Claiming(i, amount)
    requires StoredKey(c, i) !in s.attempts
    ensures var t, o := Alone(s, call, c, 3), c.outcomes(c.enabled[i]);
            && t.attempts == s.attempts[StoredKey(c, i) := P.Row(call, AttemptState(o))] && t.due == s.due
            && t.calls == At(s, call, if o == Captured then P.Recording(amount) else P.Next(ConfigOf(c), i, amount))
  {
    hide Alone;
    hide StoredKey;
    hide ConfigOf;
    hide P.Next;
    var t := Alone(s, call, c, 1);
    ClaimFree(s, call, id, c, i, amount);
    AloneAdds(s, call, c, 1, 1);
    var u := Alone(t, call, c, 1);
    ChargeOnce(t, call, id, c, i, amount);
    AloneAdds(s, call, c, 2, 1);
    WriteOutcome(u, call, id, c, i, amount, c.outcomes(c.enabled[i]));
  }

  /** The books after provider `i` was tried under a free key. */
  lemma TriedFields(b: Books, id: nat, c: Charging, i: nat, amount: int) returns (inv: Invoice, a: Attempt)
    requires id in b.invoices && i < |c.enabled| && BalanceDue(b.invoices[id]) == amount > 0 && StoredKey(c, i) !in b.keys
    ensures a.key == StoredKey(c, i) && a.state == AttemptState(c.outcomes(c.enabled[i]))
    ensures inv.attempts == b.invoices[id].attempts + [a]
    ensures BalanceDue(inv) == if c.outcomes(c.enabled[i]) == Captured then 0 else amount
    ensures ChargeThrough(b, id, c, i, amount) == Put(b, id, inv).(keys := b.keys[a.key := id])
  {
    hide StoredKey;
    hide AttemptState;
    var was, o := b.invoices[id], c.outcomes(c.enabled[i]);
    a := Attempt(StoredKey(c, i), c.enabled[i], amount, AttemptState(o));
    var tried := was.(attempts := was.attempts + [a]);
    inv := if o == Captured then WithPayment(tried, amount) else tried;
  }

  /** The statements of one provider do what one turn of the ledger's loop does. */
  lemma ProviderMatches(s: P.State, b: Books, call: nat, id: nat, c: Charging, i: nat, amount: int) returns (n: nat)
    requires Mirrors(s, b) && id in b.invoices && BalanceDue(b.invoices[id]) == amount > 0
    requires i < |c.enabled| && Runs(s, call, id, c) && s.calls[call].pc == P.Claiming(i, amount)
    ensures var t := Alone(s, call, c, n);
            && Mirrors(t, ChargeThrough(b, id, c, i, amount))
            && t.calls == At(s, call, AfterProvider(b, c, i, amount))
  {
    hide Alone;
    hide StoredKey;
    hide AttemptState;
    hide ConfigOf;
    hide P.Next;
    hide BalanceDue;
    if StoredKey(c, i) in s.attempts {
      ClaimTaken(s, call, id, c, i, amount);
      n := 1;
    } else {
      ThreeStatements(s, call, id, c, i, amount);
      var inv, a := TriedFields(b, id, c, i, amount);
      hide ChargeThrough;
      hide Put;
      var t := Alone(s, call, c, 3);
      assert s.due[id := amount] == s.due by { assert Shows(s, id, b.invoices[id]); }
      n := 3;
      if c.outcomes(c.enabled[i]) == Captured {
        BookPayment(t, call, id, c, amount);
        AloneAdds(s, call, c, 3, 1);
        n, t := 4, Alone(s, call, c, 4);
        assert At(s, call, P.Returned) == t.calls;
      }
      assert t.attempts == s.attempts[a.key := P.Row(call, a.state)];
      hide Mirrors;
      AttemptMirrors(s, b, t, id, inv, a);
    }
  }

  /** From provider `i` on, the call ends where the failover loop ends. */
  lemma {:induction false} LoopMatches(s: P.State, b: Books, call: nat, id: nat, c: Charging, i: nat, amount: int)
    returns (n: nat)
    requires Mirrors(s, b) && id in b.invoices && BalanceDue(b.invoices[id]) == amount > 0
    requires i <= |c.enabled| && Runs(s, call, id, c) && s.calls[call].pc == P.Try(ConfigOf(c), i, amount)
    ensures var t := Alone(s, call, c, n);
            Mirrors(t, ChargeFrom(b, id, c, i, amount)) && t.calls == At(s, call, P.Returned)
    decreases |c.enabled| - i
  {
    hide Alone;
    hide StoredKey;
    hide Mirrors;
    hide BalanceDue;
    hide PickMethod;
    hide ChargeThrough;
    if i == |c.enabled| {
      n := 0;
      NoStatement(s, call, c);
    } else if PickMethod(c.methods, c.enabled[i]).None? {
      n := LoopMatches(s, b, call, id, c, i + 1, amount);
    } else {
      n := ProviderMatches(s, b, call, id, c, i, amount);
      var t, next := Alone(s, call, c, n), ChargeThrough(b, id, c, i, amount);
      if !Stops(b, c, i) {
        StillDue(b, id, c, i, amount);
        var m := LoopMatches(t, next, call, id, c, i + 1, amount);
        AloneAdds(s, call, c, n, m);
        n := n + m;
      }
    }
  }

  lemma NoStatement(s: P.State, call: nat, c: Charging)
    ensures Alone(s, call, c, 0) == s
  {
  }

  /** Going on to the next provider means nothing was paid. */
  lemma StillDue(b: Books, id: nat, c: Charging, i: nat, amount: int)
    requires id in b.invoices && i < |c.enabled| && !Stops(b, c, i)
    ensures var next := ChargeThrough(b, id, c, i, amount);
            id in next.invoices && BalanceDue(next.invoices[id]) == BalanceDue(b.invoices[id])
  {
    hide StoredKey;
    hide AttemptState;
  }

  /** A call that starts, looks its key up, reads its settings and runs on. */
  function Serial(s: P.State, call: nat, id: nat, c: Charging, n: nat): P.State
  {
    var looked := Alone(P.Step(s, P.Start(call, c.key, id)), call, c, 1);
    Alone(P.Step(looked, P.Load(call, ConfigOf(c))), call, c, n)
  }

  lemma Looked(s: P.State, call: nat, id: nat, c: Charging)
    requires call !in s.calls
    ensures var t := Alone(P.Step(s, P.Start(call, c.key, id)), call, c, 1);
            t == s.(calls := s.calls[call := P.Call(c.key, id, P.NOTHING_READ, if c.key in s.attempts then P.Returned else P.Loading)])
  {
    OneStatement(P.Step(s, P.Start(call, c.key, id)), call, c);
  }

  /** One call at a time, concurrent charging is the ledger's charge: whenever the
      ledger accepts the charge, or the key was used before, the call returns with
      the attempts and balances that the books then hold. */
  lemma SerialIsCharge(s: P.State, b: Books, call: nat, tenant: string, id: nat, c: Charging) returns (n: nat)
    requires Mirrors(s, b) && call !in s.calls
    requires ChargeInvoice(b, tenant, id, c).1 == Accepted || c.key in b.keys
    ensures var t := Serial(s, call, id, c, n);
            && Mirrors(t, ChargeInvoice(b, tenant, id, c).0)
            && t.calls.Keys == s.calls.Keys + {call} && t.calls[call].pc == P.Returned
  {
    hide Alone;
    hide ChargeFrom;
    hide BalanceDue;
    hide P.Try;
    Looked(s, call, id, c);
    var looked := Alone(P.Step(s, P.Start(call, c.key, id)), call, c, 1);
    var loaded := P.Step(looked, P.Load(call, ConfigOf(c)));
    assert Mirrors(loaded, b);
    if c.key in b.keys {
      n := 0;
      NoStatement(loaded, call, c);
    } else {
      assert Shows(s, id, b.invoices[id]);
      hide ConfigOf;
      hide Mirrors;
      n := LoopMatches(loaded, b, call, id, c, 0, BalanceDue(b.invoices[id]));
    }
  }
}
