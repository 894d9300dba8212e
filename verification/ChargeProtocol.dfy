/** Concurrent `ChargeInvoice` calls, interleaved statement by statement. The
    unique idempotency key of the attempt table is the only synchronisation. */
module ChargeProtocol {
  import opened Attempts

  /** An enabled provider; `usable` when the tenant has an active instrument for
      it. The list is in failover order. */
  datatype Provider = Provider(name: string, usable: bool)

  datatype Config = Config(enabled: seq<Provider>, failover: bool)

  datatype Pc =
    | Looking                                                        // SELECT by idempotency key
    | Loading                                                        // read the balance, the providers and the instruments
    | Claiming(index: nat, amount: int)                              // INSERT the attempt row
    | Charging(index: nat, amount: int)                              // the provider call
    | Completing(index: nat, amount: int, outcome: Outcome)          // UPDATE the attempt row
    | Recording(amount: int)                                         // RecordPayment
    | Returned

  datatype Row = Row(owner: nat, state: PaymentState)

  /** A call and the configuration it read; before that it is NOTHING_READ. */
  datatype Call = Call(key: string, invoice: nat, config: Config, pc: Pc)

  const NOTHING_READ := Config([], false)

  datatype Charge = Charge(key: string, caller: nat, amount: int, captured: bool)

  datatype State = State(attempts: map<string, Row>, due: map<nat, int>, calls: map<nat, Call>, charges: seq<Charge>)

  /** `Load` carries the provider list, in the order of the moment, and the
      instruments that this call happens to read. */
  datatype Op =
    | Start(id: nat, key: string, invoice: nat)
    | Load(id: nat, config: Config)
    | Execute(id: nat, outcome: Outcome)

  function Initial(due: map<nat, int>): State
  {
    State(map[], due, map[], [])
  }

  /** The first usable provider from `i` on, or the end of the list. */
  function Usable(c: Config, i: nat): (r: nat)
    requires i <= |c.enabled|
    ensures i <= r <= |c.enabled|
    ensures r < |c.enabled| ==> c.enabled[r].usable
    ensures forall k :: i <= k < r ==> !c.enabled[k].usable
    decreases |c.enabled| - i
  {
    if i == |c.enabled| || c.enabled[i].usable then i else Usable(c, i + 1)
  }

  function StoredKey(c: Config, key: string, i: nat): string
    requires i < |c.enabled|
  {
    AttemptKey(key, i, c.enabled[i].name)
  }

  function Try(c: Config, i: nat, amount: int): Pc
    requires i <= |c.enabled|
  {
    var j := Usable(c, i);
    if j < |c.enabled| then Claiming(j, amount) else Returned
  }

  /** After provider `i` did not settle the invoice. */
  function Next(c: Config, i: nat, amount: int): Pc
    requires i < |c.enabled|
  {
    if c.failover then Try(c, i + 1, amount) else Returned
  }

  function Goto(s: State, id: nat, pc: Pc): State
    requires id in s.calls
  {
    s.(calls := s.calls[id := s.calls[id].(pc := pc)])
  }

  function Read(s: State, id: nat, c: Config): State
    requires id in s.calls
  {
    var call := s.calls[id];
    var pc := if call.invoice in s.due && s.due[call.invoice] > 0 then Try(c, 0, s.due[call.invoice]) else Returned;
    s.(calls := s.calls[id := call.(config := c, pc := pc)])
  }

  function Claim(s: State, id: nat, i: nat, amount: int): State
    requires id in s.calls && i < |s.calls[id].config.enabled|
  {
    var c := s.calls[id].config;
    var key := StoredKey(c, s.calls[id].key, i);
    if key in s.attempts then Goto(s, id, Next(c, i, amount))
    else Goto(s, id, Charging(i, amount)).(attempts := s.attempts[key := Row(id, Pending)])
  }

  function CallProvider(s: State, id: nat, i: nat, amount: int, o: Outcome): State
    requires id in s.calls && i < |s.calls[id].config.enabled|
  {
    var t := Goto(s, id, Completing(i, amount, o));
    if o == Unavailable then t
    else t.(charges := s.charges + [Charge(StoredKey(s.calls[id].config, s.calls[id].key, i), id, amount, o == Captured)])
  }

  function Complete(s: State, id: nat, i: nat, amount: int, o: Outcome): State
    requires id in s.calls && i < |s.calls[id].config.enabled|
  {
    var c := s.calls[id].config;
    var key := StoredKey(c, s.calls[id].key, i);
    var t := Goto(s, id, if o == Captured then Recording(amount) else Next(c, i, amount));
    if key in s.attempts then t.(attempts := s.attempts[key := s.attempts[key].(state := AttemptState(o))]) else t
  }

  function Record(s: State, id: nat, amount: int): State
    requires id in s.calls
  {
    var inv := s.calls[id].invoice;
    var t := Goto(s, id, Returned);
    if inv in s.due then t.(due := s.due[inv := if s.due[inv] > amount then s.due[inv] - amount else 0]) else t
  }

  function Statement(s: State, id: nat, o: Outcome): State
    requires id in s.calls
  {
    var call := s.calls[id];
    var n := |call.config.enabled|;
    match call.pc
    case Looking => Goto(s, id, if call.key in s.attempts then Returned else Loading)
    case Claiming(i, amount) => if i < n then Claim(s, id, i, amount) else s
    case Charging(i, amount) => if i < n then CallProvider(s, id, i, amount, o) else s
    case Completing(i, amount, seen) => if i < n then Complete(s, id, i, amount, seen) else s
    case Recording(amount) => Record(s, id, amount)
    case _ => s
  }

  function Step(s: State, op: Op): State
  {
    match op
    case Start(id, key, invoice) =>
      if id in s.calls then s else s.(calls := s.calls[id := Call(key, invoice, NOTHING_READ, Looking)])
    case Load(id, c) => if id in s.calls && s.calls[id].pc == Loading then Read(s, id, c) else s
    case Execute(id, o) => if id in s.calls then Statement(s, id, o) else s
  }

  function Run(due: map<nat, int>, ops: seq<Op>): State
  {
    if ops == [] then Initial(due) else Step(Run(due, ops[..|ops| - 1]), ops[|ops| - 1])
  }

  /** What a call does with the balance: it goes on only if something is due, for
      that much, with the first usable provider of what it read. */
  lemma LoadExactly(s: State, id: nat, c: Config)
    requires id in s.calls && s.calls[id].pc == Loading
    ensures var t, inv := Step(s, Load(id, c)), s.calls[id].invoice;
            var due := if inv in s.due then s.due[inv] else 0;
            && t == s.(calls := s.calls[id := s.calls[id].(config := c, pc := t.calls[id].pc)])
            && (t.calls[id].pc == Returned <==> due <= 0 || forall k :: 0 <= k < |c.enabled| ==> !c.enabled[k].usable)
            && (t.calls[id].pc != Returned ==>
                  && t.calls[id].pc.Claiming? && t.calls[id].pc.amount == due
                  && var k := t.calls[id].pc.index;
                     k < |c.enabled| && c.enabled[k].usable && forall j :: 0 <= j < k ==> !c.enabled[j].usable)
  {
    hide Usable;
  }

  /** Only recording a payment touches a balance, and takes the amount off it, down
      to nothing at the least; only an answer from a provider is a charge. */
  lemma StatementEffects(s: State, id: nat, o: Outcome)
    requires id in s.calls
    ensures var t, call := Step(s, Execute(id, o)), s.calls[id];
            && (!call.pc.Recording? ==> t.due == s.due)
            && (call.pc.Recording? ==>
                  && t.calls == s.calls[id := call.(pc := Returned)] && t.attempts == s.attempts && t.charges == s.charges
                  && t.due.Keys == s.due.Keys
                  && forall k :: k in s.due ==>
                       t.due[k] == if k != call.invoice then s.due[k]
                                   else if s.due[k] - call.pc.amount <= 0 then 0 else s.due[k] - call.pc.amount)
            && (t.charges != s.charges ==> call.pc.Charging? && o != Unavailable)
            && (call.pc.Charging? && call.pc.index < |call.config.enabled| ==>
                  |t.charges| == |s.charges| + if o == Unavailable then 0 else 1)
  {
    hide StoredKey;
    hide Try;
  }

  // ------------------------------------------------- one charge per stored key

  predicate Distinct(charges: seq<Charge>)
  {
    forall i, j :: 0 <= i < j < |charges| ==> charges[i].key != charges[j].key
  }

  predicate Charged(charges: seq<Charge>, key: string)
  {
    exists i :: 0 <= i < |charges| && charges[i].key == key
  }

  /** Only the owner of a row may charge under its key. */
  predicate ChargesOwned(s: State)
  {
    forall i :: 0 <= i < |s.charges| ==>
      s.charges[i].key in s.attempts && s.attempts[s.charges[i].key].owner == s.charges[i].caller
  }

  /** A call about to charge owns a row nobody has charged under yet. */
  predicate CallOk(s: State, id: nat, call: Call)
  {
    match call.pc
    case Charging(i, _) =>
      && i < |call.config.enabled|
      && var key := StoredKey(call.config, call.key, i);
         key in s.attempts && s.attempts[key].owner == id && !Charged(s.charges, key)
    case _ => true
  }

  predicate CallsOk(s: State)
  {
    forall id :: id in s.calls ==> CallOk(s, id, s.calls[id])
  }

  predicate Inv(s: State)
  {
    Distinct(s.charges) && ChargesOwned(s) && CallsOk(s)
  }

  /** Moving a call on, without claiming or charging, keeps the invariant. */
  lemma MoveKeeps(s: State, id: nat, call: Call)
    requires Inv(s) && !call.pc.Charging?
    ensures Inv(s.(calls := s.calls[id := call]))
  {
    hide StoredKey;
    var t := s.(calls := s.calls[id := call]);
    forall k | k in t.calls ensures CallOk(t, k, t.calls[k]) {
      if k != id {
        assert CallOk(s, k, s.calls[k]);
      }
    }
  }

  lemma ClaimKeeps(s: State, id: nat, i: nat, amount: int)
    requires Inv(s) && id in s.calls && i < |s.calls[id].config.enabled|
    ensures Inv(Claim(s, id, i, amount))
  {
    hide StoredKey;
    var key := StoredKey(s.calls[id].config, s.calls[id].key, i);
    if key in s.attempts {
      MoveKeeps(s, id, s.calls[id].(pc := Next(s.calls[id].config, i, amount)));
    } else {
      var t := Claim(s, id, i, amount);
      forall k | k in t.calls ensures CallOk(t, k, t.calls[k]) {
        if k != id {
          assert CallOk(s, k, s.calls[k]);
        }
      }
    }
  }

  lemma CallProviderKeeps(s: State, id: nat, i: nat, amount: int, o: Outcome)
    requires Inv(s) && id in s.calls && i < |s.calls[id].config.enabled| && s.calls[id].pc == Charging(i, amount)
    ensures Inv(CallProvider(s, id, i, amount, o))
  {
    hide StoredKey;
    MoveKeeps(s, id, s.calls[id].(pc := Completing(i, amount, o)));
    if o != Unavailable {
      var t := CallProvider(s, id, i, amount, o);
      var key := StoredKey(s.calls[id].config, s.calls[id].key, i);
      assert CallOk(s, id, s.calls[id]);
      forall k | k in t.calls ensures CallOk(t, k, t.calls[k]) {
        if k != id && t.calls[k].pc.Charging? {
          assert CallOk(s, k, s.calls[k]);
          var other := StoredKey(t.calls[k].config, t.calls[k].key, t.calls[k].pc.index);
          assert other != key;
          assert !Charged(t.charges, other);
        }
      }
      forall j | 0 <= j < |s.charges| ensures s.charges[j].key != key {
      }
    }
  }

  lemma CompleteKeeps(s: State, id: nat, i: nat, amount: int, o: Outcome)
    requires Inv(s) && id in s.calls && i < |s.calls[id].config.enabled|
    ensures Inv(Complete(s, id, i, amount, o))
  {
    hide StoredKey;
    var pc := if o == Captured then Recording(amount) else Next(s.calls[id].config, i, amount);
    MoveKeeps(s, id, s.calls[id].(pc := pc));
    var t, u := Complete(s, id, i, amount, o), Goto(s, id, pc);
    hide Next;
    forall k | k in t.calls ensures CallOk(t, k, t.calls[k]) {
      assert CallOk(u, k, u.calls[k]);
    }
  }

  lemma RecordKeeps(s: State, id: nat, amount: int)
    requires Inv(s) && id in s.calls
    ensures Inv(Record(s, id, amount))
  {
    MoveKeeps(s, id, s.calls[id].(pc := Returned));
    var t, u := Record(s, id, amount), Goto(s, id, Returned);
    forall k | k in t.calls ensures CallOk(t, k, t.calls[k]) {
      assert CallOk(u, k, u.calls[k]);
    }
  }

  lemma StepKeeps(s: State, op: Op)
    requires Inv(s)
    ensures Inv(Step(s, op))
  {
    hide Inv;
    hide Claim;
    hide CallProvider;
    hide Complete;
    hide Record;
    hide StoredKey;
    hide Try;
    match op
    case Start(id, key, invoice) => MoveKeeps(s, id, Call(key, invoice, NOTHING_READ, Looking));
    case Load(id, c) =>
      if id in s.calls {
        var call := Read(s, id, c).calls[id];
        assert !call.pc.Charging? by { TryNeverCharges(c, 0, if call.invoice in s.due then s.due[call.invoice] else 0); }
        MoveKeeps(s, id, call);
      }
    case Execute(id, o) =>
      if id in s.calls {
        var call := s.calls[id];
        match call.pc
        case Looking => MoveKeeps(s, id, call.(pc := if call.key in s.attempts then Returned else Loading));
        case Claiming(i, amount) => if i < |call.config.enabled| { ClaimKeeps(s, id, i, amount); }
        case Charging(i, amount) => if i < |call.config.enabled| { CallProviderKeeps(s, id, i, amount, o); }
        case Completing(i, amount, seen) => if i < |call.config.enabled| { CompleteKeeps(s, id, i, amount, seen); }
        case Recording(amount) => RecordKeeps(s, id, amount);
        case _ =>
      }
  }

  lemma TryNeverCharges(c: Config, i: nat, amount: int)
    requires i <= |c.enabled|
    ensures !Try(c, i, amount).Charging?
  {
  }

  lemma {:induction false} RunInvariant(due: map<nat, int>, ops: seq<Op>)
    ensures Inv(Run(due, ops))
  {
    if ops != [] {
      hide Inv;
      hide Step;
      RunInvariant(due, ops[..|ops| - 1]);
      StepKeeps(Run(due, ops[..|ops| - 1]), ops[|ops| - 1]);
    } else {
      assert Inv(Initial(due));
    }
  }

  /** In every interleaving, whatever each call reads, a stored idempotency key
      reaches a provider's `Charge` at most once, and only from the call that
      inserted its row. */
  lemma OneChargePerStoredKey(due: map<nat, int>, ops: seq<Op>, i: nat, j: nat)
    requires i < |Run(due, ops).charges| && j < |Run(due, ops).charges|
    requires Run(due, ops).charges[i].key == Run(due, ops).charges[j].key
    ensures i == j
    ensures var s := Run(due, ops);
            s.charges[i].key in s.attempts && s.attempts[s.charges[i].key].owner == s.charges[i].caller
  {
    RunInvariant(due, ops);
  }

  // ---------------------------------------------- captures per requested key

  /** At most one charge made for callers of `key` took the money. */
  predicate OneCapture(s: State, key: string)
  {
    forall i, j :: 0 <= i < |s.charges| && 0 <= j < |s.charges| && TookFor(s, i, key) && TookFor(s, j, key) ==> i == j
  }

  predicate TookFor(s: State, i: nat, key: string)
    requires i < |s.charges|
  {
    var ch := s.charges[i];
    ch.captured && ch.caller in s.calls && s.calls[ch.caller].key == key
  }

  /** Two different providers could be tried for one request. */
  predicate CanFailOver(c: Config)
  {
    c.failover && Usable(c, 0) < |c.enabled| && Usable(c, Usable(c, 0) + 1) < |c.enabled|
  }

  /** Some provider can be tried at all. */
  predicate Chargeable(c: Config)
  {
    Usable(c, 0) < |c.enabled|
  }

  /** Both would store the first attempt under the same key: each at the head of
      its list, or neither and through the same provider. */
  predicate SameFirst(c: Config, d: Config)
    requires Chargeable(c) && Chargeable(d)
  {
    var i, j := Usable(c, 0), Usable(d, 0);
    (i == 0 && j == 0) || (i > 0 && j > 0 && c.enabled[i].name == d.enabled[j].name)
  }

  function FirstKey(c: Config, key: string): string
    requires Chargeable(c)
  {
    StoredKey(c, key, Usable(c, 0))
  }

  lemma FirstKeysAgreeIff(c: Config, d: Config, key: string)
    requires Chargeable(c) && Chargeable(d)
    ensures FirstKey(c, key) == FirstKey(d, key) <==> SameFirst(c, d)
  {
    var i, j := Usable(c, 0), Usable(d, 0);
    hide Usable;
    if i > 0 {
      assert FirstKey(c, key)[|key| + 1..] == c.enabled[i].name;
    }
    if j > 0 {
      assert FirstKey(d, key)[|key| + 1..] == d.enabled[j].name;
    }
  }

  /** No configuration a call may read can fail over, and all of them agree on
      the key of the first attempt. */
  ghost predicate Safe(cs: iset<Config>)
  {
    && (forall c :: c in cs ==> !CanFailOver(c))
    && (forall c, d :: c in cs && d in cs && Chargeable(c) && Chargeable(d) ==> SameFirst(c, d))
  }

  ghost predicate Within(cs: iset<Config>, ops: seq<Op>)
  {
    forall k :: 0 <= k < |ops| && ops[k].Load? ==> ops[k].config in cs
  }

  /** The call deals only with the first usable provider of what it read. */
  ghost predicate AtFirst(cs: iset<Config>, call: Call)
  {
    match call.pc
    case Claiming(i, _) => call.config in cs && i == Usable(call.config, 0) < |call.config.enabled|
    case Charging(i, _) => call.config in cs && i == Usable(call.config, 0) < |call.config.enabled|
    case Completing(i, _, _) => call.config in cs && i == Usable(call.config, 0) < |call.config.enabled|
    case _ => true
  }

  ghost predicate ChargedFirst(cs: iset<Config>, s: State, ch: Charge)
  {
    && ch.caller in s.calls
    && var call := s.calls[ch.caller];
       && !call.pc.Looking? && !call.pc.Loading?
       && call.config in cs && Chargeable(call.config) && ch.key == FirstKey(call.config, call.key)
  }

  ghost predicate OnlyFirst(cs: iset<Config>, s: State)
  {
    && (forall id :: id in s.calls ==> AtFirst(cs, s.calls[id]))
    && (forall i :: 0 <= i < |s.charges| ==> ChargedFirst(cs, s, s.charges[i]))
  }

  /** A call that goes on without reading its configuration again. */
  lemma MoveFirst(cs: iset<Config>, s: State, id: nat, pc: Pc)
    requires OnlyFirst(cs, s) && id in s.calls && AtFirst(cs, s.calls[id].(pc := pc))
    requires !pc.Looking? && (pc.Loading? ==> s.calls[id].pc.Looking?)
    ensures OnlyFirst(cs, Goto(s, id, pc))
  {
    hide FirstKey;
    hide Usable;
    var t := Goto(s, id, pc);
    forall i | 0 <= i < |t.charges| ensures ChargedFirst(cs, t, t.charges[i]) {
      assert ChargedFirst(cs, s, s.charges[i]);
    }
    hide AtFirst;
  }

  lemma NextReturns(c: Config, amount: int)
    requires !CanFailOver(c) && Chargeable(c)
    ensures Next(c, Usable(c, 0), amount) == Returned
  {
  }

  lemma ReadFirst(cs: iset<Config>, s: State, id: nat, c: Config)
    requires OnlyFirst(cs, s) && id in s.calls && s.calls[id].pc == Loading && c in cs
    ensures OnlyFirst(cs, Read(s, id, c))
  {
    hide FirstKey;
    hide Usable;
    var t := Read(s, id, c);
    forall i | 0 <= i < |t.charges| ensures ChargedFirst(cs, t, t.charges[i]) {
      assert ChargedFirst(cs, s, s.charges[i]);
    }
    assert AtFirst(cs, t.calls[id]);
    hide AtFirst;
  }

  /** Only calls and charges matter here. */
  lemma FirstSame(cs: iset<Config>, s: State, t: State)
    requires OnlyFirst(cs, s) && t.calls == s.calls && t.charges == s.charges
    ensures OnlyFirst(cs, t)
  {
    hide AtFirst;
    forall i | 0 <= i < |t.charges| ensures ChargedFirst(cs, t, t.charges[i]) {
      assert ChargedFirst(cs, s, s.charges[i]);
    }
    hide ChargedFirst;
  }

  lemma ChargeFirst(cs: iset<Config>, s: State, id: nat, i: nat, amount: int, o: Outcome)
    requires OnlyFirst(cs, s) && id in s.calls && s.calls[id].pc == Charging(i, amount) && i < |s.calls[id].config.enabled|
    ensures OnlyFirst(cs, CallProvider(s, id, i, amount, o))
  {
    assert AtFirst(cs, s.calls[id]);
    hide Usable;
    MoveFirst(cs, s, id, Completing(i, amount, o));
    var u, t := Goto(s, id, Completing(i, amount, o)), CallProvider(s, id, i, amount, o);
    hide OnlyFirst;
    assert OnlyFirst(cs, u);
    assert OnlyFirst(cs, t) by {
      OnlyFirstGrows(cs, u, t);
    }
  }

  /** One more charge by a call at its first provider. */
  lemma OnlyFirstGrows(cs: iset<Config>, s: State, t: State)
    requires OnlyFirst(cs, s) && t.calls == s.calls && s.charges <= t.charges && |t.charges| <= |s.charges| + 1
    requires |t.charges| > |s.charges| ==> ChargedFirst(cs, s, t.charges[|s.charges|])
    ensures OnlyFirst(cs, t)
  {
    hide AtFirst;
    hide FirstKey;
    hide Usable;
    forall i | 0 <= i < |t.charges| ensures ChargedFirst(cs, t, t.charges[i]) {
      assert i < |s.charges| ==> ChargedFirst(cs, s, s.charges[i]);
    }
    hide ChargedFirst;
  }

  lemma OnlyFirstStep(cs: iset<Config>, s: State, op: Op)
    requires Safe(cs) && OnlyFirst(cs, s) && (op.Load? ==> op.config in cs)
    ensures OnlyFirst(cs, Step(s, op))
  {
    hide StoredKey;
    hide Usable;
    match op
    case Start(id, key, invoice) =>
      if id !in s.calls {
        StartFirst(cs, s, id, Call(key, invoice, NOTHING_READ, Looking));
      }
    case Load(id, c) =>
      if id in s.calls && s.calls[id].pc == Loading {
        ReadFirst(cs, s, id, c);
      }
    case Execute(id, o) =>
      if id in s.calls {
        ExecuteFirst(cs, s, id, o);
      }
  }

  lemma StartFirst(cs: iset<Config>, s: State, id: nat, call: Call)
    requires OnlyFirst(cs, s) && id !in s.calls && call.pc == Looking
    ensures OnlyFirst(cs, s.(calls := s.calls[id := call]))
  {
    hide FirstKey;
    hide Usable;
    var t := s.(calls := s.calls[id := call]);
    forall i | 0 <= i < |t.charges| ensures ChargedFirst(cs, t, t.charges[i]) {
      assert ChargedFirst(cs, s, s.charges[i]);
    }
  }

  lemma ExecuteFirst(cs: iset<Config>, s: State, id: nat, o: Outcome)
    requires Safe(cs) && OnlyFirst(cs, s) && id in s.calls
    ensures OnlyFirst(cs, Statement(s, id, o))
  {
    hide StoredKey;
    hide Usable;
    hide ChargedFirst;
    hide Claim;
    hide CallProvider;
    hide Complete;
    var call := s.calls[id];
    assert AtFirst(cs, call);
    match call.pc
    case Looking => MoveFirst(cs, s, id, if call.key in s.attempts then Returned else Loading);
    case Claiming(i, amount) => ClaimFirst(cs, s, id, i, amount);
    case Charging(i, amount) => ChargeFirst(cs, s, id, i, amount, o);
    case Completing(i, amount, seen) => CompleteFirst(cs, s, id, i, amount, seen);
    case Recording(amount) =>
      MoveFirst(cs, s, id, Returned);
      FirstSame(cs, Goto(s, id, Returned), Record(s, id, amount));
    case _ =>
  }

  lemma ClaimFirst(cs: iset<Config>, s: State, id: nat, i: nat, amount: int)
    requires Safe(cs) && OnlyFirst(cs, s) && id in s.calls && s.calls[id].pc == Claiming(i, amount) && i < |s.calls[id].config.enabled|
    ensures OnlyFirst(cs, Claim(s, id, i, amount))
  {
    hide StoredKey;
    hide Usable;
    hide ChargedFirst;
    assert AtFirst(cs, s.calls[id]);
    NextReturns(s.calls[id].config, amount);
    hide Next;
    MoveFirst(cs, s, id, Returned);
    MoveFirst(cs, s, id, Charging(i, amount));
    hide OnlyFirst;
    var u, t := Goto(s, id, Charging(i, amount)), Claim(s, id, i, amount);
    if t.attempts != s.attempts {
      FirstSame(cs, u, t);
    }
  }

  lemma CompleteFirst(cs: iset<Config>, s: State, id: nat, i: nat, amount: int, o: Outcome)
    requires Safe(cs) && OnlyFirst(cs, s) && id in s.calls && s.calls[id].pc.Completing? && s.calls[id].pc.index == i < |s.calls[id].config.enabled|
    ensures OnlyFirst(cs, Complete(s, id, i, amount, o))
  {
    hide StoredKey;
    hide Usable;
    hide ChargedFirst;
    assert AtFirst(cs, s.calls[id]);
    NextReturns(s.calls[id].config, amount);
    hide Next;
    var pc := if o == Captured then Recording(amount) else Returned;
    MoveFirst(cs, s, id, pc);
    hide OnlyFirst;
    FirstSame(cs, Goto(s, id, pc), Complete(s, id, i, amount, o));
  }

  lemma {:induction false} OnlyFirstRun(cs: iset<Config>, due: map<nat, int>, ops: seq<Op>)
    requires Safe(cs) && Within(cs, ops)
    ensures OnlyFirst(cs, Run(due, ops))
  {
    if ops != [] {
      hide OnlyFirst;
      hide Step;
      var init := ops[..|ops| - 1];
      assert forall k :: 0 <= k < |init| ==> init[k] == ops[k];
      OnlyFirstRun(cs, due, init);
      OnlyFirstStep(cs, Run(due, init), ops[|ops| - 1]);
    }
  }

  lemma WithoutFailover(cs: iset<Config>, due: map<nat, int>, ops: seq<Op>, key: string)
    requires Safe(cs) && Within(cs, ops)
    ensures OneCapture(Run(due, ops), key)
  {
    var s := Run(due, ops);
    OnlyFirstRun(cs, due, ops);
    RunInvariant(due, ops);
    hide Run;
    hide StoredKey;
    hide Usable;
    forall i, j | 0 <= i < |s.charges| && 0 <= j < |s.charges| && TookFor(s, i, key) && TookFor(s, j, key)
      ensures i == j
    {
      assert ChargedFirst(cs, s, s.charges[i]) && ChargedFirst(cs, s, s.charges[j]);
      FirstKeysAgreeIff(s.calls[s.charges[i].caller].config, s.calls[s.charges[j].caller].config, key);
      assert s.charges[i].key == s.charges[j].key;
    }
  }

  // --------------------------------------------------------- double captures

  /** Provider names are the primary key of the provider table. */
  predicate DistinctNames(c: Config)
  {
    forall i, j :: 0 <= i < j < |c.enabled| ==> c.enabled[i].name != c.enabled[j].name
  }

  lemma StoredKeysDiffer(c: Config, key: string, i: nat, j: nat)
    requires DistinctNames(c) && i < j < |c.enabled|
    ensures StoredKey(c, key, i) != StoredKey(c, key, j)
  {
    var a, b := StoredKey(c, key, i), StoredKey(c, key, j);
    if i == 0 {
      assert |b| > |a|;
    } else {
      assert a[|key| + 1..] == c.enabled[i].name;
      assert b[|key| + 1..] == c.enabled[j].name;
    }
  }

  lemma RunThen(due: map<nat, int>, ops: seq<Op>, op: Op)
    ensures Run(due, ops + [op]) == Step(Run(due, ops), op)
  {
    assert (ops + [op])[..|ops|] == ops;
  }

  /** A call that holds its row takes the money. */
  lemma CaptureStep(s: State, id: nat, i: nat, amount: int)
    requires id in s.calls && i < |s.calls[id].config.enabled| && s.calls[id].pc == Charging(i, amount)
    ensures var call := s.calls[id];
            Step(s, Execute(id, Captured)) ==
              s.(calls := s.calls[id := call.(pc := Completing(i, amount, Captured))],
                 charges := s.charges + [Charge(StoredKey(call.config, call.key, i), id, amount, true)])
  {
    hide StoredKey;
  }

  /** A call claims the row of its provider, or finds it taken. */
  lemma ClaimStep(s: State, id: nat, i: nat, amount: int, o: Outcome)
    requires id in s.calls && i < |s.calls[id].config.enabled| && s.calls[id].pc == Claiming(i, amount)
    ensures Step(s, Execute(id, o)) == Claim(s, id, i, amount)
  {
    hide Claim;
  }

  lemma ClaimTakes(s: State, id: nat, i: nat, amount: int, o: Outcome)
    requires id in s.calls && i < |s.calls[id].config.enabled| && s.calls[id].pc == Claiming(i, amount)
    requires StoredKey(s.calls[id].config, s.calls[id].key, i) !in s.attempts
    ensures var call := s.calls[id];
            Step(s, Execute(id, o)) ==
              s.(calls := s.calls[id := call.(pc := Charging(i, amount))],
                 attempts := s.attempts[StoredKey(call.config, call.key, i) := Row(id, Pending)])
  {
    hide StoredKey;
    ClaimStep(s, id, i, amount, o);
    hide Step;
  }

  lemma ClaimLoses(s: State, id: nat, i: nat, amount: int, o: Outcome)
    requires id in s.calls && i < |s.calls[id].config.enabled| && s.calls[id].pc == Claiming(i, amount)
    requires StoredKey(s.calls[id].config, s.calls[id].key, i) in s.attempts
    ensures var call := s.calls[id];
            Step(s, Execute(id, o)) == s.(calls := s.calls[id := call.(pc := Next(call.config, i, amount))])
  {
    hide StoredKey;
    hide Next;
    ClaimStep(s, id, i, amount, o);
    hide Step;
  }

  /** Calls 0 and 1 with their configurations, at the given points. */
  function Two(due: map<nat, int>, key: string, invoice: nat, c: Config, d: Config, p: Pc, q: Pc): State
  {
    State(map[], due, map[0 := Call(key, invoice, c, p), 1 := Call(key, invoice, d, q)], [])
  }

  lemma RunTwo(due: map<nat, int>, ops: seq<Op>, a: Op, b: Op)
    ensures Run(due, ops + [a, b]) == Step(Step(Run(due, ops), a), b)
  {
    hide Step;
    RunThen(due, ops, a);
    RunThen(due, ops + [a], b);
    assert ops + [a] + [b] == ops + [a, b];
  }

  lemma StartBoth(due: map<nat, int>, key: string, invoice: nat)
    ensures Step(Step(Initial(due), Start(0, key, invoice)), Start(1, key, invoice)) ==
              Two(due, key, invoice, NOTHING_READ, NOTHING_READ, Looking, Looking)
  {
  }

  lemma LookBoth(due: map<nat, int>, key: string, invoice: nat)
    ensures Step(Step(Two(due, key, invoice, NOTHING_READ, NOTHING_READ, Looking, Looking), Execute(0, Held)), Execute(1, Held)) ==
              Two(due, key, invoice, NOTHING_READ, NOTHING_READ, Loading, Loading)
  {
  }

  lemma LoadBoth(due: map<nat, int>, key: string, invoice: nat, c: Config, d: Config)
    requires Chargeable(c) && Chargeable(d) && invoice in due && due[invoice] > 0
    ensures Step(Step(Two(due, key, invoice, NOTHING_READ, NOTHING_READ, Loading, Loading), Load(0, c)), Load(1, d)) ==
              Two(due, key, invoice, c, d, Claiming(Usable(c, 0), due[invoice]), Claiming(Usable(d, 0), due[invoice]))
  {
    hide Usable;
  }

  /** Both calls have found no earlier attempt and are about to claim. */
  lemma BothLoaded(cs: iset<Config>, due: map<nat, int>, key: string, invoice: nat, c: Config, d: Config) returns (ops: seq<Op>)
    requires c in cs && d in cs && Chargeable(c) && Chargeable(d) && invoice in due && due[invoice] > 0
    ensures Within(cs, ops)
    ensures Run(due, ops) ==
              Two(due, key, invoice, c, d, Claiming(Usable(c, 0), due[invoice]), Claiming(Usable(d, 0), due[invoice]))
  {
    assert Run(due, []) == Initial(due);
    hide *;
    ops := [] + [Start(0, key, invoice), Start(1, key, invoice)];
    RunTwo(due, [], Start(0, key, invoice), Start(1, key, invoice));
    StartBoth(due, key, invoice);
    RunTwo(due, ops, Execute(0, Held), Execute(1, Held));
    LookBoth(due, key, invoice);
    ops := ops + [Execute(0, Held), Execute(1, Held)];
    RunTwo(due, ops, Load(0, c), Load(1, d));
    LoadBoth(due, key, invoice, c, d);
    ops := ops + [Load(0, c), Load(1, d)];
    assert Within(cs, ops) by { LoadsOnly(cs, key, invoice, c, d); }
  }

  lemma LoadsOnly(cs: iset<Config>, key: string, invoice: nat, c: Config, d: Config)
    requires c in cs && d in cs
    ensures Within(cs, [] + [Start(0, key, invoice), Start(1, key, invoice)] + [Execute(0, Held), Execute(1, Held)] + [Load(0, c), Load(1, d)])
  {
  }

  /** Two calls that hold different rows both take the money. */
  lemma BothCapture(due: map<nat, int>, ops: seq<Op>, key: string, i: nat, j: nat, amount: int)
    requires var s := Run(due, ops);
             && s.charges == [] && 0 in s.calls && 1 in s.calls && s.calls[0].key == key && s.calls[1].key == key
             && i < |s.calls[0].config.enabled| && j < |s.calls[1].config.enabled|
             && s.calls[0].pc == Charging(i, amount) && s.calls[1].pc == Charging(j, amount)
    ensures !OneCapture(Run(due, ops + [Execute(0, Captured)] + [Execute(1, Captured)]), key)
  {
    var s := Run(due, ops);
    hide Run;
    hide StoredKey;
    hide Step;
    var ops1 := ops + [Execute(0, Captured)];
    RunThen(due, ops, Execute(0, Captured));
    CaptureStep(s, 0, i, amount);
    var s1 := Run(due, ops1);
    RunThen(due, ops1, Execute(1, Captured));
    CaptureStep(s1, 1, j, amount);
    var t := Run(due, ops1 + [Execute(1, Captured)]);
    assert |t.charges| == 2 && TookFor(t, 0, key) && TookFor(t, 1, key);
  }

  lemma WithinMore(cs: iset<Config>, ops: seq<Op>, more: seq<Op>)
    requires Within(cs, ops) && forall k :: 0 <= k < |more| ==> !more[k].Load?
    ensures Within(cs, ops + more)
  {
  }

  /** The claim that loses falls through to the next provider. */
  lemma LoserGoesOn(due: map<nat, int>, key: string, invoice: nat, c: Config, i: nat, j: nat, amount: int)
    requires i < |c.enabled| && j < |c.enabled| && StoredKey(c, key, i) != StoredKey(c, key, j)
    requires Next(c, i, amount) == Claiming(j, amount)
    ensures var s := Two(due, key, invoice, c, c, Claiming(i, amount), Claiming(i, amount));
            var t := Step(Step(Step(s, Execute(0, Held)), Execute(1, Held)), Execute(1, Held));
            && t.charges == []
            && t.calls == map[0 := Call(key, invoice, c, Charging(i, amount)), 1 := Call(key, invoice, c, Charging(j, amount))]
  {
    hide StoredKey;
    hide Next;
    hide Step;
    var s := Two(due, key, invoice, c, c, Claiming(i, amount), Claiming(i, amount));
    ClaimTakes(s, 0, i, amount, Held);
    var s1 := Step(s, Execute(0, Held));
    ClaimLoses(s1, 1, i, amount, Held);
    var s2 := Step(s1, Execute(1, Held));
    ClaimTakes(s2, 1, j, amount, Held);
  }

  lemma ClaimFallsThrough(due: map<nat, int>, key: string, invoice: nat, c: Config, amount: int)
    requires CanFailOver(c) && DistinctNames(c)
    ensures var i := Usable(c, 0);
            var s := Two(due, key, invoice, c, c, Claiming(i, amount), Claiming(i, amount));
            var t := Step(Step(Step(s, Execute(0, Held)), Execute(1, Held)), Execute(1, Held));
            && t.charges == []
            && t.calls == map[0 := Call(key, invoice, c, Charging(i, amount)),
                              1 := Call(key, invoice, c, Charging(Usable(c, i + 1), amount))]
  {
    hide Step;
    hide Two;
    hide StoredKey;
    hide Usable;
    hide DistinctNames;
    var i := Usable(c, 0);
    var j := Usable(c, i + 1);
    StoredKeysDiffer(c, key, i, j);
    LoserGoesOn(due, key, invoice, c, i, j, amount);
  }

  lemma FallenThrough(cs: iset<Config>, due: map<nat, int>, key: string, invoice: nat, c: Config) returns (ops: seq<Op>)
    requires c in cs && CanFailOver(c) && DistinctNames(c) && invoice in due && due[invoice] > 0
    ensures var i, t := Usable(c, 0), Run(due, ops);
            && Within(cs, ops) && t.charges == []
            && t.calls == map[0 := Call(key, invoice, c, Charging(i, due[invoice])),
                              1 := Call(key, invoice, c, Charging(Usable(c, i + 1), due[invoice]))]
  {
    ops := BothLoaded(cs, due, key, invoice, c, c);
    ClaimFallsThrough(due, key, invoice, c, due[invoice]);
    hide *;
    var rest := [Execute(0, Held), Execute(1, Held)];
    RunTwo(due, ops, Execute(0, Held), Execute(1, Held));
    RunThen(due, ops + rest, Execute(1, Held));
    WithinMore(cs, ops, rest);
    WithinMore(cs, ops + rest, [Execute(1, Held)]);
    ops := ops + rest + [Execute(1, Held)];
  }

  /** Two calls with one key: both look before either claims; the one that loses
      the claim falls through to the next provider, and both take the money. */
  lemma FailoverDoubleCapture(cs: iset<Config>, due: map<nat, int>, key: string, invoice: nat, c: Config) returns (ops: seq<Op>)
    requires c in cs && CanFailOver(c) && DistinctNames(c) && invoice in due && due[invoice] > 0
    ensures Within(cs, ops) && !OneCapture(Run(due, ops), key)
  {
    ops := FallenThrough(cs, due, key, invoice, c);
    var i := Usable(c, 0);
    assert i + 1 <= |c.enabled|;
    hide *;
    BothCapture(due, ops, key, i, Usable(c, i + 1), due[invoice]);
    WithinMore(cs, ops, [Execute(0, Captured)]);
    WithinMore(cs, ops + [Execute(0, Captured)], [Execute(1, Captured)]);
    ops := ops + [Execute(0, Captured)] + [Execute(1, Captured)];
  }

  lemma ClaimBoth(due: map<nat, int>, key: string, invoice: nat, c: Config, d: Config, amount: int)
    requires Chargeable(c) && Chargeable(d) && FirstKey(c, key) != FirstKey(d, key)
    ensures var i, j := Usable(c, 0), Usable(d, 0);
            var s := Two(due, key, invoice, c, d, Claiming(i, amount), Claiming(j, amount));
            var t := Step(Step(s, Execute(0, Held)), Execute(1, Held));
            && t.charges == []
            && t.calls == map[0 := Call(key, invoice, c, Charging(i, amount)), 1 := Call(key, invoice, d, Charging(j, amount))]
  {
    hide StoredKey;
    hide Usable;
    hide Step;
    var i, j := Usable(c, 0), Usable(d, 0);
    var s := Two(due, key, invoice, c, d, Claiming(i, amount), Claiming(j, amount));
    ClaimStep(s, 0, i, amount, Held);
    ClaimStep(Step(s, Execute(0, Held)), 1, j, amount, Held);
  }

  lemma BothClaimed(cs: iset<Config>, due: map<nat, int>, key: string, invoice: nat, c: Config, d: Config) returns (ops: seq<Op>)
    requires c in cs && d in cs && Chargeable(c) && Chargeable(d) && !SameFirst(c, d) && invoice in due && due[invoice] > 0
    ensures var i, j, t := Usable(c, 0), Usable(d, 0), Run(due, ops);
            && Within(cs, ops) && t.charges == []
            && t.calls == map[0 := Call(key, invoice, c, Charging(i, due[invoice])), 1 := Call(key, invoice, d, Charging(j, due[invoice]))]
  {
    FirstKeysAgreeIff(c, d, key);
    ops := BothLoaded(cs, due, key, invoice, c, d);
    ClaimBoth(due, key, invoice, c, d, due[invoice]);
    hide *;
    RunTwo(due, ops, Execute(0, Held), Execute(1, Held));
    WithinMore(cs, ops, [Execute(0, Held), Execute(1, Held)]);
    ops := ops + [Execute(0, Held), Execute(1, Held)];
  }

  /** Two calls with one key that read lists with different first keys, say
      because a provider's health changed in between: each claims a row of its
      own and both take the money, without any failover. */
  lemma ReorderDoubleCapture(cs: iset<Config>, due: map<nat, int>, key: string, invoice: nat, c: Config, d: Config) returns (ops: seq<Op>)
    requires c in cs && d in cs && Chargeable(c) && Chargeable(d) && !SameFirst(c, d) && invoice in due && due[invoice] > 0
    ensures Within(cs, ops) && !OneCapture(Run(due, ops), key)
  {
    ops := BothClaimed(cs, due, key, invoice, c, d);
    var i, j := Usable(c, 0), Usable(d, 0);
    hide *;
    BothCapture(due, ops, key, i, j, due[invoice]);
    WithinMore(cs, ops, [Execute(0, Captured)]);
    WithinMore(cs, ops + [Execute(0, Captured)], [Execute(1, Captured)]);
    ops := ops + [Execute(0, Captured)] + [Execute(1, Captured)];
  }

  /** Concurrent requests with one idempotency key take the money at most once,
      in every interleaving and whichever of the configurations each call reads,
      if and only if none of them leaves a second provider to fall over to and all
      agree on the key of the first attempt. */
  lemma OneCapturePerKeyIff(cs: iset<Config>, due: map<nat, int>, key: string, invoice: nat)
    requires (forall c :: c in cs ==> DistinctNames(c)) && invoice in due && due[invoice] > 0
    ensures (forall ops :: Within(cs, ops) ==> OneCapture(Run(due, ops), key)) <==> Safe(cs)
  {
    hide DistinctNames;
    hide OneCapture;
    hide Run;
    if c :| c in cs && CanFailOver(c) {
      var ops := FailoverDoubleCapture(cs, due, key, invoice, c);
    } else if c, d :| c in cs && d in cs && Chargeable(c) && Chargeable(d) && !SameFirst(c, d) {
      var ops := ReorderDoubleCapture(cs, due, key, invoice, c, d);
    } else {
      forall ops | Within(cs, ops) ensures OneCapture(Run(due, ops), key) {
        WithoutFailover(cs, due, ops, key);
      }
    }
  }
}
