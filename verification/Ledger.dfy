/** The billing ledger: every sequential run of drafting, issuing, crediting,
    charging and refunding keeps the books balanced. */
module Ledger {
  import opened Attempts
  import opened Money
  import opened Invoices
  import opened Text

  datatype Error = NotFound | Validation | Immutable | Conflict | Forbidden | Upstream | NoProvider

  datatype Reply = Accepted | Replayed(invoice: nat) | Refused(error: Error)

  datatype Applied = Applied(tenant: string, invoice: nat, amount: int)

  /** The tables. `granted` records every credit ever added to an account and
      `applied` every credit taken from one. */
  datatype Books = Books(
    invoices: map<nat, Invoice>,
    nextId: nat,
    balances: map<string, int>,
    granted: seq<Applied>,
    applied: seq<Applied>,
    keys: map<string, nat>,
    sequences: map<string, int>)

  const EMPTY: Books := Books(map[], 0, map[], [], [], map[], map[])

  datatype Method = Method(provider: string, isDefault: bool, active: bool)

  datatype Charging = Charging(key: string, enabled: seq<string>, methods: seq<Method>, failover: bool, outcomes: string -> Outcome)

  // ------------------------------------------------------------------- parts

  function Lookup(b: Books, tenant: string, id: nat): Option<Invoice>
  {
    if id in b.invoices && b.invoices[id].tenant == tenant then Some(b.invoices[id]) else None
  }

  function Put(b: Books, id: nat, i: Invoice): Books
  {
    b.(invoices := b.invoices[id := i])
  }

  function Balance(b: Books, tenant: string): int
  {
    if tenant in b.balances then b.balances[tenant] else 0
  }

  /** The next number of a scope; a missing row stands for 1. */
  function NextNumber(b: Books, scope: string): int
  {
    if scope in b.sequences then b.sequences[scope] else 1
  }

  function TakeNumber(b: Books, scope: string): Books
  {
    b.(sequences := b.sequences[scope := NextNumber(b, scope) + 1])
  }

  function TenantSum(log: seq<Applied>, tenant: string): int
  {
    if log == [] then 0 else
    var k := |log| - 1;
    TenantSum(log[..k], tenant) + if log[k].tenant == tenant then log[k].amount else 0
  }

  function InvoiceSum(log: seq<Applied>, id: nat): int
  {
    if log == [] then 0 else
    var k := |log| - 1;
    InvoiceSum(log[..k], id) + if log[k].invoice == id then log[k].amount else 0
  }

  // -------------------------------------------------------------- operations

  function CreateDraft(b: Books, tenant: string): (Books, Reply)
  {
    (Put(b, b.nextId, NewDraft(tenant)).(nextId := b.nextId + 1), Accepted)
  }

  function AddLine(b: Books, tenant: string, id: nat, line: Line, tax: Tax): (Books, Reply)
  {
    match Lookup(b, tenant, id)
    case None => (b, Refused(NotFound))
    case Some(i) => if Frozen(i) then (b, Refused(Immutable)) else (Put(b, id, WithLine(i, line, tax)), Accepted)
  }

  function IssueInvoice(b: Books, tenant: string, id: nat): (Books, Reply)
  {
    match Lookup(b, tenant, id)
    case None => (b, Refused(NotFound))
    case Some(i) =>
      if Frozen(i) then (b, Refused(Immutable))
      else (Put(TakeNumber(b, "invoice"), id, i.(state := Issued, number := NextNumber(b, "invoice"))), Accepted)
  }

  function MarkInvoiceState(b: Books, tenant: string, id: nat, target: InvoiceState): (Books, Reply)
  {
    match Lookup(b, tenant, id)
    case None => (b, Refused(NotFound))
    case Some(i) =>
      if target == Draft then (b, Refused(Immutable))
      else if !CanTransition(i.state, target) then (b, Refused(Conflict))
      else (Put(b, id, i.(state := target)), Accepted)
  }

  function CreditAccount(b: Books, tenant: string, amount: int): (Books, Reply)
  {
    if amount <= 0 then (b, Accepted)
    else (b.(balances := b.balances[tenant := Balance(b, tenant) + amount],
             granted := b.granted + [Applied(tenant, 0, amount)]), Accepted)
  }

  function Consume(b: Books, tenant: string, id: nat, credit: int): Books
    requires id in b.invoices
  {
    Put(b, id, WithCredit(b.invoices[id], credit)).(
      balances := b.balances[tenant := Balance(b, tenant) - credit],
      applied := b.applied + [Applied(tenant, id, credit)])
  }

  /** Consumes account credit against a freshly issued invoice. */
  function ApplyBalance(b: Books, tenant: string, id: nat): (Books, Reply)
  {
    match Lookup(b, tenant, id)
    case None => (b, Refused(NotFound))
    case Some(i) =>
      var balance, due := Balance(b, tenant), BalanceDue(i);
      if balance <= 0 || due <= 0 then (b, Accepted)
      else (Consume(b, tenant, id, if balance > due then due else balance), Accepted)
  }

  /** How a subscription invoice ends: it is issued, then takes any credit. */
  function IssueAndApply(b: Books, tenant: string, id: nat): (Books, Reply)
  {
    var (issued, r) := IssueInvoice(b, tenant, id);
    if r == Accepted then ApplyBalance(issued, tenant, id) else (issued, r)
  }

  function RecordPayment(b: Books, tenant: string, id: nat, amount: int): (Books, Reply)
  {
    if amount <= 0 then (b, Refused(Validation)) else
    match Lookup(b, tenant, id)
    case None => (b, Refused(NotFound))
    case Some(i) => if !Frozen(i) then (b, Refused(Validation)) else (Put(b, id, WithPayment(i, amount)), Accepted)
  }

  function IssueCreditNote(b: Books, tenant: string, id: nat, amount: int): (Books, Reply)
  {
    match Lookup(b, tenant, id)
    case None => (b, Refused(NotFound))
    case Some(i) =>
      if !Frozen(i) || amount <= 0 || amount > i.total - i.credited then (b, Refused(Validation))
      else (Put(TakeNumber(b, "credit_note"), id, WithNote(i, NextNumber(b, "credit_note"), amount)), Accepted)
  }

  /** The provider gives the money back first; the credit note comes after. */
  function RefundPayment(b: Books, tenant: string, id: nat, amount: int, providerOk: bool): (Books, Reply)
  {
    match Lookup(b, tenant, id)
    case None => (b, Refused(NotFound))
    case Some(i) =>
      if amount <= 0 || amount > i.paid then (b, Refused(Validation))
      else if Successes(i.attempts) == 0 then (b, Refused(Validation))
      else if !providerOk then (b, Refused(Upstream))
      else
        var sent := Put(b, id, i.(sent := i.sent + [amount]));
        var (noted, r) := IssueCreditNote(sent, tenant, id, amount);
        if r != Accepted || id !in noted.invoices then (noted, r)
        else (Put(noted, id, noted.invoices[id].(refunds := i.refunds + [amount])), Accepted)
  }

  /** The default active instrument for a provider, else any active one. */
  function PickMethod(methods: seq<Method>, provider: string): Option<Method>
  {
    if FirstMethod(methods, provider, true).Some? then FirstMethod(methods, provider, true)
    else FirstMethod(methods, provider, false)
  }

  function FirstMethod(methods: seq<Method>, provider: string, onlyDefault: bool): Option<Method>
  {
    if methods == [] then None
    else if methods[0].provider == provider && methods[0].active && (methods[0].isDefault || !onlyDefault) then Some(methods[0])
    else FirstMethod(methods[1..], provider, onlyDefault)
  }

  function StoredKey(c: Charging, i: nat): string
    requires i < |c.enabled|
  {
    AttemptKey(c.key, i, c.enabled[i])
  }

  /** One provider: claims the key, charges, and books a capture. */
  function ChargeThrough(b: Books, id: nat, c: Charging, i: nat, amount: int): Books
    requires id in b.invoices && i < |c.enabled|
  {
    var key, o := StoredKey(c, i), c.outcomes(c.enabled[i]);
    if key in b.keys then b else
    var inv := b.invoices[id];
    var tried := inv.(attempts := inv.attempts + [Attempt(key, c.enabled[i], amount, AttemptState(o))]);
    Put(b, id, if o == Captured then WithPayment(tried, amount) else tried).(keys := b.keys[key := id])
  }

  /** A capture through provider `i` ends the loop. */
  predicate Stops(b: Books, c: Charging, i: nat)
    requires i < |c.enabled|
  {
    (StoredKey(c, i) !in b.keys && c.outcomes(c.enabled[i]) == Captured) || !c.failover
  }

  /** The failover loop from provider `i` on. */
  function ChargeFrom(b: Books, id: nat, c: Charging, i: nat, amount: int): Books
    requires id in b.invoices && i <= |c.enabled|
    decreases |c.enabled| - i
  {
    if i == |c.enabled| then b
    else if PickMethod(c.methods, c.enabled[i]).None? then ChargeFrom(b, id, c, i + 1, amount)
    else
      var next := ChargeThrough(b, id, c, i, amount);
      if Stops(b, c, i) then next else ChargeFrom(next, id, c, i + 1, amount)
  }

  function ChargeInvoice(b: Books, tenant: string, id: nat, c: Charging): (Books, Reply)
  {
    if TrimSpace(c.key) == "" then (b, Refused(Validation))
    else if c.key in b.keys then
      if Lookup(b, tenant, b.keys[c.key]).Some? then (b, Replayed(b.keys[c.key])) else (b, Refused(Forbidden))
    else
      match Lookup(b, tenant, id)
      case None => (b, Refused(NotFound))
      case Some(inv) =>
        if BalanceDue(inv) <= 0 || !Frozen(inv) || c.methods == [] then (b, Refused(Validation))
        else if c.enabled == [] then (b, Refused(NoProvider))
        else (ChargeFrom(b, id, c, 0, BalanceDue(inv)), Accepted)
  }

  // -------------------------------------------------------------------- runs

  datatype Op =
    | OpDraft(tenant: string)
    | OpLine(tenant: string, id: nat, line: Line, tax: Tax)
    | OpIssue(tenant: string, id: nat)
    | OpMark(tenant: string, id: nat, target: InvoiceState)
    | OpGrant(tenant: string, amount: int)
    | OpIssueAndApply(tenant: string, id: nat)
    | OpPay(tenant: string, id: nat, amount: int)
    | OpNote(tenant: string, id: nat, amount: int)
    | OpRefund(tenant: string, id: nat, amount: int, providerOk: bool)
    | OpCharge(tenant: string, id: nat, charging: Charging)

  function Apply(b: Books, op: Op): (Books, Reply)
  {
    match op
    case OpDraft(t) => CreateDraft(b, t)
    case OpLine(t, id, line, tax) => AddLine(b, t, id, line, tax)
    case OpIssue(t, id) => IssueInvoice(b, t, id)
    case OpMark(t, id, target) => MarkInvoiceState(b, t, id, target)
    case OpGrant(t, amount) => CreditAccount(b, t, amount)
    case OpIssueAndApply(t, id) => IssueAndApply(b, t, id)
    case OpPay(t, id, amount) => RecordPayment(b, t, id, amount)
    case OpNote(t, id, amount) => IssueCreditNote(b, t, id, amount)
    case OpRefund(t, id, amount, ok) => RefundPayment(b, t, id, amount, ok)
    case OpCharge(t, id, c) => ChargeInvoice(b, t, id, c)
  }

  function Run(ops: seq<Op>): Books
  {
    if ops == [] then EMPTY else Apply(Run(ops[..|ops| - 1]), ops[|ops| - 1]).0
  }

  // --------------------------------------------------------------- invariant

  predicate InvoicesOk(b: Books)
  {
    forall id :: id in b.invoices ==> id < b.nextId && Balanced(b.invoices[id], InvoiceSum(b.applied, id))
  }

  predicate AppliedOk(b: Books)
  {
    forall k :: 0 <= k < |b.applied| ==>
      && b.applied[k].invoice in b.invoices
      && b.invoices[b.applied[k].invoice].tenant == b.applied[k].tenant
      && b.applied[k].amount > 0
  }

  /** An account holds what was granted less what was applied. */
  ghost predicate AccountsOk(b: Books)
  {
    forall t :: Balance(b, t) == TenantSum(b.granted, t) - TenantSum(b.applied, t) && Balance(b, t) >= 0
  }

  ghost predicate Inv(b: Books)
  {
    InvoicesOk(b) && AppliedOk(b) && AccountsOk(b)
  }

  predicate Extends(b: Books, d: Books)
  {
    && (forall id :: id in b.invoices ==> id in d.invoices && Continues(b.invoices[id], d.invoices[id]))
    && b.granted <= d.granted && b.applied <= d.applied
  }

  lemma ExtendsTransitive(b: Books, d: Books, e: Books)
    requires Extends(b, d) && Extends(d, e)
    ensures Extends(b, e)
  {
    forall id | id in b.invoices ensures id in e.invoices && Continues(b.invoices[id], e.invoices[id]) {
      ContinuesTransitive(b.invoices[id], d.invoices[id], e.invoices[id]);
    }
  }

  /** One invoice is replaced by a continuation of it. */
  predicate Replaces(b: Books, d: Books, id: nat, i: Invoice)
  {
    id in b.invoices && Continues(b.invoices[id], i) && d.invoices == b.invoices[id := i] && d.nextId == b.nextId
  }

  lemma ReplacesInvoices(b: Books, d: Books, id: nat, i: Invoice)
    requires InvoicesOk(b) && Replaces(b, d, id, i)
    requires Balanced(i, InvoiceSum(d.applied, id))
    requires forall k :: k in b.invoices && k != id ==> InvoiceSum(d.applied, k) == InvoiceSum(b.applied, k)
    ensures InvoicesOk(d)
  {
    hide Balanced;
    hide Continues;
    hide InvoiceSum;
  }

  lemma ReplacesExtends(b: Books, d: Books, id: nat, i: Invoice)
    requires Replaces(b, d, id, i) && b.granted <= d.granted && b.applied <= d.applied
    ensures Extends(b, d)
  {
    hide Continues;
    forall k | k in b.invoices ensures Continues(b.invoices[k], d.invoices[k]) {
      ContinuesReflexive(b.invoices[k]);
    }
  }

  lemma ReplacesApplied(b: Books, d: Books, id: nat, i: Invoice)
    requires AppliedOk(b) && Replaces(b, d, id, i)
    requires forall k :: 0 <= k < |d.applied| ==>
               || (k < |b.applied| && d.applied[k] == b.applied[k])
               || (d.applied[k].invoice == id && d.applied[k].tenant == i.tenant && d.applied[k].amount > 0)
    ensures AppliedOk(d)
  {
    ContinuesTenant(b.invoices[id], i);
    hide Continues;
  }

  /** Changing one invoice and neither accounts nor applied credit. */
  lemma PutKeeps(b: Books, id: nat, i: Invoice, d: Books)
    requires Inv(b) && Replaces(b, d, id, i) && Balanced(i, InvoiceSum(b.applied, id))
    requires d.balances == b.balances && d.granted == b.granted && d.applied == b.applied
    ensures Inv(d) && Extends(b, d)
  {
    hide AccountsOk;
    hide Replaces;
    hide Balanced;
    hide InvoicesOk;
    hide AppliedOk;
    AccountsSame(b, d);
    ReplacesInvoices(b, d, id, i);
    ReplacesExtends(b, d, id, i);
    ReplacesApplied(b, d, id, i);
  }

  lemma ContinuesTenant(i: Invoice, j: Invoice)
    requires Continues(i, j)
    ensures i.tenant == j.tenant
  {
  }

  lemma ContinuesReflexive(i: Invoice)
    ensures Continues(i, i)
  {
  }

  lemma Same(b: Books)
    ensures Extends(b, b)
  {
  }

  lemma {:induction false} NoInvoiceSum(log: seq<Applied>, id: nat)
    requires forall k :: 0 <= k < |log| ==> log[k].invoice != id
    ensures InvoiceSum(log, id) == 0
  {
    if log != [] {
      NoInvoiceSum(log[..|log| - 1], id);
    }
  }

  lemma SumSnoc(log: seq<Applied>, a: Applied, t: string, id: nat)
    ensures TenantSum(log + [a], t) == TenantSum(log, t) + if a.tenant == t then a.amount else 0
    ensures InvoiceSum(log + [a], id) == InvoiceSum(log, id) + if a.invoice == id then a.amount else 0
  {
    assert (log + [a])[..|log|] == log;
  }

  /** Books that agree on accounts and credits agree on their balance. */
  lemma AccountsSame(b: Books, d: Books)
    requires AccountsOk(b) && d.balances == b.balances && d.granted == b.granted && d.applied == b.applied
    ensures AccountsOk(d)
  {
    hide TenantSum;
    forall t ensures Balance(d, t) == TenantSum(d.granted, t) - TenantSum(d.applied, t) && Balance(d, t) >= 0 {
      assert Balance(b, t) >= 0;
    }
  }

  /** Account credit moves by what is granted or applied. */
  lemma AccountsMove(b: Books, d: Books, a: Applied, grant: bool)
    requires AccountsOk(b) && (grant ==> a.amount >= 0) && (!grant ==> a.amount <= Balance(b, a.tenant))
    requires d.balances == b.balances[a.tenant := Balance(b, a.tenant) + if grant then a.amount else -a.amount]
    requires d.granted == b.granted + if grant then [a] else []
    requires d.applied == b.applied + if grant then [] else [a]
    ensures AccountsOk(d)
  {
    hide TenantSum;
    assert b.granted + [] == b.granted && b.applied + [] == b.applied;
    forall t ensures Balance(d, t) == TenantSum(d.granted, t) - TenantSum(d.applied, t) && Balance(d, t) >= 0 {
      assert Balance(b, t) >= 0;
      SumSnoc(if grant then b.granted else b.applied, a, t, 0);
    }
  }

  lemma DraftBalanced(tenant: string)
    ensures Balanced(NewDraft(tenant), 0)
  {
  }

  lemma DraftKeeps(b: Books, tenant: string)
    requires Inv(b)
    ensures Inv(CreateDraft(b, tenant).0) && Extends(b, CreateDraft(b, tenant).0)
  {
    DraftBalanced(tenant);
    hide AccountsOk;
    hide Balanced;
    hide NewDraft;
    hide InvoiceSum;
    hide Continues;
    var d := CreateDraft(b, tenant).0;
    assert b.nextId !in b.invoices;
    NoInvoiceSum(b.applied, b.nextId);
    AccountsSame(b, d);
    assert InvoicesOk(d);
    assert AppliedOk(d);
    forall k | k in b.invoices ensures Continues(b.invoices[k], d.invoices[k]) {
      ContinuesReflexive(b.invoices[k]);
    }
  }

  lemma LineOpKeeps(b: Books, tenant: string, id: nat, line: Line, tax: Tax)
    requires Inv(b)
    ensures Inv(AddLine(b, tenant, id, line, tax).0) && Extends(b, AddLine(b, tenant, id, line, tax).0)
  {
    hide AccountsOk;
    hide AppliedOk;
    hide Balanced;
    hide Continues;
    hide InvoiceSum;
    Same(b);
    if Lookup(b, tenant, id).Some? && !Frozen(b.invoices[id]) {
      var i := b.invoices[id];
      LineKeeps(i, line, tax, InvoiceSum(b.applied, id));
      PutKeeps(b, id, WithLine(i, line, tax), AddLine(b, tenant, id, line, tax).0);
    }
  }

  lemma IssueKeeps(b: Books, tenant: string, id: nat)
    requires Inv(b)
    ensures Inv(IssueInvoice(b, tenant, id).0) && Extends(b, IssueInvoice(b, tenant, id).0)
    ensures IssueInvoice(b, tenant, id).1 == Accepted ==>
              id in IssueInvoice(b, tenant, id).0.invoices && Frozen(IssueInvoice(b, tenant, id).0.invoices[id])
  {
    hide AccountsOk;
    hide AppliedOk;
    hide Balanced;
    hide Continues;
    hide InvoiceSum;
    Same(b);
    if Lookup(b, tenant, id).Some? && !Frozen(b.invoices[id]) {
      var i := b.invoices[id].(state := Issued, number := NextNumber(b, "invoice"));
      assert Balanced(b.invoices[id], InvoiceSum(b.applied, id));
      RestateKeeps(b.invoices[id], i.state, i.number, InvoiceSum(b.applied, id));
      PutKeeps(b, id, i, IssueInvoice(b, tenant, id).0);
    }
  }

  lemma MarkKeeps(b: Books, tenant: string, id: nat, target: InvoiceState)
    requires Inv(b)
    ensures Inv(MarkInvoiceState(b, tenant, id, target).0) && Extends(b, MarkInvoiceState(b, tenant, id, target).0)
  {
    hide AccountsOk;
    hide AppliedOk;
    hide Balanced;
    hide Continues;
    hide InvoiceSum;
    Same(b);
    if Lookup(b, tenant, id).Some? && target != Draft && CanTransition(b.invoices[id].state, target) {
      var i := b.invoices[id].(state := target);
      assert Balanced(b.invoices[id], InvoiceSum(b.applied, id));
      RestateKeeps(b.invoices[id], i.state, i.number, InvoiceSum(b.applied, id));
      PutKeeps(b, id, i, MarkInvoiceState(b, tenant, id, target).0);
    }
  }

  lemma SameInvoices(b: Books, d: Books)
    requires d.invoices == b.invoices && b.granted <= d.granted && b.applied <= d.applied
    ensures Extends(b, d)
  {
    hide Continues;
    forall k | k in b.invoices ensures Continues(b.invoices[k], d.invoices[k]) {
      ContinuesReflexive(b.invoices[k]);
    }
  }

  lemma GrantKeeps(b: Books, tenant: string, amount: int)
    requires Inv(b)
    ensures Inv(CreditAccount(b, tenant, amount).0) && Extends(b, CreditAccount(b, tenant, amount).0)
  {
    hide AccountsOk;
    hide Balanced;
    hide Continues;
    var d := CreditAccount(b, tenant, amount).0;
    Same(b);
    if amount > 0 {
      AccountsMove(b, d, Applied(tenant, 0, amount), true);
      SameInvoices(b, d);
    }
  }

  lemma ConsumeKeeps(b: Books, tenant: string, id: nat, credit: int)
    requires Inv(b) && id in b.invoices && Frozen(b.invoices[id]) && b.invoices[id].tenant == tenant
    requires 0 < credit <= BalanceDue(b.invoices[id]) && credit <= Balance(b, tenant)
    ensures Inv(Consume(b, tenant, id, credit)) && Extends(b, Consume(b, tenant, id, credit))
  {
    hide AccountsOk;
    hide Balanced;
    hide Continues;
    hide WithCredit;
    hide BalanceDue;
    hide AppliedOk;
    var d, i := Consume(b, tenant, id, credit), b.invoices[id];
    var a, j := Applied(tenant, id, credit), WithCredit(i, credit);
    CreditKeeps(i, credit, InvoiceSum(b.applied, id));
    ContinuesTenant(i, j);
    AccountsMove(b, d, a, false);
    forall k ensures InvoiceSum(d.applied, k) == InvoiceSum(b.applied, k) + if k == id then credit else 0 {
      SumSnoc(b.applied, a, tenant, k);
    }
    hide InvoiceSum;
    assert Replaces(b, d, id, j);
    hide Replaces;
    ReplacesInvoices(b, d, id, j);
    hide InvoicesOk;
    ReplacesExtends(b, d, id, j);
    ReplacesApplied(b, d, id, j);
  }

  lemma ApplyBalanceKeeps(b: Books, tenant: string, id: nat)
    requires Inv(b) && id in b.invoices && Frozen(b.invoices[id])
    ensures Inv(ApplyBalance(b, tenant, id).0) && Extends(b, ApplyBalance(b, tenant, id).0)
  {
    Same(b);
    hide Inv;
    hide Extends;
    hide Consume;
    if Lookup(b, tenant, id).Some? && Balance(b, tenant) > 0 && BalanceDue(b.invoices[id]) > 0 {
      var balance, due := Balance(b, tenant), BalanceDue(b.invoices[id]);
      ConsumeKeeps(b, tenant, id, if balance > due then due else balance);
    }
  }

  lemma IssueAndApplyKeeps(b: Books, tenant: string, id: nat)
    requires Inv(b)
    ensures Inv(IssueAndApply(b, tenant, id).0) && Extends(b, IssueAndApply(b, tenant, id).0)
  {
    IssueKeeps(b, tenant, id);
    var (d, r) := IssueInvoice(b, tenant, id);
    hide Inv;
    hide Extends;
    hide IssueInvoice;
    if r == Accepted {
      ApplyBalanceKeeps(d, tenant, id);
      ExtendsTransitive(b, d, ApplyBalance(d, tenant, id).0);
    }
  }

  lemma PayKeeps(b: Books, tenant: string, id: nat, amount: int)
    requires Inv(b)
    ensures Inv(RecordPayment(b, tenant, id, amount).0) && Extends(b, RecordPayment(b, tenant, id, amount).0)
  {
    hide AccountsOk;
    hide AppliedOk;
    hide Balanced;
    hide Continues;
    hide InvoiceSum;
    Same(b);
    if amount > 0 && Lookup(b, tenant, id).Some? && Frozen(b.invoices[id]) {
      PaymentKeeps(b.invoices[id], amount, InvoiceSum(b.applied, id));
      PutKeeps(b, id, WithPayment(b.invoices[id], amount), RecordPayment(b, tenant, id, amount).0);
    }
  }

  lemma NoteOpKeeps(b: Books, tenant: string, id: nat, amount: int)
    requires Inv(b)
    ensures Inv(IssueCreditNote(b, tenant, id, amount).0) && Extends(b, IssueCreditNote(b, tenant, id, amount).0)
  {
    hide AccountsOk;
    hide AppliedOk;
    hide Balanced;
    hide Continues;
    hide InvoiceSum;
    Same(b);
    if IssueCreditNote(b, tenant, id, amount).1 == Accepted {
      var i, n := b.invoices[id], NextNumber(b, "credit_note");
      NoteKeeps(i, n, amount, InvoiceSum(b.applied, id));
      PutKeeps(b, id, WithNote(i, n, amount), IssueCreditNote(b, tenant, id, amount).0);
    }
  }

  /** A change of state that does not lead back to draft. */
  lemma RestateKeeps(i: Invoice, state: InvoiceState, number: int, applied: int)
    requires Balanced(i, applied) && state != Draft && (Frozen(i) ==> number == i.number)
    ensures var j := i.(state := state, number := number); Balanced(j, applied) && Continues(i, j)
  {
  }

  // ----------------------------------------------------------------- refunds

  lemma RefundBooked(i: Invoice, number: int, amount: int, applied: int)
    requires Balanced(i, applied) && Frozen(i) && Successes(i.attempts) == 1 && 0 < amount <= i.total - i.credited
    ensures var s := i.(sent := i.sent + [amount]);
            var j := WithNote(s, number, amount).(refunds := i.refunds + [amount]);
            Balanced(j, applied) && Continues(i, j)
  {
    var s := i.(sent := i.sent + [amount]);
    NoteKeeps(s, number, amount, applied);
    SumsSnoc([], Line(0, 0, 0), [], CreditNote(0, 0, 0), i.refunds, amount, [], Attempt("", "", 0, Pending));
    var n := WithNote(s, number, amount);
    NoteFields(s, number, amount);
    hide WithNote;
    assert Sum(n.refunds) == Sum(i.refunds);
  }

  lemma NoteFields(i: Invoice, number: int, amount: int)
    ensures var j := WithNote(i, number, amount);
            j.refunds == i.refunds && j.attempts == i.attempts && j.paid == i.paid && j.total == i.total &&
            j.credited == i.credited + amount
  {
    hide Prorate;
  }

  lemma SentKeeps(i: Invoice, amount: int, applied: int)
    requires Balanced(i, applied)
    ensures var s := i.(sent := i.sent + [amount]); Balanced(s, applied) && Continues(i, s)
    ensures Successes(i.attempts) > 0 ==> Successes(i.attempts) == 1 && Frozen(i)
  {
  }

  lemma RefundKeeps(b: Books, tenant: string, id: nat, amount: int, ok: bool)
    requires Inv(b)
    ensures Inv(RefundPayment(b, tenant, id, amount, ok).0) && Extends(b, RefundPayment(b, tenant, id, amount, ok).0)
  {
    hide AccountsOk;
    hide AppliedOk;
    hide Balanced;
    hide Continues;
    hide InvoiceSum;
    Same(b);
    var d := RefundPayment(b, tenant, id, amount, ok).0;
    if Lookup(b, tenant, id).Some? && 0 < amount <= b.invoices[id].paid && Successes(b.invoices[id].attempts) > 0 && ok {
      var i, applied := b.invoices[id], InvoiceSum(b.applied, id);
      var s, number := i.(sent := i.sent + [amount]), NextNumber(b, "credit_note");
      assert Balanced(i, applied);
      SentKeeps(i, amount, applied);
      if amount <= i.total - i.credited {
        RefundBooked(i, number, amount, applied);
        PutKeeps(b, id, WithNote(s, number, amount).(refunds := i.refunds + [amount]), d);
      } else {
        PutKeeps(b, id, s, d);
      }
    }
  }

  /** Once the provider has agreed, the refund is recorded exactly when the
      amount still fits under the uncredited part of the invoice; otherwise the
      money is gone and the books say nothing. */
  lemma RefundRecordedIff(b: Books, tenant: string, id: nat, amount: int)
    requires Inv(b) && Lookup(b, tenant, id).Some?
    requires var i := b.invoices[id]; 0 < amount <= i.paid && Successes(i.attempts) > 0
    ensures var i, j := b.invoices[id], RefundPayment(b, tenant, id, amount, true).0.invoices[id];
            && j.sent == i.sent + [amount]
            && (j.refunds == i.refunds + [amount] <==> amount <= i.total - i.credited)
            && (amount > i.total - i.credited ==> j == i.(sent := i.sent + [amount]))
  {
    hide AccountsOk;
    hide AppliedOk;
    hide Balanced;
    hide Continues;
    hide InvoiceSum;
    var i := b.invoices[id];
    assert Balanced(i, InvoiceSum(b.applied, id));
    SentKeeps(i, amount, InvoiceSum(b.applied, id));
    var s := i.(sent := i.sent + [amount]);
    var n := NextNumber(b, "credit_note");
    NoteFields(s, n, amount);
    assert WithNote(s, n, amount).sent == s.sent by { hide Prorate; }
    hide WithNote;
  }

  // ----------------------------------------------------------------- charges

  function Tried(i: Invoice, at: Attempt): Invoice
  {
    i.(attempts := i.attempts + [at])
  }

  /** An attempt that did not take the money changes nothing else. */
  lemma TriedKeeps(i: Invoice, at: Attempt, applied: int)
    requires Balanced(i, applied) && Frozen(i) && at.state != Succeeded
    ensures Balanced(Tried(i, at), applied) && Continues(i, Tried(i, at))
    ensures Successes(Tried(i, at).attempts) == Successes(i.attempts)
    ensures BalanceDue(Tried(i, at)) == BalanceDue(i)
  {
    SumsSnoc([], Line(0, 0, 0), [], CreditNote(0, 0, 0), [], 0, i.attempts, at);
  }

  /** A capture of the whole balance is the one success the invoice will see. */
  lemma CaptureKeeps(i: Invoice, at: Attempt, applied: int)
    requires Balanced(i, applied) && Frozen(i) && at.state == Succeeded && at.amount == BalanceDue(i) > 0
    ensures var j := WithPayment(Tried(i, at), at.amount);
            && Balanced(j, applied) && Continues(i, j)
            && j.attempts == i.attempts + [at]
            && Successes(i.attempts) == 0 && Successes(j.attempts) == 1
            && j.paid == i.paid + at.amount
            && BalanceDue(j) == 0
  {
    AttemptSnoc(i.attempts, at);
    var paid := Tried(i, at).(paid := i.paid + at.amount);
    hide Successes;
    hide LineSum;
    hide NoteSum;
    hide Sum;
    assert Balanced(paid, applied) && Continues(i, paid) && BalanceDue(paid) == 0;
    hide Balanced;
    hide Continues;
    hide BalanceDue;
    SettledKeeps(i, paid, applied);
    SettledOnlyMovesState(paid);
    hide Settled;
    BalanceOfSame(paid, WithPayment(Tried(i, at), at.amount));
  }

  lemma AttemptSnoc(attempts: seq<Attempt>, at: Attempt)
    ensures Successes(attempts + [at]) == Successes(attempts) + if at.state == Succeeded then 1 else 0
  {
    assert (attempts + [at])[..|attempts|] == attempts;
  }

  lemma BalanceOfSame(i: Invoice, j: Invoice)
    requires j == i.(state := j.state)
    ensures BalanceDue(j) == BalanceDue(i)
  {
  }

  /** The charge took nothing. */
  predicate Unsettled(i: Invoice, j: Invoice)
  {
    Successes(j.attempts) == Successes(i.attempts) && j.paid == i.paid && BalanceDue(j) == BalanceDue(i)
  }

  /** The charge took nothing, or it took exactly the balance, once. */
  predicate Charged(i: Invoice, j: Invoice)
  {
    || Unsettled(i, j)
    || (&& Successes(i.attempts) == 0 && Successes(j.attempts) == 1
        && j.attempts != [] && j.attempts[|j.attempts| - 1].state == Succeeded
        && j.attempts[|j.attempts| - 1].amount == BalanceDue(i)
        && j.paid == i.paid + BalanceDue(i) && BalanceDue(j) == 0)
  }

  lemma ChargeThroughKeeps(b: Books, id: nat, c: Charging, i: nat, amount: int)
    requires Inv(b) && id in b.invoices && Frozen(b.invoices[id]) && i < |c.enabled|
    requires amount == BalanceDue(b.invoices[id]) > 0
    ensures var d := ChargeThrough(b, id, c, i, amount);
            && Inv(d) && Extends(b, d) && id in d.invoices
            && Charged(b.invoices[id], d.invoices[id])
            && (!Stops(b, c, i) ==> Frozen(d.invoices[id]) && Unsettled(b.invoices[id], d.invoices[id]))
  {
    hide AccountsOk;
    hide AppliedOk;
    hide Balanced;
    hide Continues;
    hide InvoiceSum;
    hide BalanceDue;
    hide StoredKey;
    hide WithPayment;
    var inv := b.invoices[id];
    var key, o := StoredKey(c, i), c.outcomes(c.enabled[i]);
    var at := Attempt(key, c.enabled[i], amount, AttemptState(o));
    Same(b);
    if key !in b.keys {
      var applied := InvoiceSum(b.applied, id);
      var d := ChargeThrough(b, id, c, i, amount);
      if o == Captured {
        CaptureKeeps(inv, at, applied);
        PutKeeps(b, id, WithPayment(Tried(inv, at), amount), d);
      } else {
        TriedKeeps(inv, at, applied);
        PutKeeps(b, id, Tried(inv, at), d);
      }
    }
  }

  lemma {:induction false} ChargeFromKeeps(b: Books, id: nat, c: Charging, i: nat, amount: int)
    requires Inv(b) && id in b.invoices && Frozen(b.invoices[id]) && i <= |c.enabled|
    requires amount == BalanceDue(b.invoices[id]) > 0
    ensures var d := ChargeFrom(b, id, c, i, amount);
            Inv(d) && Extends(b, d) && id in d.invoices && Charged(b.invoices[id], d.invoices[id])
    decreases |c.enabled| - i
  {
    hide Inv;
    hide Continues;
    hide ChargeThrough;
    hide PickMethod;
    Same(b);
    if i < |c.enabled| {
      if PickMethod(c.methods, c.enabled[i]).None? {
        ChargeFromKeeps(b, id, c, i + 1, amount);
      } else {
        ChargeThroughKeeps(b, id, c, i, amount);
        var next := ChargeThrough(b, id, c, i, amount);
        hide Extends;
        if !Stops(b, c, i) {
          ChargeFromKeeps(next, id, c, i + 1, amount);
          ExtendsTransitive(b, next, ChargeFrom(next, id, c, i + 1, amount));
        }
      }
    }
  }

  lemma ChargeKeeps(b: Books, tenant: string, id: nat, c: Charging)
    requires Inv(b)
    ensures Inv(ChargeInvoice(b, tenant, id, c).0) && Extends(b, ChargeInvoice(b, tenant, id, c).0)
    ensures id in b.invoices ==>
              id in ChargeInvoice(b, tenant, id, c).0.invoices &&
              Charged(b.invoices[id], ChargeInvoice(b, tenant, id, c).0.invoices[id])
  {
    hide Inv;
    hide ChargeFrom;
    hide Continues;
    Same(b);
    if Lookup(b, tenant, id).Some? && BalanceDue(b.invoices[id]) > 0 && Frozen(b.invoices[id]) {
      ChargeFromKeeps(b, id, c, 0, BalanceDue(b.invoices[id]));
    }
  }

  // ---------------------------------------------------------------- theorems

  lemma ApplyKeeps(b: Books, op: Op)
    requires Inv(b)
    ensures Inv(Apply(b, op).0) && Extends(b, Apply(b, op).0)
  {
    hide Inv;
    hide Extends;
    match op
    case OpDraft(t) => DraftKeeps(b, t);
    case OpLine(t, id, line, tax) => LineOpKeeps(b, t, id, line, tax);
    case OpIssue(t, id) => IssueKeeps(b, t, id);
    case OpMark(t, id, target) => MarkKeeps(b, t, id, target);
    case OpGrant(t, amount) => GrantKeeps(b, t, amount);
    case OpIssueAndApply(t, id) => IssueAndApplyKeeps(b, t, id);
    case OpPay(t, id, amount) => PayKeeps(b, t, id, amount);
    case OpNote(t, id, amount) => NoteOpKeeps(b, t, id, amount);
    case OpRefund(t, id, amount, ok) => RefundKeeps(b, t, id, amount, ok);
    case OpCharge(t, id, c) => ChargeKeeps(b, t, id, c);
  }

  lemma {:induction false} RunInvariant(ops: seq<Op>)
    ensures Inv(Run(ops))
  {
    if ops == [] {
      hide Balanced;
    } else {
      hide Inv;
      hide Apply;
      RunInvariant(ops[..|ops| - 1]);
      ApplyKeeps(Run(ops[..|ops| - 1]), ops[|ops| - 1]);
    }
  }

  lemma {:induction false} RunExtends(ops: seq<Op>, k: nat)
    requires k <= |ops|
    ensures Extends(Run(ops[..k]), Run(ops))
    decreases |ops|
  {
    hide Extends;
    hide Apply;
    if k == |ops| {
      assert ops[..k] == ops;
      Same(Run(ops));
    } else {
      var init := ops[..|ops| - 1];
      RunExtends(init, k);
      assert init[..k] == ops[..k];
      RunInvariant(init);
      hide Inv;
      ApplyKeeps(Run(init), ops[|ops| - 1]);
      ExtendsTransitive(Run(ops[..k]), Run(init), Run(ops));
    }
  }

  /** After every run, every invoice balances: credits are credit notes plus
      consumed account credit and stay within the total; recorded refunds stay
      within what was credited and within what was paid; at most one attempt
      ever took the money, and then nothing is left to pay. */
  lemma LedgerBalances(ops: seq<Op>, id: nat)
    requires id in Run(ops).invoices
    ensures var b, i := Run(ops), Run(ops).invoices[id];
            && i.total == ClampNonNegative(LineSum(i.lines) - i.discount) + i.tax
            && 0 <= i.credited <= i.total
            && i.credited == NoteSum(i.notes) + InvoiceSum(b.applied, id)
            && Sum(i.refunds) <= i.credited && Sum(i.refunds) <= i.paid
            && Successes(i.attempts) <= 1
            && (Successes(i.attempts) == 1 ==> BalanceDue(i) == 0)
  {
    hide Run;
    RunInvariant(ops);
    BalancedBounds(Run(ops).invoices[id], InvoiceSum(Run(ops).applied, id));
  }

  /** Every account holds exactly what was granted less what invoices consumed. */
  lemma AccountConservation(ops: seq<Op>, tenant: string)
    ensures var b := Run(ops);
            Balance(b, tenant) == TenantSum(b.granted, tenant) - TenantSum(b.applied, tenant) && Balance(b, tenant) >= 0
  {
    hide Run;
    RunInvariant(ops);
    hide TenantSum;
  }

  /** From the moment an invoice is issued its lines and figures never change,
      and once nothing is due nothing becomes due again. */
  lemma IssuedFiguresAreFinal(ops: seq<Op>, k: nat, id: nat)
    requires k <= |ops| && id in Run(ops[..k]).invoices && Frozen(Run(ops[..k]).invoices[id])
    ensures id in Run(ops).invoices
    ensures var i, j := Run(ops[..k]).invoices[id], Run(ops).invoices[id];
            && Frozen(j) && j.number == i.number && j.lines == i.lines && j.discount == i.discount
            && j.subtotal == i.subtotal && j.tax == i.tax && j.total == i.total
            && BalanceDue(j) <= BalanceDue(i)
            && i.notes <= j.notes && i.attempts <= j.attempts && i.refunds <= j.refunds
  {
    RunExtends(ops, k);
  }

  /** A charge that succeeds took exactly the balance then due, and clears it. */
  lemma ChargeTakesTheBalance(ops: seq<Op>, tenant: string, id: nat, c: Charging)
    requires id in Run(ops).invoices
    ensures var i, d := Run(ops).invoices[id], ChargeInvoice(Run(ops), tenant, id, c).0;
            id in d.invoices && Charged(i, d.invoices[id])
  {
    hide Run;
    RunInvariant(ops);
    ChargeKeeps(Run(ops), tenant, id, c);
  }

  /** A pass that left something due has claimed every key it would use again,
      so a second pass finds them taken. */
  lemma {:induction false} SecondPassIsIdle(b: Books, id: nat, c: Charging, i: nat, amount: int, d: Books, again: Charging)
    requires Inv(b) && id in b.invoices && Frozen(b.invoices[id]) && i <= |c.enabled|
    requires amount == BalanceDue(b.invoices[id]) > 0
    requires ChargeFrom(b, id, c, i, amount) == d && id in d.invoices && BalanceDue(d.invoices[id]) > 0
    requires again == c.(outcomes := again.outcomes)
    ensures ChargeFrom(d, id, again, i, amount) == d
    ensures b.keys.Keys <= d.keys.Keys
    decreases |c.enabled| - i
  {
    hide Inv;
    hide PickMethod;
    hide BalanceDue;
    hide StoredKey;
    if i < |c.enabled| {
      assert StoredKey(again, i) == StoredKey(c, i) by { SameKey(c, again, i); }
      if PickMethod(c.methods, c.enabled[i]).None? {
        SecondPassIsIdle(b, id, c, i + 1, amount, d, again);
      } else {
        ChargeThroughKeeps(b, id, c, i, amount);
        CaptureClears(b, id, c, i, amount);
        var next := ChargeThrough(b, id, c, i, amount);
        assert StoredKey(c, i) in next.keys && b.keys.Keys <= next.keys.Keys;
        if !Stops(b, c, i) {
          SecondPassIsIdle(next, id, c, i + 1, amount, d, again);
        }
      }
    }
  }

  lemma SameKey(c: Charging, again: Charging, i: nat)
    requires i < |c.enabled| && again.key == c.key && again.enabled == c.enabled
    ensures StoredKey(again, i) == StoredKey(c, i)
  {
  }

  lemma CaptureClears(b: Books, id: nat, c: Charging, i: nat, amount: int)
    requires Inv(b) && id in b.invoices && Frozen(b.invoices[id]) && i < |c.enabled|
    requires amount == BalanceDue(b.invoices[id]) > 0
    ensures StoredKey(c, i) !in b.keys && c.outcomes(c.enabled[i]) == Captured ==>
              BalanceDue(ChargeThrough(b, id, c, i, amount).invoices[id]) == 0
  {
    hide AccountsOk;
    hide AppliedOk;
    hide Balanced;
    hide Continues;
    hide BalanceDue;
    hide StoredKey;
    hide WithPayment;
    hide InvoiceSum;
    var at := Attempt(StoredKey(c, i), c.enabled[i], amount, Succeeded);
    CaptureKeeps(b.invoices[id], at, InvoiceSum(b.applied, id));
  }

  /** Repeating a charge under the same key, with the same provider list and
      instruments, changes nothing, whatever the providers would answer. */
  lemma SameListReplay(b: Books, tenant: string, id: nat, c: Charging, again: Charging)
    requires Inv(b) && again == c.(outcomes := again.outcomes)
    ensures var d := ChargeInvoice(b, tenant, id, c).0; ChargeInvoice(d, tenant, id, again).0 == d
  {
    hide Inv;
    hide TrimSpace;
    hide ChargeFrom;
    hide BalanceDue;
    var (d, r) := ChargeInvoice(b, tenant, id, c);
    if r == Accepted {
      var due := BalanceDue(b.invoices[id]);
      ChargeFromKeeps(b, id, c, 0, due);
      ChargeKeeps(b, tenant, id, c);
      if BalanceDue(d.invoices[id]) > 0 {
        assert BalanceDue(d.invoices[id]) == due;
        SecondPassIsIdle(b, id, c, 0, due, d, again);
      }
    }
  }

  /** No call under this key can do anything to this invoice any more. */
  predicate Closed(b: Books, tenant: string, id: nat, key: string)
  {
    || TrimSpace(key) == "" || key in b.keys
    || Lookup(b, tenant, id).None? || BalanceDue(b.invoices[id]) == 0 || !Frozen(b.invoices[id])
  }

  ghost predicate Idle(b: Books, tenant: string, id: nat, key: string)
  {
    forall again: Charging :: again.key == key ==> ChargeInvoice(b, tenant, id, again).0 == b
  }

  /** One provider with a default instrument. */
  function ThroughOne(key: string, outcome: Outcome): Charging
  {
    Charging(key, ["p"], [Method("p", true, true)], true, p => outcome)
  }

  lemma ChargesThroughOne(b: Books, tenant: string, id: nat, key: string, outcome: Outcome)
    requires !Closed(b, tenant, id, key)
    ensures var i, d := b.invoices[id], ChargeInvoice(b, tenant, id, ThroughOne(key, outcome)).0;
            var tried := Tried(i, Attempt(key, "p", BalanceDue(i), AttemptState(outcome)));
            && id in d.invoices
            && d.invoices[id] == (if outcome == Captured then WithPayment(tried, BalanceDue(i)) else tried)
            && d.keys == b.keys[key := id]
  {
    hide WithPayment;
    hide BalanceDue;
    hide AttemptState;
    hide TrimSpace;
    var c, m := ThroughOne(key, outcome), Method("p", true, true);
    assert FirstMethod([m], "p", true) == Some(m);
    hide FirstMethod;
    assert c.enabled[0] == "p" && StoredKey(c, 0) == key && c.outcomes("p") == outcome;
    hide StoredKey;
    var due := BalanceDue(b.invoices[id]);
    var next := ChargeThrough(b, id, c, 0, due);
    assert ChargeFrom(next, id, c, 1, due) == next;
    assert ChargeFrom(b, id, c, 0, due) == next;
  }

  /** A key is spent for an invoice exactly when the books show it: it is stored,
      or nothing is left to charge. */
  lemma IdleIffClosed(b: Books, tenant: string, id: nat, key: string)
    ensures Idle(b, tenant, id, key) <==> Closed(b, tenant, id, key)
  {
    if !Closed(b, tenant, id, key) {
      ChargesThroughOne(b, tenant, id, key, Held);
      var again := ThroughOne(key, Held);
      assert again.key == key;
      hide ThroughOne;
      hide ChargeInvoice;
      assert key in ChargeInvoice(b, tenant, id, again).0.keys;
    } else {
      hide ChargeFrom;
      hide TrimSpace;
      hide BalanceDue;
    }
  }

  /** A loop from provider 1 on never stores the bare key. */
  lemma {:induction false} LaterKeysDiffer(b: Books, id: nat, c: Charging, i: nat, amount: int)
    requires id in b.invoices && 1 <= i <= |c.enabled| && c.key !in b.keys
    ensures c.key !in ChargeFrom(b, id, c, i, amount).keys
    decreases |c.enabled| - i
  {
    hide PickMethod;
    hide WithPayment;
    hide AttemptState;
    if i < |c.enabled| {
      assert |StoredKey(c, i)| > |c.key|;
      hide StoredKey;
      var next := ChargeThrough(b, id, c, i, amount);
      assert c.key !in next.keys && id in next.invoices;
      hide ChargeThrough;
      LaterKeysDiffer(b, id, c, i + 1, amount);
      LaterKeysDiffer(next, id, c, i + 1, amount);
    }
  }

  lemma {:induction false} KeysStay(b: Books, id: nat, c: Charging, i: nat, amount: int, key: string)
    requires id in b.invoices && i <= |c.enabled| && key in b.keys
    ensures key in ChargeFrom(b, id, c, i, amount).keys
    decreases |c.enabled| - i
  {
    hide PickMethod;
    hide StoredKey;
    hide WithPayment;
    hide AttemptState;
    if i < |c.enabled| {
      var next := ChargeThrough(b, id, c, i, amount);
      assert key in next.keys && id in next.invoices;
      hide ChargeThrough;
      KeysStay(b, id, c, i + 1, amount, key);
      KeysStay(next, id, c, i + 1, amount, key);
    }
  }

  /** The bare key is stored exactly when the first enabled provider has an
      active instrument. */
  lemma KeyStoredIff(b: Books, id: nat, c: Charging, amount: int)
    requires id in b.invoices && c.enabled != [] && c.key !in b.keys
    ensures c.key in ChargeFrom(b, id, c, 0, amount).keys <==> PickMethod(c.methods, c.enabled[0]).Some?
  {
    hide PickMethod;
    hide WithPayment;
    hide AttemptState;
    var next := ChargeThrough(b, id, c, 0, amount);
    assert StoredKey(c, 0) == c.key;
    hide StoredKey;
    assert c.key in next.keys && id in next.invoices;
    hide ChargeThrough;
    LaterKeysDiffer(b, id, c, 1, amount);
    KeysStay(next, id, c, 1, amount, c.key);
  }

  /** After a charge that went to the providers, repeating its key changes nothing
      whatever the provider list, the instruments and the answers are by then, if
      and only if its first provider had an active instrument or it took the
      money. */
  lemma ReplayIsIdempotentIff(b: Books, tenant: string, id: nat, c: Charging)
    requires Inv(b) && ChargeInvoice(b, tenant, id, c).1 == Accepted
    ensures var d := ChargeInvoice(b, tenant, id, c).0;
            && id in d.invoices
            && (Idle(d, tenant, id, c.key) <==>
                 PickMethod(c.methods, c.enabled[0]).Some? || BalanceDue(d.invoices[id]) == 0)
  {
    hide Inv;
    hide TrimSpace;
    hide PickMethod;
    hide ChargeFrom;
    hide BalanceDue;
    hide Idle;
    var d, due := ChargeInvoice(b, tenant, id, c).0, BalanceDue(b.invoices[id]);
    ChargeFromKeeps(b, id, c, 0, due);
    KeyStoredIff(b, id, c, due);
    IdleIffClosed(d, tenant, id, c.key);
    FrozenStays(b, d, id);
  }

  lemma FrozenStays(b: Books, d: Books, id: nat)
    requires Extends(b, d) && id in b.invoices && Frozen(b.invoices[id])
    ensures id in d.invoices && Frozen(d.invoices[id]) && d.invoices[id].tenant == b.invoices[id].tenant
  {
  }

  /** The preferred instrument is an active one of that provider, the default
      one if there is one, and is missing only if there is none. */
  lemma {:induction false} PickMethodFinds(methods: seq<Method>, provider: string)
    ensures var m := PickMethod(methods, provider);
            && (m.None? <==> forall x :: x in methods ==> !(x.provider == provider && x.active))
            && (m.Some? ==> m.value in methods && m.value.provider == provider && m.value.active)
            && (m.Some? && !m.value.isDefault ==>
                 forall x :: x in methods ==> !(x.provider == provider && x.active && x.isDefault))
  {
    FirstMethodFinds(methods, provider, true);
    FirstMethodFinds(methods, provider, false);
  }

  lemma {:induction false} FirstMethodFinds(methods: seq<Method>, provider: string, onlyDefault: bool)
    ensures var m := FirstMethod(methods, provider, onlyDefault);
            && (m.None? <==> forall x :: x in methods ==> !(x.provider == provider && x.active && (x.isDefault || !onlyDefault)))
            && (m.Some? ==> m.value in methods && m.value.provider == provider && m.value.active && (m.value.isDefault || !onlyDefault))
  {
    if methods != [] {
      FirstMethodFinds(methods[1..], provider, onlyDefault);
      assert methods == [methods[0]] + methods[1..];
    }
  }

  // ----------------------------------------------------------------- witness

  lemma RunSnoc(ops: seq<Op>, op: Op)
    ensures Run(ops + [op]) == Apply(Run(ops), op).0
  {
    assert (ops + [op])[..|ops|] == ops;
  }

  function OneProvider(): Charging
  {
    ThroughOne("k", Captured)
  }

  function NoTax(): Tax
  {
    net => 0
  }

  /** A draft with one line of 100. */
  function Hundred(): Invoice
  {
    NewDraft("t").(lines := [Line(1000, 100, 100)], subtotal := 100, total := 100)
  }

  /** An invoice of 100, issued. */
  function IssuedRun(): seq<Op>
  {
    [OpDraft("t")] + [OpLine("t", 0, Line(1000, 100, 100), NoTax())] + [OpIssue("t", 0)]
  }

  /** ... and charged in full. */
  function PaidRun(): seq<Op>
  {
    IssuedRun() + [OpCharge("t", 0, OneProvider())]
  }

  lemma DraftRun()
    ensures Run([OpDraft("t")]) == EMPTY.(invoices := map[0 := NewDraft("t")], nextId := 1)
  {
    hide NewDraft;
    assert [OpDraft("t")] == [] + [OpDraft("t")];
    RunSnoc([], OpDraft("t"));
  }

  lemma OneLine()
    ensures WithLine(NewDraft("t"), Line(1000, 100, 100), NoTax()) == Hundred()
  {
    hide Prorate;
    assert [] + [Line(1000, 100, 100)] == [Line(1000, 100, 100)];
    assert LineSum([Line(1000, 100, 100)]) == 100;
  }

  lemma IssuedRunResult()
    ensures var b := Run(IssuedRun());
            b.keys == map[] && 0 in b.invoices && b.invoices[0] == Hundred().(state := Issued, number := 1)
  {
    hide Run;
    hide WithLine;
    var ops, add := [OpDraft("t")], OpLine("t", 0, Line(1000, 100, 100), NoTax());
    DraftRun();
    OneLine();
    RunSnoc(ops, add);
    RunSnoc(ops + [add], OpIssue("t", 0));
    var b := Run(ops);
    var lined := AddLine(b, "t", 0, Line(1000, 100, 100), NoTax()).0;
    assert lined == Put(b, 0, Hundred());
    hide AddLine;
    assert NextNumber(lined, "invoice") == 1;
    assert IssueInvoice(lined, "t", 0).0.invoices[0] == Hundred().(state := Issued, number := 1);
  }

  lemma PaidRunResult()
    ensures var b := Run(PaidRun());
            0 in b.invoices && b.invoices[0] ==
              Hundred().(state := Issued, number := 1, paid := 100, attempts := [Attempt("k", "p", 100, Succeeded)])
  {
    hide ChargeInvoice;
    hide IssuedRun;
    hide Run;
    IssuedRunResult();
    RunSnoc(IssuedRun(), OpCharge("t", 0, OneProvider()));
    var b := Run(IssuedRun());
    assert BalanceDue(b.invoices[0]) == 100;
    ChargedOnce(b);
  }

  lemma ChargedOnce(b: Books)
    requires b.keys == map[] && 0 in b.invoices && b.invoices[0].tenant == "t"
    requires Frozen(b.invoices[0]) && BalanceDue(b.invoices[0]) > 0
    ensures var i, d := b.invoices[0], ChargeInvoice(b, "t", 0, OneProvider()).0;
            0 in d.invoices && d.invoices[0] == WithPayment(Tried(i, Attempt("k", "p", BalanceDue(i), Succeeded)), BalanceDue(i))
  {
    hide WithPayment;
    hide BalanceDue;
    hide ChargeInvoice;
    assert TrimSpace("k") == "k";
    ChargesThroughOne(b, "t", 0, "k", Captured);
  }

  /** Provider "o" leads the list, the tenant has an instrument for "p" only, and
      "p" leaves the payment pending. */
  function SecondOnly(): Charging
  {
    Charging("k", ["o", "p"], [Method("p", true, true)], true, p => Held)
  }

  lemma HeldBySecond(b: Books)
    requires b.keys == map[] && 0 in b.invoices && b.invoices[0].tenant == "t"
    requires Frozen(b.invoices[0]) && BalanceDue(b.invoices[0]) > 0
    ensures var i, d := b.invoices[0], ChargeInvoice(b, "t", 0, SecondOnly()).0;
            && d.keys == map["k:p" := 0] && 0 in d.invoices
            && d.invoices[0] == Tried(i, Attempt("k:p", "p", BalanceDue(i), Pending))
  {
    hide BalanceDue;
    var c, m, due := SecondOnly(), Method("p", true, true), BalanceDue(b.invoices[0]);
    assert TrimSpace("k") == "k";
    hide TrimSpace;
    assert "o" != "p";
    assert FirstMethod([m], "o", true) == None && FirstMethod([m], "o", false) == None && FirstMethod([m], "p", true) == Some(m);
    hide FirstMethod;
    assert StoredKey(c, 1) == "k:p" && c.enabled[0] == "o" && c.enabled[1] == "p";
    hide StoredKey;
    var next := ChargeThrough(b, 0, c, 1, due);
    assert ChargeFrom(next, 0, c, 2, due) == next;
    assert ChargeFrom(b, 0, c, 1, due) == next;
    assert ChargeFrom(b, 0, c, 0, due) == next;
  }

  /** Repeating the key after "p" has moved to the head of the list charges "p" a
      second time while its first attempt is still pending. */
  lemma ReplayCanChargeAgain()
    ensures var b := Run(IssuedRun() + [OpCharge("t", 0, SecondOnly())] + [OpCharge("t", 0, OneProvider())]);
            && 0 in b.invoices
            && b.invoices[0].attempts == [Attempt("k:p", "p", 100, Pending), Attempt("k", "p", 100, Succeeded)]
  {
    hide ChargeInvoice;
    hide IssuedRun;
    hide Run;
    IssuedRunResult();
    var run, first, again := IssuedRun(), OpCharge("t", 0, SecondOnly()), OpCharge("t", 0, OneProvider());
    RunSnoc(run, first);
    RunSnoc(run + [first], again);
    var b := Run(run);
    assert BalanceDue(b.invoices[0]) == 100;
    HeldBySecond(b);
    var d := Run(run + [first]);
    assert d.invoices[0].attempts == [Attempt("k:p", "p", 100, Pending)];
    assert BalanceDue(d.invoices[0]) == 100;
    assert TrimSpace("k") == "k" && |"k"| != |"k:p"|;
    ChargesThroughOne(d, "t", 0, "k", Captured);
    SettledOnlyMovesState(Tried(d.invoices[0], Attempt("k", "p", 100, Succeeded)).(paid := 100));
  }

  /** Crediting part of a paid invoice and then refunding all of it sends the
      money back without a record. */
  lemma OverlapLosesTheRecord(b: Books, tenant: string, id: nat, note: int)
    requires Inv(b) && Lookup(b, tenant, id).Some?
    requires var i := b.invoices[id];
             Frozen(i) && Successes(i.attempts) > 0 && i.credited == 0 && i.paid == i.total && 0 < note <= i.total
    ensures var noted := IssueCreditNote(b, tenant, id, note).0;
            var i := b.invoices[id];
            var d := RefundPayment(noted, tenant, id, i.paid, true).0;
            id in d.invoices && d.invoices[id].sent == i.sent + [i.paid] && d.invoices[id].refunds == i.refunds
  {
    NoteOpKeeps(b, tenant, id, note);
    hide Inv;
    hide Extends;
    hide RefundPayment;
    hide Successes;
    var i, n := b.invoices[id], NextNumber(b, "credit_note");
    var noted := IssueCreditNote(b, tenant, id, note).0;
    NoteFields(i, n, note);
    assert WithNote(i, n, note).sent == i.sent && WithNote(i, n, note).tenant == tenant by { hide Prorate; }
    hide WithNote;
    assert noted.invoices[id] == WithNote(i, n, note);
    RefundRecordedIff(noted, tenant, id, i.paid);
    RefundStays(noted, tenant, id, i.paid);
  }

  lemma RefundStays(b: Books, tenant: string, id: nat, amount: int)
    requires id in b.invoices
    ensures id in RefundPayment(b, tenant, id, amount, true).0.invoices
  {
    hide WithNote;
    hide Successes;
  }

  /** ... and some run does so. */
  lemma RefundCanGoUnrecorded()
    ensures var b := Run(PaidRun() + [OpNote("t", 0, 60)] + [OpRefund("t", 0, 100, true)]);
            0 in b.invoices && b.invoices[0].sent == [100] && b.invoices[0].refunds == []
  {
    hide Inv;
    hide IssueCreditNote;
    hide RefundPayment;
    hide PaidRun;
    hide Run;
    var run := PaidRun();
    PaidRunResult();
    RunInvariant(run);
    RunSnoc(run, OpNote("t", 0, 60));
    RunSnoc(run + [OpNote("t", 0, 60)], OpRefund("t", 0, 100, true));
    assert Successes([Attempt("k", "p", 100, Succeeded)]) == 1;
    OverlapLosesTheRecord(Run(run), "t", 0, 60);
  }
}
