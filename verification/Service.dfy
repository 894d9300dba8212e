/** The billing service as the program runs it: tables that each operation
    updates row by row. Every method is proved equal to the ledger operation it
    carries out. */
module BillingService {
  import opened Attempts
  import opened Text
  import opened Money
  import opened Invoices
  import opened Ledger

  const NUMBER_ATTEMPTS := 8

  class Service {
    var invoices: map<nat, Invoice>
    var nextId: nat
    var balances: map<string, int>
    var keys: map<string, nat>
    var sequences: map<string, int>
    ghost var granted: seq<Applied>
    ghost var applied: seq<Applied>

    ghost function State(): Books
      reads this
    {
      Books(invoices, nextId, balances, granted, applied, keys, sequences)
    }

    constructor ()
      ensures State() == EMPTY
    {
      invoices, nextId, balances, keys, sequences := map[], 0, map[], map[], map[];
      granted, applied := [], [];
    }

    method CreateDraft(tenant: string) returns (id: nat)
      modifies this
      ensures id == old(nextId) && State() == Ledger.CreateDraft(old(State()), tenant).0
    {
      id := nextId;
      invoices := invoices[id := NewDraft(tenant)];
      nextId := nextId + 1;
    }

    /** Sums the stored lines and rewrites the figures of a draft. */
    method RecalculateInvoice(tenant: string, id: nat, tax: Tax) returns (r: Reply)
      modifies this
      ensures Lookup(old(State()), tenant, id).None? ==> r == Refused(NotFound) && State() == old(State())
      ensures Lookup(old(State()), tenant, id).Some? ==>
                var i := old(invoices)[id];
                r == Accepted && State() == if Frozen(i) then old(State()) else Put(old(State()), id, Recalculated(i, tax))
    {
      if id !in invoices || invoices[id].tenant != tenant {
        return Refused(NotFound);
      }
      var i := invoices[id];
      if Frozen(i) {
        return Accepted;
      }
      var subtotal := 0;
      for k := 0 to |i.lines|
        invariant subtotal == LineSum(i.lines[..k])
      {
        assert i.lines[..k + 1][..k] == i.lines[..k];
        subtotal := subtotal + i.lines[k].amount;
      }
      assert i.lines[..|i.lines|] == i.lines;
      var net := if subtotal - i.discount < 0 then 0 else subtotal - i.discount;
      var due := tax(net);
      invoices := invoices[id := i.(subtotal := subtotal, tax := due, total := net + due)];
      return Accepted;
    }

    method AddLine(tenant: string, id: nat, line: Line, tax: Tax) returns (r: Reply)
      modifies this
      ensures (State(), r) == Ledger.AddLine(old(State()), tenant, id, line, tax)
    {
      if id !in invoices || invoices[id].tenant != tenant {
        return Refused(NotFound);
      }
      var i := invoices[id];
      if Frozen(i) {
        return Refused(Immutable);
      }
      var quantity, amount := line.quantityMilli, line.amount;
      if quantity == 0 {
        quantity := 1000;
      }
      if amount == 0 {
        amount := Prorate(line.unitPrice, quantity, 1000);
      }
      invoices := invoices[id := i.(lines := i.lines + [Line(quantity, line.unitPrice, amount)])];
      r := RecalculateInvoice(tenant, id, tax);
      assert invoices == old(invoices)[id := WithLine(i, line, tax)];
    }

    /** The read / insert / compare-and-set loop, with nobody else at the table. */
    method NextDocumentNumber(scope: string) returns (r: Option<int>)
      modifies this`sequences
      ensures r == Some(NextNumber(old(State()), scope)) && State() == TakeNumber(old(State()), scope)
    {
      for attempt := 0 to NUMBER_ATTEMPTS
        invariant attempt == 0 ==> sequences == old(sequences)
        invariant attempt > 0 ==> scope !in old(sequences) && sequences == old(sequences)[scope := 1]
        invariant attempt <= 1
      {
        if scope !in sequences {
          sequences := sequences[scope := 1];
        } else {
          var next := sequences[scope];
          sequences := sequences[scope := next + 1];
          return Some(next);
        }
      }
      return None;
    }

    method IssueInvoice(tenant: string, id: nat) returns (r: Reply)
      modifies this
      ensures (State(), r) == Ledger.IssueInvoice(old(State()), tenant, id)
    {
      if id !in invoices || invoices[id].tenant != tenant {
        return Refused(NotFound);
      }
      var i := invoices[id];
      if Frozen(i) {
        return Refused(Immutable);
      }
      if !CanTransition(i.state, Issued) {
        return Refused(Conflict);
      }
      var number := NextDocumentNumber("invoice");
      if number.None? {
        return Refused(Conflict);
      }
      invoices := invoices[id := i.(state := Issued, number := number.value)];
      return Accepted;
    }

    method MarkInvoiceState(tenant: string, id: nat, target: InvoiceState) returns (r: Reply)
      modifies this
      ensures (State(), r) == Ledger.MarkInvoiceState(old(State()), tenant, id, target)
    {
      if id !in invoices || invoices[id].tenant != tenant {
        return Refused(NotFound);
      }
      if target == Draft {
        return Refused(Immutable);
      }
      if !CanTransition(invoices[id].state, target) {
        return Refused(Conflict);
      }
      invoices := invoices[id := invoices[id].(state := target)];
      return Accepted;
    }

    method CreditAccountBalance(tenant: string, amount: int)
      modifies this
      ensures State() == CreditAccount(old(State()), tenant, amount).0
    {
      if amount <= 0 {
        return;
      }
      var balance := if tenant in balances then balances[tenant] else 0;
      balances := balances[tenant := balance + amount];
      granted := granted + [Applied(tenant, 0, amount)];
    }

    /** Moves an invoice to paid or partial according to its balance. */
    method SettleIfPaid(id: nat)
      requires id in invoices
      modifies this
      ensures State() == Put(old(State()), id, Settled(old(invoices)[id]))
    {
      var i := invoices[id];
      var target := Partial;
      if BalanceDue(i) == 0 {
        target := Paid;
      } else if i.paid == 0 && i.credited == 0 {
        return;
      }
      if i.state == target || !CanTransition(i.state, target) {
        return;
      }
      invoices := invoices[id := i.(state := target)];
    }

    method ApplyAccountBalance(tenant: string, id: nat) returns (r: Reply)
      modifies this
      ensures (State(), r) == ApplyBalance(old(State()), tenant, id)
    {
      hide BalanceDue;
      hide Settled;
      if id !in invoices || invoices[id].tenant != tenant {
        return Refused(NotFound);
      }
      var i := invoices[id];
      var credit := if tenant in balances then balances[tenant] else 0;
      if credit <= 0 || BalanceDue(i) <= 0 {
        return Accepted;
      }
      if credit > BalanceDue(i) {
        credit := BalanceDue(i);
      }
      invoices := invoices[id := i.(credited := i.credited + credit)];
      balances := balances[tenant := (if tenant in balances then balances[tenant] else 0) - credit];
      applied := applied + [Applied(tenant, id, credit)];
      SettleIfPaid(id);
      assert invoices == old(invoices)[id := WithCredit(i, credit)];
      return Accepted;
    }

    /** How a subscription invoice is closed. */
    method FinishInvoice(tenant: string, id: nat) returns (r: Reply)
      modifies this
      ensures (State(), r) == IssueAndApply(old(State()), tenant, id)
    {
      r := IssueInvoice(tenant, id);
      if r == Accepted {
        r := ApplyAccountBalance(tenant, id);
      }
    }

    method RecordPayment(tenant: string, id: nat, amount: int) returns (r: Reply)
      modifies this
      ensures (State(), r) == Ledger.RecordPayment(old(State()), tenant, id, amount)
    {
      if amount <= 0 {
        return Refused(Validation);
      }
      if id !in invoices || invoices[id].tenant != tenant {
        return Refused(NotFound);
      }
      var i := invoices[id];
      if i.state == Draft {
        return Refused(Validation);
      }
      invoices := invoices[id := i.(paid := i.paid + amount)];
      SettleIfPaid(id);
      assert invoices == old(invoices)[id := WithPayment(i, amount)];
      return Accepted;
    }

    method IssueCreditNote(tenant: string, id: nat, amount: int) returns (r: Reply)
      modifies this
      ensures (State(), r) == Ledger.IssueCreditNote(old(State()), tenant, id, amount)
    {
      hide Prorate;
      hide Settled;
      if id !in invoices || invoices[id].tenant != tenant {
        return Refused(NotFound);
      }
      var i := invoices[id];
      if i.state == Draft || amount <= 0 || amount > i.total - i.credited {
        return Refused(Validation);
      }
      var number := NextDocumentNumber("credit_note");
      if number.None? {
        return Refused(Conflict);
      }
      var tax := 0;
      if i.subtotal > 0 {
        tax := Prorate(i.tax, amount, i.total);
      }
      invoices := invoices[id := i.(notes := i.notes + [CreditNote(number.value, amount, tax)])];
      invoices := invoices[id := invoices[id].(credited := i.credited + amount)];
      SettleIfPaid(id);
      assert invoices == old(invoices)[id := WithNote(i, number.value, amount)];
      return Accepted;
    }

    /** `providerOk` is the provider's answer to the refund request. */
    method RefundPayment(tenant: string, id: nat, amount: int, providerOk: bool) returns (r: Reply)
      modifies this
      ensures (State(), r) == Ledger.RefundPayment(old(State()), tenant, id, amount, providerOk)
    {
      if id !in invoices || invoices[id].tenant != tenant {
        return Refused(NotFound);
      }
      var i := invoices[id];
      if amount <= 0 || amount > i.paid {
        return Refused(Validation);
      }
      if Successes(i.attempts) == 0 {
        return Refused(Validation);
      }
      if !providerOk {
        return Refused(Upstream);
      }
      invoices := invoices[id := i.(sent := i.sent + [amount])];
      r := IssueCreditNote(tenant, id, amount);
      if r == Accepted {
        assert invoices[id].refunds == i.refunds by { NoteFields(i.(sent := i.sent + [amount]), NextNumber(old(State()), "credit_note"), amount); }
        invoices := invoices[id := invoices[id].(refunds := invoices[id].refunds + [amount])];
      }
    }

    /** One provider: claims the key, asks the provider, books the outcome. */
    method ChargeThrough(id: nat, c: Charging, i: nat, amount: int) returns (captured: bool)
      requires id in invoices && i < |c.enabled|
      modifies this`invoices, this`keys
      ensures var was := old(State());
              && State() == Put(was, id, if StoredKey(c, i) in was.keys then was.invoices[id]
                                         else Tried(was.invoices[id], Attempt(StoredKey(c, i), c.enabled[i], amount, AttemptState(c.outcomes(c.enabled[i])))))
                              .(keys := if StoredKey(c, i) in was.keys then was.keys else was.keys[StoredKey(c, i) := id])
              && captured == (StoredKey(c, i) !in was.keys && c.outcomes(c.enabled[i]) == Captured)
    {
      var key := c.key;
      if i > 0 {
        key := c.key + ":" + c.enabled[i];
      }
      if key in keys {
        assert invoices == invoices[id := invoices[id]];
        return false;
      }
      var inv := invoices[id];
      keys := keys[key := id];
      var outcome := c.outcomes(c.enabled[i]);
      var state := Failed;
      match outcome {
        case Captured => state := Succeeded;
        case Held => state := Pending;
        case _ =>
      }
      invoices := invoices[id := inv.(attempts := inv.attempts + [Attempt(key, c.enabled[i], amount, state)])];
      return state == Succeeded;
    }

    /** Walks the enabled providers in failover order. */
    method ChargeInvoice(tenant: string, id: nat, c: Charging) returns (r: Reply)
      modifies this
      ensures (State(), r) == Ledger.ChargeInvoice(old(State()), tenant, id, c)
    {
      hide TrimSpace;
      hide ChargeFrom;
      if TrimSpace(c.key) == "" {
        return Refused(Validation);
      }
      if c.key in keys {
        if keys[c.key] in invoices && invoices[keys[c.key]].tenant == tenant {
          return Replayed(keys[c.key]);
        }
        return Refused(Forbidden);
      }
      if id !in invoices || invoices[id].tenant != tenant {
        return Refused(NotFound);
      }
      var amount := BalanceDue(invoices[id]);
      if amount <= 0 || invoices[id].state == Draft || c.methods == [] {
        return Refused(Validation);
      }
      if c.enabled == [] {
        return Refused(NoProvider);
      }
      Failover(tenant, id, c, amount);
      return Accepted;
    }

    method Failover(tenant: string, id: nat, c: Charging, amount: int)
      requires id in invoices && invoices[id].tenant == tenant && Frozen(invoices[id]) && amount > 0
      modifies this
      ensures State() == ChargeFrom(old(State()), id, c, 0, amount)
    {
      hide PickMethod;
      hide StoredKey;
      hide AttemptState;
      hide WithPayment;
      var i := 0;
      while i < |c.enabled|
        invariant i <= |c.enabled|
        invariant id in invoices && invoices[id].tenant == tenant && Frozen(invoices[id])
        invariant ChargeFrom(State(), id, c, i, amount) == ChargeFrom(old(State()), id, c, 0, amount)
      {
        var picked := PickMethod(c.methods, c.enabled[i]);
        if picked.Some? {
          ghost var was := State();
          var captured := ChargeThrough(id, c, i, amount);
          if captured {
            var r := RecordPayment(tenant, id, amount);
            assert State() == Ledger.ChargeThrough(was, id, c, i, amount);
            return;
          }
          assert State() == Ledger.ChargeThrough(was, id, c, i, amount);
          if !c.failover {
            return;
          }
        }
        i := i + 1;
      }
    }
  }
}
