/** What the ledger operations do, on the rows themselves: when each is accepted,
    what it changes, and what it leaves alone. */
module LedgerEffects {
  import opened Attempts
  import opened Money
  import opened Invoices
  import opened Ledger
  import opened Text

  /** The tenant's own invoice; any other is not found. */
  predicate Owns(b: Books, tenant: string, id: nat)
  {
    id in b.invoices && b.invoices[id].tenant == tenant
  }

  // ------------------------------------------------------------------ states

  /** Where each state can be entered from. */
  lemma EnteredFrom(from: InvoiceState, to: InvoiceState)
    ensures CanTransition(from, to) <==>
              match to
              case Draft => false
              case Issued => from == Draft
              case Due => from == Issued || from == Processing || from == Disputed
              case Overdue => from == Due || from == Partial
              case Processing => from == Issued || from == Due || from == Overdue || from == Partial
              case Partial => from == Due || from == Overdue || from == Processing
              case Paid => from == Processing || from == Partial || from == Disputed
              case Disputed => from != Draft && from != Disputed && from != Cancelled && from != Refunded
              case Cancelled => from == Draft || from == Issued || from == Due || from == Overdue || from == Partial || from == Disputed
              case Refunded => from == Paid || from == Disputed
  {
  }

  /** After money came in: paid when nothing is due, partial when some of it is,
      where the state machine lets it. */
  function StateAfter(state: InvoiceState, total: int, paid: int, credited: int): InvoiceState
  {
    if total <= paid + credited then if state in {Processing, Partial, Disputed} then Paid else state
    else if (paid != 0 || credited != 0) && state in {Due, Overdue, Processing} then Partial else state
  }

  lemma SettledState(i: Invoice)
    ensures Settled(i) == i.(state := StateAfter(i.state, i.total, i.paid, i.credited))
  {
  }

  lemma {:induction false} SuccessesNone(attempts: seq<Attempt>)
    ensures Successes(attempts) == 0 <==> forall a :: a in attempts ==> a.state != Succeeded
  {
    if attempts != [] {
      var k := |attempts| - 1;
      SuccessesNone(attempts[..k]);
      assert attempts == attempts[..k] + [attempts[k]];
    }
  }

  // ------------------------------------------------------------------ drafts

  /** A line of a new draft: one unit by default, and an amount of its own or else
      the price of its part of a unit, and of one unit at most. */
  lemma PricedExactly(line: Line)
    ensures var p := Priced(line);
            && p.unitPrice == line.unitPrice
            && p.quantityMilli == (if line.quantityMilli == 0 then 1000 else line.quantityMilli)
            && (line.amount != 0 ==> p.amount == line.amount)
            && (line.amount == 0 && p.quantityMilli <= 0 ==> p.amount == 0)
            && (line.amount == 0 && 0 < p.quantityMilli < 1000 ==> IsNearest(line.unitPrice * p.quantityMilli, 1000, p.amount))
            && (line.amount == 0 && p.quantityMilli >= 1000 ==> p.amount == line.unitPrice)
  {
    var q := if line.quantityMilli == 0 then 1000 else line.quantityMilli;
    if 0 < q < 1000 {
      ProrateIsNearest(line.unitPrice, q, 1000);
    }
    hide IsNearest;
    hide RoundHalfAway;
  }

  /** A line goes onto a draft of the tenant's own, and the figures follow from all
      lines: tax on what the discount leaves, total with the tax. */
  lemma AddLineExactly(b: Books, tenant: string, id: nat, line: Line, tax: Tax)
    ensures var (d, r) := AddLine(b, tenant, id, line, tax);
            && (r == Accepted <==> Owns(b, tenant, id) && b.invoices[id].state == Draft)
            && (r != Accepted ==> d == b && r == Refused(if Owns(b, tenant, id) then Immutable else NotFound))
            && (r == Accepted ==>
                  var i := b.invoices[id];
                  var subtotal := LineSum(i.lines) + Priced(line).amount;
                  var net := if subtotal > i.discount then subtotal - i.discount else 0;
                  d == b.(invoices := b.invoices[id := i.(lines := i.lines + [Priced(line)],
                                                          subtotal := subtotal, tax := tax(net), total := net + tax(net))]))
  {
    hide Priced;
    if Owns(b, tenant, id) {
      var i := b.invoices[id];
      assert (i.lines + [Priced(line)])[..|i.lines|] == i.lines;
    }
  }

  lemma DraftExactly(b: Books, tenant: string)
    ensures var (d, r) := CreateDraft(b, tenant);
            && r == Accepted && d == b.(invoices := d.invoices, nextId := b.nextId + 1)
            && d.invoices.Keys == b.invoices.Keys + {b.nextId}
            && (forall k :: k in b.invoices && k != b.nextId ==> d.invoices[k] == b.invoices[k])
            && var i := d.invoices[b.nextId];
               && i.tenant == tenant && i.state == Draft && i.lines == [] && i.total == 0 && i.subtotal == 0 && i.tax == 0
               && i.paid == 0 && i.credited == 0 && i.discount == 0 && i.number == 0
               && i.notes == [] && i.attempts == [] && i.sent == [] && i.refunds == []
  {
  }

  /** Issuing takes the next number, counted from 1, and freezes a draft. */
  lemma IssueExactly(b: Books, tenant: string, id: nat)
    ensures var (d, r) := IssueInvoice(b, tenant, id);
            var n := if "invoice" in b.sequences then b.sequences["invoice"] else 1;
            && (r == Accepted <==> Owns(b, tenant, id) && b.invoices[id].state == Draft)
            && (r != Accepted ==> d == b && r == Refused(if Owns(b, tenant, id) then Immutable else NotFound))
            && (r == Accepted ==>
                  d == b.(invoices := b.invoices[id := b.invoices[id].(state := Issued, number := n)],
                          sequences := b.sequences["invoice" := n + 1]))
  {
  }

  lemma MarkExactly(b: Books, tenant: string, id: nat, target: InvoiceState)
    ensures var (d, r) := MarkInvoiceState(b, tenant, id, target);
            && (r == Accepted <==> Owns(b, tenant, id) && target != Draft && CanTransition(b.invoices[id].state, target))
            && (r != Accepted ==> d == b)
            && (r == Accepted ==> d == b.(invoices := b.invoices[id := b.invoices[id].(state := target)]))
  {
    hide CanTransition;
  }

  // ------------------------------------------------------------------ credit

  /** A grant adds to one account what it is worth, and to no other. */
  lemma GrantExactly(b: Books, tenant: string, amount: int, other: string)
    ensures var (d, r) := CreditAccount(b, tenant, amount);
            && r == Accepted
            && Balance(d, other) == Balance(b, other) + (if other == tenant && amount > 0 then amount else 0)
            && (amount <= 0 ==> d == b)
            && d == b.(balances := d.balances, granted := d.granted)
            && (amount > 0 ==> d.granted == b.granted + [Applied(tenant, 0, amount)])
  {
  }

  /** Account credit pays for an invoice as far as it goes: the smaller of what the
      account holds and what is due moves from the one to the other. */
  lemma ApplyExactly(b: Books, tenant: string, id: nat)
    ensures var (d, r) := ApplyBalance(b, tenant, id);
            && (r == Accepted <==> Owns(b, tenant, id))
            && (r != Accepted ==> d == b)
            && (r == Accepted ==>
                  var i, holds := b.invoices[id], Balance(b, tenant);
                  var due := i.total - i.paid - i.credited;
                  var credit := if holds < due then holds else due;
                  && (holds <= 0 || due <= 0 ==> d == b)
                  && (holds > 0 && due > 0 ==>
                        && Balance(d, tenant) == holds - credit
                        && (forall other :: other != tenant ==> Balance(d, other) == Balance(b, other))
                        && d == b.(balances := d.balances, applied := b.applied + [Applied(tenant, id, credit)],
                                   invoices := b.invoices[id := i.(credited := i.credited + credit,
                                     state := StateAfter(i.state, i.total, i.paid, i.credited + credit))])))
  {
    if Owns(b, tenant, id) {
      var i, holds := b.invoices[id], Balance(b, tenant);
      var due := BalanceDue(i);
      var credit := if holds > due then due else holds;
      SettledState(i.(credited := i.credited + credit));
      hide Settled;
      hide StateAfter;
    }
  }

  /** Issuing a subscription invoice and using up credit are one after the other. */
  lemma FinishExactly(b: Books, tenant: string, id: nat)
    ensures var (d, r) := IssueAndApply(b, tenant, id);
            && (r == Accepted <==> Owns(b, tenant, id) && b.invoices[id].state == Draft)
            && (r != Accepted ==> d == b)
            && (r == Accepted ==> d == ApplyBalance(IssueInvoice(b, tenant, id).0, tenant, id).0)
  {
    hide Consume;
  }

  // ------------------------------------------------------------------- money

  /** A payment adds a positive amount to what an issued invoice was paid. */
  lemma PayExactly(b: Books, tenant: string, id: nat, amount: int)
    ensures var (d, r) := RecordPayment(b, tenant, id, amount);
            && (r == Accepted <==> amount > 0 && Owns(b, tenant, id) && b.invoices[id].state != Draft)
            && (r != Accepted ==> d == b && r == Refused(if amount > 0 && !Owns(b, tenant, id) then NotFound else Validation))
            && (r == Accepted ==>
                  var i := b.invoices[id];
                  d == b.(invoices := b.invoices[id := i.(paid := i.paid + amount,
                            state := StateAfter(i.state, i.total, i.paid + amount, i.credited))]))
  {
    if Owns(b, tenant, id) {
      SettledState(b.invoices[id].(paid := b.invoices[id].paid + amount));
      hide Settled;
      hide StateAfter;
    }
  }

  /** The invoice with one credit note more. */
  predicate Noted(i: Invoice, j: Invoice, number: int, amount: int)
  {
    && |j.notes| == |i.notes| + 1 && j.notes[..|i.notes|] == i.notes
    && j.notes[|i.notes|].number == number && j.notes[|i.notes|].amount == amount
    && j == i.(notes := j.notes, credited := i.credited + amount, state := StateAfter(i.state, i.total, i.paid, i.credited + amount))
  }

  lemma WithNoteIsNoted(i: Invoice, number: int, amount: int)
    ensures Noted(i, WithNote(i, number, amount), number, amount)
  {
    hide Prorate;
    var tax := if i.subtotal > 0 then Prorate(i.tax, amount, i.total) else 0;
    var noted := i.(notes := i.notes + [CreditNote(number, amount, tax)], credited := i.credited + amount);
    SettledState(noted);
    hide Settled;
    hide StateAfter;
  }

  /** A credit note is for a positive amount of what is not credited yet. */
  lemma NoteExactly(b: Books, tenant: string, id: nat, amount: int)
    ensures var (d, r) := IssueCreditNote(b, tenant, id, amount);
            var n := if "credit_note" in b.sequences then b.sequences["credit_note"] else 1;
            && (r == Accepted <==>
                  && Owns(b, tenant, id) && b.invoices[id].state != Draft
                  && 0 < amount <= b.invoices[id].total - b.invoices[id].credited)
            && (r != Accepted ==> d == b && r == Refused(if Owns(b, tenant, id) then Validation else NotFound))
            && (r == Accepted ==>
                  && id in d.invoices && Noted(b.invoices[id], d.invoices[id], n, amount)
                  && d == b.(invoices := b.invoices[id := d.invoices[id]], sequences := b.sequences["credit_note" := n + 1]))
  {
    if Owns(b, tenant, id) {
      WithNoteIsNoted(b.invoices[id], NextNumber(b, "credit_note"), amount);
      hide WithNote;
      hide Noted;
    }
  }

  /** The provider may be asked to give this much back. */
  predicate Refundable(i: Invoice, amount: int)
  {
    0 < amount <= i.paid && exists a :: a in i.attempts && a.state == Succeeded
  }

  /** A refund: never more than was paid, and only after a success; the provider
      first, then the credit note if it fits, then the refund row. */
  lemma RefundExactly(b: Books, tenant: string, id: nat, amount: int, providerOk: bool)
    ensures var (d, r) := RefundPayment(b, tenant, id, amount, providerOk);
            && (!Owns(b, tenant, id) ==> d == b && r == Refused(NotFound))
            && (Owns(b, tenant, id) && !Refundable(b.invoices[id], amount) ==> d == b && r == Refused(Validation))
            && (Owns(b, tenant, id) && Refundable(b.invoices[id], amount) && !providerOk ==> d == b && r == Refused(Upstream))
            && (Owns(b, tenant, id) && Refundable(b.invoices[id], amount) && providerOk ==>
                  var i := b.invoices[id];
                  var told := i.(sent := i.sent + [amount]);
                  && (r == Accepted <==> i.state != Draft && amount <= i.total - i.credited)
                  && (r != Accepted ==> d == b.(invoices := b.invoices[id := told]))
                  && (r == Accepted ==>
                        var n := if "credit_note" in b.sequences then b.sequences["credit_note"] else 1;
                        && id in d.invoices
                        && Noted(told.(refunds := i.refunds + [amount]), d.invoices[id], n, amount)
                        && d == b.(invoices := b.invoices[id := d.invoices[id]], sequences := b.sequences["credit_note" := n + 1])))
  {
    if Owns(b, tenant, id) {
      var i := b.invoices[id];
      SuccessesNone(i.attempts);
      hide Successes;
      var told := i.(sent := i.sent + [amount]);
      var asked := Put(b, id, told);
      NoteExactly(asked, tenant, id, amount);
      hide IssueCreditNote;
    }
  }

  // ---------------------------------------------------------------- charging

  /** The tenant has an active instrument for the provider at `k`. */
  predicate Instrument(c: Charging, k: nat)
    requires k < |c.enabled|
  {
    exists m :: m in c.methods && m.active && m.provider == c.enabled[k]
  }

  /** What the answer to a charge depends on, in the order of the checks. */
  lemma ChargeReplies(b: Books, tenant: string, id: nat, c: Charging)
    ensures var (d, r) := ChargeInvoice(b, tenant, id, c);
            && (r == Accepted <==>
                  && TrimSpace(c.key) != "" && c.key !in b.keys && Owns(b, tenant, id)
                  && b.invoices[id].state != Draft && b.invoices[id].total > b.invoices[id].paid + b.invoices[id].credited
                  && c.methods != [] && c.enabled != [])
            && (r != Accepted ==> d == b)
            && (r.Replayed? <==> TrimSpace(c.key) != "" && c.key in b.keys && Owns(b, tenant, b.keys[c.key]))
            && (r.Replayed? ==> r.invoice == b.keys[c.key])
            && (r == Refused(Forbidden) <==> TrimSpace(c.key) != "" && c.key in b.keys && !Owns(b, tenant, b.keys[c.key]))
            && (r == Accepted ==> d == ChargeFrom(b, id, c, 0, b.invoices[id].total - b.invoices[id].paid - b.invoices[id].credited))
  {
    hide TrimSpace;
    hide ChargeFrom;
  }

  /** The caller's key, or for a later provider that key with its name. */
  function KeyAt(c: Charging, k: nat): string
    requires k < |c.enabled|
  {
    if k == 0 then c.key else c.key + ":" + c.enabled[k]
  }

  predicate Took(c: Charging, k: nat)
    requires k < |c.enabled|
  {
    c.outcomes(c.enabled[k]) == Captured
  }

  /** `places` are the providers from `i` on that get the charge: with an active
      instrument, under a key nobody used, and only if every earlier one with an
      instrument was passed over by failover without taking the money. */
  predicate TriedAt(keys: set<string>, c: Charging, i: nat, places: seq<nat>)
  {
    && (forall x :: 0 <= x < |places| ==> i <= places[x] < |c.enabled|)
    && (forall x, y :: 0 <= x < y < |places| ==> places[x] < places[y])
    && (forall k :: i <= k < |c.enabled| ==>
          (k in places <==>
             && Instrument(c, k) && KeyAt(c, k) !in keys
             && (forall j :: i <= j < k && j in places ==> KeyAt(c, j) != KeyAt(c, k))
             && (forall j :: i <= j < k && Instrument(c, j) ==>
                   c.failover && !(j in places && Took(c, j)))))
  }

  /** One attempt for each, in order, with what the provider answered. */
  function AttemptsFor(c: Charging, places: seq<nat>, amount: int): (r: seq<Attempt>)
    requires forall x :: 0 <= x < |places| ==> places[x] < |c.enabled|
    ensures |r| == |places|
  {
    seq(|places|, x requires 0 <= x < |places| =>
      var k, o := places[x], c.outcomes(c.enabled[places[x]]);
      Attempt(KeyAt(c, k), c.enabled[k], amount, if o == Captured then Succeeded else if o == Held then Pending else Failed))
  }

  lemma InstrumentIff(c: Charging, k: nat)
    requires k < |c.enabled|
    ensures Instrument(c, k) <==> PickMethod(c.methods, c.enabled[k]).Some?
  {
    PickMethodFinds(c.methods, c.enabled[k]);
    hide PickMethod;
  }

  lemma TriedNone(keys: set<string>, c: Charging, i: nat, rest: seq<nat>)
    requires i < |c.enabled| && TriedAt(keys, c, i + 1, rest)
    requires !Instrument(c, i) || (KeyAt(c, i) in keys && c.failover)
    ensures TriedAt(keys, c, i, rest)
  {
    hide KeyAt;
    hide Took;
    hide Instrument;
  }

  lemma TriedLast(keys: set<string>, c: Charging, i: nat)
    requires i < |c.enabled| && Instrument(c, i)
    ensures KeyAt(c, i) in keys && !c.failover ==> TriedAt(keys, c, i, [])
    ensures KeyAt(c, i) !in keys && (!c.failover || Took(c, i)) ==> TriedAt(keys, c, i, [i])
  {
    hide KeyAt;
    hide Took;
    hide Instrument;
    assert i in [i];
  }

  lemma TriedFirst(keys: set<string>, c: Charging, i: nat, rest: seq<nat>)
    requires i < |c.enabled| && Instrument(c, i) && KeyAt(c, i) !in keys
    requires c.failover && !Took(c, i)
    requires TriedAt(keys + {KeyAt(c, i)}, c, i + 1, rest)
    ensures TriedAt(keys, c, i, [i] + rest)
  {
    hide KeyAt;
    hide Took;
    hide Instrument;
    var places := [i] + rest;
    assert forall k :: k in places <==> k == i || k in rest;
  }

  /** The invoice after these providers were tried: the last may have taken the
      money. */
  function AfterTries(inv: Invoice, c: Charging, places: seq<nat>, amount: int): Invoice
    requires forall x :: 0 <= x < |places| ==> places[x] < |c.enabled|
  {
    var tried := inv.(attempts := inv.attempts + AttemptsFor(c, places, amount));
    if places != [] && Took(c, places[|places| - 1])
    then tried.(paid := inv.paid + amount, state := StateAfter(inv.state, inv.total, inv.paid + amount, inv.credited))
    else tried
  }

  lemma ThroughIsOneTry(b: Books, id: nat, c: Charging, i: nat, amount: int)
    requires id in b.invoices && i < |c.enabled|
    ensures StoredKey(c, i) == KeyAt(c, i)
    ensures var d := ChargeThrough(b, id, c, i, amount);
            d == if KeyAt(c, i) in b.keys then b
                 else b.(invoices := b.invoices[id := AfterTries(b.invoices[id], c, [i], amount)], keys := b.keys[KeyAt(c, i) := id])
  {
    var inv, o := b.invoices[id], c.outcomes(c.enabled[i]);
    var a := Attempt(KeyAt(c, i), c.enabled[i], amount, if o == Captured then Succeeded else if o == Held then Pending else Failed);
    assert AttemptsFor(c, [i], amount) == [a];
    var tried := inv.(attempts := inv.attempts + [a]);
    SettledState(tried.(paid := tried.paid + amount));
    hide Settled;
    hide StateAfter;
  }

  lemma TriesAppend(inv: Invoice, c: Charging, i: nat, rest: seq<nat>, amount: int)
    requires i < |c.enabled| && !Took(c, i) && forall x :: 0 <= x < |rest| ==> rest[x] < |c.enabled|
    ensures AfterTries(AfterTries(inv, c, [i], amount), c, rest, amount) == AfterTries(inv, c, [i] + rest, amount)
  {
    hide StateAfter;
    assert AttemptsFor(c, [i] + rest, amount) == AttemptsFor(c, [i], amount) + AttemptsFor(c, rest, amount);
    hide AttemptsFor;
    assert rest != [] ==> ([i] + rest)[|rest|] == rest[|rest| - 1];
    assert inv.attempts + (AttemptsFor(c, [i], amount) + AttemptsFor(c, rest, amount)) ==
           inv.attempts + AttemptsFor(c, [i], amount) + AttemptsFor(c, rest, amount);
  }

  lemma NoTries(inv: Invoice, c: Charging, amount: int)
    ensures AfterTries(inv, c, [], amount) == inv
  {
    assert inv.attempts + [] == inv.attempts;
  }

  function KeysAt(c: Charging, places: seq<nat>): set<string>
    requires forall x :: 0 <= x < |places| ==> places[x] < |c.enabled|
  {
    set x | 0 <= x < |places| :: KeyAt(c, places[x])
  }

  lemma KeysAtCons(c: Charging, i: nat, rest: seq<nat>)
    requires i < |c.enabled| && forall x :: 0 <= x < |rest| ==> rest[x] < |c.enabled|
    ensures KeysAt(c, [i]) == {KeyAt(c, i)} && KeysAt(c, [i] + rest) == {KeyAt(c, i)} + KeysAt(c, rest)
  {
    hide KeyAt;
    var all := [i] + rest;
    forall key | key in KeysAt(c, rest) ensures key in KeysAt(c, all) {
      var x :| 0 <= x < |rest| && KeyAt(c, rest[x]) == key;
      assert all[x + 1] == rest[x];
    }
    assert all[0] == i && [i][0] == i;
  }

  /** The failover loop tries exactly those providers, in order, and nothing else
      in the books changes. */
  lemma {:induction false} LoopTries(b: Books, id: nat, c: Charging, i: nat, amount: int) returns (places: seq<nat>)
    requires id in b.invoices && i <= |c.enabled|
    ensures TriedAt(b.keys.Keys, c, i, places)
    ensures var d := ChargeFrom(b, id, c, i, amount);
            && d.keys.Keys == b.keys.Keys + KeysAt(c, places)
            && d == b.(invoices := b.invoices[id := AfterTries(b.invoices[id], c, places, amount)], keys := d.keys)
    decreases |c.enabled| - i
  {
    hide KeyAt;
    hide StoredKey;
    hide Took;
    hide PickMethod;
    hide Instrument;
    hide AfterTries;
    hide ChargeThrough;
    if i == |c.enabled| {
      places := [];
      NoTries(b.invoices[id], c, amount);
    } else {
      InstrumentIff(c, i);
      ThroughIsOneTry(b, id, c, i, amount);
      if !Instrument(c, i) {
        places := LoopTries(b, id, c, i + 1, amount);
        TriedNone(b.keys.Keys, c, i, places);
      } else {
        places := LoopGoesOn(b, id, c, i, amount);
      }
    }
  }

  /** From a provider with an instrument on. */
  lemma {:induction false} LoopGoesOn(b: Books, id: nat, c: Charging, i: nat, amount: int) returns (places: seq<nat>)
    requires id in b.invoices && i < |c.enabled| && Instrument(c, i)
    ensures TriedAt(b.keys.Keys, c, i, places)
    ensures var d := ChargeFrom(b, id, c, i, amount);
            && d.keys.Keys == b.keys.Keys + KeysAt(c, places)
            && d == b.(invoices := b.invoices[id := AfterTries(b.invoices[id], c, places, amount)], keys := d.keys)
    decreases |c.enabled| - i, 0
  {
    hide KeyAt;
    hide StoredKey;
    hide PickMethod;
    hide Instrument;
    hide AfterTries;
    hide ChargeThrough;
    hide TriedAt;
    InstrumentIff(c, i);
    ThroughIsOneTry(b, id, c, i, amount);
    TriedLast(b.keys.Keys, c, i);
    NoTries(b.invoices[id], c, amount);
    KeysAtCons(c, i, []);
    var next := ChargeThrough(b, id, c, i, amount);
    if Stops(b, c, i) {
      places := if KeyAt(c, i) in b.keys then [] else [i];
    } else {
      var rest := LoopTries(next, id, c, i + 1, amount);
      assert forall x :: 0 <= x < |rest| ==> rest[x] < |c.enabled| by { TriedInside(next.keys.Keys, c, i + 1, rest); }
      if KeyAt(c, i) in b.keys {
        places := rest;
        TriedNone(b.keys.Keys, c, i, rest);
      } else {
        places := [i] + rest;
        assert next.keys.Keys == b.keys.Keys + {KeyAt(c, i)};
        TriedFirst(b.keys.Keys, c, i, rest);
        TriesAppend(b.invoices[id], c, i, rest, amount);
        KeysAtCons(c, i, rest);
      }
    }
  }

  lemma TriedInside(keys: set<string>, c: Charging, i: nat, places: seq<nat>)
    requires TriedAt(keys, c, i, places)
    ensures forall x :: 0 <= x < |places| ==> places[x] < |c.enabled|
  {
  }

  // -------------------------------------------------------- runs and refunds

  /** The provider is never told to give back more than was paid. */
  predicate SentOk(i: Invoice)
  {
    forall x :: x in i.sent ==> 0 < x <= i.paid
  }

  predicate AllSentOk(b: Books)
  {
    forall id :: id in b.invoices ==> SentOk(b.invoices[id])
  }

  /** One invoice changes, and its refund orders stay within what it was paid. */
  lemma OneChanged(b: Books, d: Books, id: nat, i: Invoice)
    requires AllSentOk(b) && d.invoices == b.invoices[id := i] && SentOk(i)
    ensures AllSentOk(d)
  {
    hide SentOk;
  }

  lemma GrownSent(i: Invoice, j: Invoice)
    requires SentOk(i) && i.sent == j.sent && i.paid <= j.paid
    ensures SentOk(j)
  {
  }

  lemma ChargeSent(b: Books, tenant: string, id: nat, c: Charging)
    requires AllSentOk(b)
    ensures AllSentOk(ChargeInvoice(b, tenant, id, c).0)
  {
    hide AllSentOk;
    hide SentOk;
    ChargeReplies(b, tenant, id, c);
    var (d, r) := ChargeInvoice(b, tenant, id, c);
    if r == Accepted {
      var inv := b.invoices[id];
      var due := inv.total - inv.paid - inv.credited;
      var places := LoopTries(b, id, c, 0, due);
      hide ChargeInvoice;
      TriedInside(b.keys.Keys, c, 0, places);
      var after := AfterTries(inv, c, places, due);
      assert SentOk(inv) by { Every(b, id); }
      GrownSent(inv, after);
      OneChanged(b, d, id, after);
    }
  }

  lemma Every(b: Books, id: nat)
    requires AllSentOk(b) && id in b.invoices
    ensures SentOk(b.invoices[id])
  {
  }

  lemma RefundSent(b: Books, tenant: string, id: nat, amount: int, providerOk: bool)
    requires AllSentOk(b)
    ensures AllSentOk(RefundPayment(b, tenant, id, amount, providerOk).0)
  {
    hide AllSentOk;
    RefundExactly(b, tenant, id, amount, providerOk);
    var (d, r) := RefundPayment(b, tenant, id, amount, providerOk);
    hide RefundPayment;
    if d != b {
      var i := b.invoices[id];
      Every(b, id);
      assert SentOk(i.(sent := i.sent + [amount]));
      OneChanged(b, d, id, d.invoices[id]);
    }
  }

  lemma IssueSent(b: Books, tenant: string, id: nat)
    requires AllSentOk(b)
    ensures AllSentOk(IssueInvoice(b, tenant, id).0)
  {
    IssueExactly(b, tenant, id);
  }

  lemma ApplySent(b: Books, tenant: string, id: nat)
    requires AllSentOk(b)
    ensures AllSentOk(ApplyBalance(b, tenant, id).0)
  {
    ApplyExactly(b, tenant, id);
    hide ApplyBalance;
    hide Balance;
    hide StateAfter;
  }

  lemma OpSent(b: Books, op: Op)
    requires AllSentOk(b)
    ensures AllSentOk(Apply(b, op).0)
  {
    hide StateAfter;
    hide Balance;
    match op
    case OpDraft(t) => DraftExactly(b, t);
    case OpLine(t, id, line, tax) => AddLineExactly(b, t, id, line, tax);
    case OpIssue(t, id) => IssueSent(b, t, id);
    case OpMark(t, id, target) => MarkExactly(b, t, id, target);
    case OpGrant(t, amount) => GrantExactly(b, t, amount, t);
    case OpIssueAndApply(t, id) => FinishExactly(b, t, id); IssueSent(b, t, id); ApplySent(IssueInvoice(b, t, id).0, t, id);
    case OpPay(t, id, amount) => PayExactly(b, t, id, amount);
    case OpNote(t, id, amount) => NoteExactly(b, t, id, amount);
    case OpRefund(t, id, amount, ok) => RefundSent(b, t, id, amount, ok);
    case OpCharge(t, id, c) => ChargeSent(b, t, id, c);
  }

  /** In every run from empty books, no single refund order exceeds what the
      invoice was paid, and all are positive. */
  lemma {:induction false} RefundOrdersWithinPayments(ops: seq<Op>)
    ensures forall id, x :: id in Run(ops).invoices && x in Run(ops).invoices[id].sent ==> 0 < x <= Run(ops).invoices[id].paid
    ensures AllSentOk(Run(ops))
  {
    if ops != [] {
      hide Apply;
      RefundOrdersWithinPayments(ops[..|ops| - 1]);
      OpSent(Run(ops[..|ops| - 1]), ops[|ops| - 1]);
    }
    assert forall id :: id in Run(ops).invoices ==> SentOk(Run(ops).invoices[id]);
  }
}
