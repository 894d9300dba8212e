/** One invoice with its lines, credit notes, payment attempts and refunds, and
    the arithmetic that each operation does on it. */
module Invoices {
  import opened Attempts
  import opened Money

  datatype InvoiceState =
    Draft | Issued | Due | Overdue | Processing | Partial | Paid | Disputed | Cancelled | Refunded

  datatype Line = Line(quantityMilli: int, unitPrice: int, amount: int)

  datatype CreditNote = CreditNote(number: int, amount: int, tax: int)

  datatype Attempt = Attempt(key: string, provider: string, amount: int, state: PaymentState)

  /** `sent` lists what the provider was told to give back, `refunds` what the
      books recorded of it. */
  datatype Invoice = Invoice(
    tenant: string,
    state: InvoiceState,
    number: int,
    lines: seq<Line>,
    discount: int,
    subtotal: int,
    tax: int,
    total: int,
    paid: int,
    credited: int,
    notes: seq<CreditNote>,
    attempts: seq<Attempt>,
    sent: seq<int>,
    refunds: seq<int>)

  /** The tax due on a net amount, never negative. */
  type Tax = int -> nat

  function NewDraft(tenant: string): Invoice
  {
    Invoice(tenant, Draft, 0, [], 0, 0, 0, 0, 0, 0, [], [], [], [])
  }

  predicate Frozen(i: Invoice)
  {
    i.state != Draft
  }

  function Successors(from: InvoiceState): set<InvoiceState>
  {
    match from
    case Draft => {Issued, Cancelled}
    case Issued => {Due, Processing, Disputed, Cancelled}
    case Due => {Overdue, Processing, Partial, Disputed, Cancelled}
    case Overdue => {Processing, Partial, Disputed, Cancelled}
    case Processing => {Paid, Partial, Due, Disputed}
    case Partial => {Processing, Paid, Overdue, Disputed, Cancelled}
    case Paid => {Refunded, Disputed}
    case Disputed => {Paid, Refunded, Cancelled, Due}
    case Cancelled => {}
    case Refunded => {}
  }

  predicate CanTransition(from: InvoiceState, to: InvoiceState)
  {
    to in Successors(from)
  }

  function ClampNonNegative(x: int): (r: nat)
  {
    if x < 0 then 0 else x
  }

  function BalanceDue(i: Invoice): nat
  {
    ClampNonNegative(i.total - i.paid - i.credited)
  }

  // -------------------------------------------------------------------- sums

  function LineSum(lines: seq<Line>): int
  {
    if lines == [] then 0 else LineSum(lines[..|lines| - 1]) + lines[|lines| - 1].amount
  }

  function NoteSum(notes: seq<CreditNote>): int
  {
    if notes == [] then 0 else NoteSum(notes[..|notes| - 1]) + notes[|notes| - 1].amount
  }

  function Sum(xs: seq<int>): int
  {
    if xs == [] then 0 else Sum(xs[..|xs| - 1]) + xs[|xs| - 1]
  }

  /** How many attempts took the money. */
  function Successes(attempts: seq<Attempt>): nat
  {
    if attempts == [] then 0
    else Successes(attempts[..|attempts| - 1]) + if attempts[|attempts| - 1].state == Succeeded then 1 else 0
  }

  lemma SumsSnoc(l: seq<Line>, line: Line, n: seq<CreditNote>, note: CreditNote, xs: seq<int>, x: int, a: seq<Attempt>, at: Attempt)
    ensures LineSum(l + [line]) == LineSum(l) + line.amount
    ensures NoteSum(n + [note]) == NoteSum(n) + note.amount
    ensures Sum(xs + [x]) == Sum(xs) + x
    ensures Successes(a + [at]) == Successes(a) + if at.state == Succeeded then 1 else 0
  {
    assert (l + [line])[..|l|] == l;
    assert (n + [note])[..|n|] == n;
    assert (xs + [x])[..|xs|] == xs;
    assert (a + [at])[..|a|] == a;
  }

  // -------------------------------------------------------------- operations

  /** Defaults of a new line: one unit, priced from its unit price. */
  function Priced(line: Line): Line
  {
    var q := if line.quantityMilli == 0 then 1000 else line.quantityMilli;
    Line(q, line.unitPrice, if line.amount == 0 then Prorate(line.unitPrice, q, 1000) else line.amount)
  }

  function Recalculated(i: Invoice, tax: Tax): Invoice
  {
    var subtotal := LineSum(i.lines);
    var net := ClampNonNegative(subtotal - i.discount);
    i.(subtotal := subtotal, tax := tax(net), total := net + tax(net))
  }

  function WithLine(i: Invoice, line: Line, tax: Tax): Invoice
  {
    Recalculated(i.(lines := i.lines + [Priced(line)]), tax)
  }

  /** `settleIfPaid`: moves to paid or partial where the state machine allows it. */
  function Settled(i: Invoice): Invoice
  {
    if BalanceDue(i) != 0 && i.paid == 0 && i.credited == 0 then i else
    var target := if BalanceDue(i) == 0 then Paid else Partial;
    if i.state == target || !CanTransition(i.state, target) then i else i.(state := target)
  }

  function WithPayment(i: Invoice, amount: int): Invoice
  {
    Settled(i.(paid := i.paid + amount))
  }

  function WithCredit(i: Invoice, amount: int): Invoice
  {
    Settled(i.(credited := i.credited + amount))
  }

  function WithNote(i: Invoice, number: int, amount: int): Invoice
  {
    var tax := if i.subtotal > 0 then Prorate(i.tax, amount, i.total) else 0;
    Settled(i.(notes := i.notes + [CreditNote(number, amount, tax)], credited := i.credited + amount))
  }

  // --------------------------------------------------------------- invariant

  /** The books of one invoice balance; `applied` is the account credit it has
      consumed so far. */
  predicate Balanced(i: Invoice, applied: int)
  {
    && i.subtotal == LineSum(i.lines)
    && i.tax >= 0 && i.total == ClampNonNegative(i.subtotal - i.discount) + i.tax
    && i.paid >= 0
    && 0 <= i.credited <= i.total
    && applied >= 0 && i.credited == NoteSum(i.notes) + applied
    && 0 <= Sum(i.refunds) <= NoteSum(i.notes)
    && (i.state == Draft ==> i.paid == 0 && i.credited == 0 && i.attempts == [] && i.notes == [])
    && Successes(i.attempts) <= 1
    && (Successes(i.attempts) == 0 ==> Sum(i.refunds) == 0)
    && (Successes(i.attempts) == 1 ==> i.paid + i.credited - Sum(i.refunds) >= i.total)
  }

  /** What later operations may do to an invoice: once issued its figures are
      fixed, and money only ever accumulates. */
  predicate Continues(i: Invoice, j: Invoice)
  {
    && i.tenant == j.tenant
    && (Frozen(i) ==> Frozen(j) && i.number == j.number && i.lines == j.lines && i.discount == j.discount &&
                      i.subtotal == j.subtotal && i.tax == j.tax && i.total == j.total)
    && i.paid <= j.paid && i.credited <= j.credited
    && i.notes <= j.notes && i.attempts <= j.attempts && i.sent <= j.sent && i.refunds <= j.refunds
  }

  lemma ContinuesTransitive(i: Invoice, j: Invoice, k: Invoice)
    requires Continues(i, j) && Continues(j, k)
    ensures Continues(i, k)
  {
  }

  /** Credited money never exceeds the total and recorded refunds never exceed
      what was paid, although each refund is only checked on its own. */
  lemma BalancedBounds(i: Invoice, applied: int)
    requires Balanced(i, applied)
    ensures Sum(i.refunds) <= i.paid
    ensures Sum(i.refunds) <= i.credited <= i.total
    ensures Successes(i.attempts) == 1 ==> BalanceDue(i) == 0
  {
  }

  lemma SettledOnlyMovesState(i: Invoice)
    ensures Settled(i) == i.(state := Settled(i).state)
    ensures Settled(i).state == Draft <==> i.state == Draft
  {
  }

  /** A payment that clears the balance leaves the invoice paid exactly when its
      state has an edge to paid, or is paid already. */
  lemma PaidIffEdge(i: Invoice, amount: int)
    requires i.total <= i.paid + amount + i.credited
    ensures WithPayment(i, amount).state == Paid <==> i.state in {Processing, Partial, Disputed, Paid}
  {
  }

  /** A line priced from its unit price comes to unit price times quantity,
      rounded, exactly for quantities up to one unit, or when the part above one
      unit rounds to nothing: a larger quantity is charged as one unit. */
  lemma UnitPricingIff(unitPrice: int, quantityMilli: int)
    requires quantityMilli > 0
    ensures IsNearest(unitPrice * quantityMilli, 1000, Priced(Line(quantityMilli, unitPrice, 0)).amount) <==>
              quantityMilli <= 1000 || 2 * Abs(unitPrice * (quantityMilli - 1000)) < 1000
  {
    hide IsNearest;
    hide Prorate;
    hide Abs;
    if quantityMilli <= 1000 {
      ProrateIsNearest(unitPrice, quantityMilli, 1000);
    } else {
      var extra := unitPrice * (quantityMilli - 1000);
      WholeUnits(unitPrice, quantityMilli);
      NearestWithout(unitPrice, extra);
    }
  }

  lemma WholeUnits(unitPrice: int, quantityMilli: int)
    requires quantityMilli > 1000
    ensures Prorate(unitPrice, quantityMilli, 1000) == unitPrice
    ensures var extra := unitPrice * (quantityMilli - 1000);
            && unitPrice * quantityMilli == unitPrice * 1000 + extra
            && (unitPrice >= 0 ==> extra >= 0) && (unitPrice <= 0 ==> extra <= 0)
  {
    hide RoundHalfAway;
    Product(unitPrice, quantityMilli - 1000);
  }

  lemma Product(a: int, k: nat)
    ensures a * (k + 1000) == a * 1000 + a * k
    ensures (a >= 0 ==> a * k >= 0) && (a <= 0 ==> a * k <= 0)
  {
  }

  /** Leaving out `extra` thousandths still rounds right when they are too few. */
  lemma NearestWithout(units: int, extra: int)
    requires (units >= 0 ==> extra >= 0) && (units <= 0 ==> extra <= 0)
    ensures IsNearest(units * 1000 + extra, 1000, units) <==> 2 * Abs(extra) < 1000
  {
  }

  lemma LineKeeps(i: Invoice, line: Line, tax: Tax, applied: int)
    requires Balanced(i, applied) && i.state == Draft
    ensures Balanced(WithLine(i, line, tax), applied) && Continues(i, WithLine(i, line, tax))
  {
  }

  lemma PaymentKeeps(i: Invoice, amount: int, applied: int)
    requires Balanced(i, applied) && Frozen(i) && amount > 0
    ensures Balanced(WithPayment(i, amount), applied) && Continues(i, WithPayment(i, amount))
  {
    SettledOnlyMovesState(i.(paid := i.paid + amount));
  }

  lemma CreditKeeps(i: Invoice, amount: int, applied: int)
    requires Balanced(i, applied) && Frozen(i) && 0 < amount <= BalanceDue(i)
    ensures Balanced(WithCredit(i, amount), applied + amount) && Continues(i, WithCredit(i, amount))
  {
    SettledOnlyMovesState(i.(credited := i.credited + amount));
  }

  lemma NoteKeeps(i: Invoice, number: int, amount: int, applied: int)
    requires Balanced(i, applied) && Frozen(i) && 0 < amount <= i.total - i.credited
    ensures Balanced(WithNote(i, number, amount), applied) && Continues(i, WithNote(i, number, amount))
    ensures NoteSum(WithNote(i, number, amount).notes) == NoteSum(i.notes) + amount
  {
    hide Prorate;
    hide Balanced;
    hide Continues;
    hide Settled;
    var tax := if i.subtotal > 0 then Prorate(i.tax, amount, i.total) else 0;
    var note := CreditNote(number, amount, tax);
    var noted := i.(notes := i.notes + [note], credited := i.credited + amount);
    NotedKeeps(i, note, applied);
    SettledKeeps(i, noted, applied);
    SettledOnlyMovesState(noted);
    NoteSnoc(i.notes, note);
  }

  /** A credit note carries the nearest whole share of the invoice's tax. */
  lemma NoteTaxIsShare(i: Invoice, number: int, amount: int)
    requires i.subtotal > 0 && 0 < amount <= i.total
    ensures var notes := WithNote(i, number, amount).notes;
            && notes == i.notes + [CreditNote(number, amount, notes[|i.notes|].tax)]
            && IsNearest(i.tax * amount, i.total, notes[|i.notes|].tax)
  {
    ProrateIsNearest(i.tax, amount, i.total);
    hide Prorate;
    hide IsNearest;
    var note := CreditNote(number, amount, Prorate(i.tax, amount, i.total));
    SettledOnlyMovesState(i.(notes := i.notes + [note], credited := i.credited + amount));
    hide Settled;
  }

  lemma NotedKeeps(i: Invoice, note: CreditNote, applied: int)
    requires Balanced(i, applied) && Frozen(i) && 0 < note.amount <= i.total - i.credited
    ensures var noted := i.(notes := i.notes + [note], credited := i.credited + note.amount);
            Balanced(noted, applied) && Continues(i, noted)
  {
    NoteSnoc(i.notes, note);
    hide NoteSum;
    hide LineSum;
    hide Sum;
    hide Successes;
  }

  /** Settling changes only the state, and never back to draft. */
  lemma SettledKeeps(i: Invoice, j: Invoice, applied: int)
    requires Balanced(j, applied) && Frozen(j) && Continues(i, j)
    ensures Balanced(Settled(j), applied) && Continues(i, Settled(j))
  {
    SettledOnlyMovesState(j);
    hide Settled;
  }

  lemma NoteSnoc(notes: seq<CreditNote>, note: CreditNote)
    ensures NoteSum(notes + [note]) == NoteSum(notes) + note.amount
  {
    assert (notes + [note])[..|notes|] == notes;
  }
}
