/** Usage rollups and the invoice run that charges for them, statement by
    statement, so that a run may be cut off anywhere. */
module Metering {
  import opened Text

  /** A stored rollup row; its identity is its position in the table. */
  datatype Rollup = Rollup(tenant: string, meter: string, start: int, end: int,
                           total: int, included: int, overage: int, invoiced: bool)

  /** An overage line: which row it charges for, how many units, how much. */
  datatype Line = Line(row: nat, quantity: int, amount: int)

  /** A row as the run read it. */
  datatype Item = Item(row: nat, meter: string, overage: int)

  /** What looking up the price of a meter comes to. */
  datatype Price = UnknownMeter | QuotaError | PerUnit(unit: int)

  /** The invoice run in progress: `lines` are those of its draft. */
  datatype Run = Run(pending: seq<Item>, lines: seq<Line>, billed: seq<nat>, next: nat, marking: bool)

  datatype State = State(rows: seq<Rollup>, issued: seq<seq<Line>>, current: Option<Run>)

  const UNLIMITED := -1

  // ----------------------------------------------------------------- rollups

  /** Splits a total into what the plan includes and what is overage. */
  function SplitUsage(total: int, limit: Option<int>): (r: (int, int))
    ensures r.0 + r.1 == total && r.1 >= 0
    ensures r.1 > 0 <==> limit.Some? && limit.value != UNLIMITED && total > limit.value
    ensures r.1 > 0 ==> r.0 == limit.value
  {
    if limit.Some? && limit.value != UNLIMITED && total > limit.value then (limit.value, total - limit.value) else (total, 0)
  }

  function NewRollup(tenant: string, meter: string, start: int, end: int, total: int, limit: Option<int>): Rollup
  {
    var (included, overage) := SplitUsage(total, limit);
    Rollup(tenant, meter, start, end, total, included, overage, false)
  }

  predicate SameSlot(a: Rollup, b: Rollup)
  {
    a.tenant == b.tenant && a.meter == b.meter && a.start == b.start
  }

  /** An open row for the same tenant, meter and period. */
  predicate Matches(row: Rollup, r: Rollup)
  {
    SameSlot(row, r) && !row.invoiced
  }

  function Restated(row: Rollup, r: Rollup): Rollup
  {
    row.(total := r.total, included := r.included, overage := r.overage, end := r.end)
  }

  /** `saveRollup`: replaces the open row of the slot, or opens a new one. */
  function Saved(rows: seq<Rollup>, r: Rollup): seq<Rollup>
  {
    if exists k :: 0 <= k < |rows| && Matches(rows[k], r)
    then seq(|rows|, k requires 0 <= k < |rows| => if Matches(rows[k], r) then Restated(rows[k], r) else rows[k])
    else rows + [r]
  }

  predicate RowsOk(rows: seq<Rollup>)
  {
    forall k :: 0 <= k < |rows| ==> rows[k].included + rows[k].overage == rows[k].total && rows[k].overage >= 0
  }

  /** At most one open row per tenant, meter and period. */
  predicate OneOpenRow(rows: seq<Rollup>)
  {
    forall j, k :: 0 <= j < k < |rows| && !rows[j].invoiced && !rows[k].invoiced ==> !SameSlot(rows[j], rows[k])
  }

  /** Invoiced rows are never touched again, and no row disappears. */
  predicate Keeps(before: seq<Rollup>, after: seq<Rollup>)
  {
    |before| <= |after| && forall k :: 0 <= k < |before| && before[k].invoiced ==> after[k] == before[k]
  }

  lemma SavedKeeps(rows: seq<Rollup>, r: Rollup)
    requires RowsOk(rows) && OneOpenRow(rows) && !r.invoiced && r.included + r.overage == r.total && r.overage >= 0
    ensures RowsOk(Saved(rows, r)) && OneOpenRow(Saved(rows, r)) && Keeps(rows, Saved(rows, r))
  {
  }

  /** After saving, the slot has one open row and it carries the new figures. */
  lemma SavedIsCurrent(rows: seq<Rollup>, r: Rollup)
    requires OneOpenRow(rows) && !r.invoiced
    ensures exists k :: 0 <= k < |Saved(rows, r)| && Saved(rows, r)[k] == r
    ensures forall k :: 0 <= k < |Saved(rows, r)| && Matches(Saved(rows, r)[k], r) ==> Saved(rows, r)[k] == r
  {
    var out := Saved(rows, r);
    if k :| 0 <= k < |rows| && Matches(rows[k], r) {
      assert out[k] == r;
    } else {
      assert out[|rows|] == r;
    }
  }

  /** A save, row by row: every open row of that tenant, meter and start takes the
      new figures; if there is none, one is added; nothing else changes. */
  lemma SavedExactly(rows: seq<Rollup>, r: Rollup, k: nat)
    requires k < |rows|
    ensures var out, row := Saved(rows, r), rows[k];
            var open := (a: Rollup) => a.tenant == r.tenant && a.meter == r.meter && a.start == r.start && !a.invoiced;
            && out[k] == (if open(row) then Rollup(r.tenant, r.meter, r.start, r.end, r.total, r.included, r.overage, false) else row)
            && ((exists j :: 0 <= j < |rows| && open(rows[j])) ==> |out| == |rows|)
            && ((forall j :: 0 <= j < |rows| ==> !open(rows[j])) ==> out == rows + [r])
  {
  }

  /** A rollup of one total: what a limit leaves over is overage; -1 is no limit. */
  lemma NewRollupExactly(tenant: string, meter: string, start: int, end: int, total: int, limit: Option<int>)
    ensures var r := NewRollup(tenant, meter, start, end, total, limit);
            && r.tenant == tenant && r.meter == meter && r.start == start && r.end == end && r.total == total && !r.invoiced
            && r.included + r.overage == total
            && r.overage == if limit.Some? && limit.value != -1 && limit.value < total then total - limit.value else 0
  {
  }

  // ------------------------------------------------------------- invoice run

  predicate InPeriod(row: Rollup, tenant: string, start: int, end: int)
  {
    row.tenant == tenant && start <= row.start < end && !row.invoiced
  }

  /** `PendingRollups`: the tenant's open rows of the period. */
  function Pending(rows: seq<Rollup>, tenant: string, start: int, end: int): seq<Item>
  {
    if rows == [] then [] else
    var k := |rows| - 1;
    Pending(rows[..k], tenant, start, end) +
    if InPeriod(rows[k], tenant, start, end) then [Item(k, rows[k].meter, rows[k].overage)] else []
  }

  predicate Charges(i: Item, p: Price)
  {
    i.overage > 0 && p.PerUnit? && p.unit > 0
  }

  predicate Bills(i: Item, p: Price)
  {
    i.overage <= 0 || p != UnknownMeter
  }

  /** The line a row adds to the draft, if any. */
  function LineFor(i: Item, p: Price): seq<Line>
  {
    if Charges(i, p) then [Line(i.row, i.overage, p.unit * i.overage)] else []
  }

  /** The row, if the run counts it as dealt with. */
  function RowFor(i: Item, p: Price): seq<nat>
  {
    if Bills(i, p) then [i.row] else []
  }

  function Flag(rows: seq<Rollup>, k: nat): seq<Rollup>
  {
    if k < |rows| then rows[k := rows[k].(invoiced := true)] else rows
  }

  function Begin(s: State, tenant: string, start: int, end: int): State
  {
    if s.current.Some? then s else s.(current := Some(Run(Pending(s.rows, tenant, start, end), [], [], 0, false)))
  }

  /** The next statement of the run; `p` is the price it finds if it looks one up. */
  function Advance(s: State, p: Price): State
  {
    match s.current
    case None => s
    case Some(r) =>
      if !r.marking then
        if r.next < |r.pending| then
          var i := r.pending[r.next];
          s.(current := Some(r.(
            lines := r.lines + LineFor(i, p),
            billed := r.billed + RowFor(i, p),
            next := r.next + 1)))
        else s.(current := Some(r.(marking := true, next := 0)))
      else if r.next < |r.billed| then s.(rows := Flag(s.rows, r.billed[r.next]), current := Some(r.(next := r.next + 1)))
      else s.(issued := s.issued + [r.lines], current := None)
  }

  datatype Op =
    | OpRollUp(tenant: string, meter: string, start: int, end: int, total: int, limit: Option<int>)
    | OpBegin(tenant: string, start: int, end: int)
    | OpAdvance(price: Price)
    | OpCut

  function Apply(s: State, op: Op): State
  {
    match op
    case OpRollUp(t, m, start, end, total, limit) => s.(rows := Saved(s.rows, NewRollup(t, m, start, end, total, limit)))
    case OpBegin(t, start, end) => Begin(s, t, start, end)
    case OpAdvance(p) => Advance(s, p)
    case OpCut => s.(current := None)
  }

  function RunOps(ops: seq<Op>): State
  {
    if ops == [] then State([], [], None) else Apply(RunOps(ops[..|ops| - 1]), ops[|ops| - 1])
  }

  // --------------------------------------------------------------- invariant

  predicate Carries(lines: seq<Line>, row: nat)
  {
    exists x :: 0 <= x < |lines| && lines[x].row == row
  }

  /** Some issued invoice charges for the row. */
  predicate ChargedFor(s: State, row: nat)
  {
    exists a :: 0 <= a < |s.issued| && Carries(s.issued[a], row)
  }

  predicate DistinctLines(lines: seq<Line>)
  {
    forall x, y :: 0 <= x < y < |lines| ==> lines[x].row != lines[y].row
  }

  ghost predicate IssuedOk(s: State)
  {
    && (forall a, x :: 0 <= a < |s.issued| && 0 <= x < |s.issued[a]| ==>
          s.issued[a][x].row < |s.rows| && s.rows[s.issued[a][x].row].invoiced)
    && (forall a :: 0 <= a < |s.issued| ==> DistinctLines(s.issued[a]))
    && (forall a, b, row :: 0 <= a < b < |s.issued| && Carries(s.issued[a], row) ==> !Carries(s.issued[b], row))
  }

  predicate Among(row: nat, items: seq<Item>, n: nat)
    requires n <= |items|
  {
    exists i :: 0 <= i < n && items[i].row == row
  }

  /** The rows read are distinct and nobody has charged for them yet. */
  predicate PendingOk(s: State, items: seq<Item>)
  {
    && (forall i, j :: 0 <= i < j < |items| ==> items[i].row != items[j].row)
    && (forall i :: 0 <= i < |items| ==> items[i].row < |s.rows| && !ChargedFor(s, items[i].row))
  }

  /** What the run has collected comes from the first `n` rows it read. */
  predicate CollectedOk(items: seq<Item>, n: nat, billed: seq<nat>, lines: seq<Line>)
  {
    && n <= |items|
    && (forall b :: b in billed ==> Among(b, items, n))
    && DistinctLines(lines)
    && (forall x :: 0 <= x < |lines| ==> lines[x].row in billed)
  }

  predicate FlagsOk(s: State, r: Run)
    requires PendingOk(s, r.pending)
  {
    && (r.marking ==> r.next <= |r.billed|)
    && (r.marking ==> forall k :: 0 <= k < r.next ==> r.billed[k] < |s.rows| && s.rows[r.billed[k]].invoiced)
    && (forall i :: 0 <= i < |r.pending| && s.rows[r.pending[i].row].invoiced ==>
          r.marking && r.pending[i].row in r.billed[..r.next])
  }

  predicate CurrentOk(s: State, r: Run)
  {
    && PendingOk(s, r.pending)
    && CollectedOk(r.pending, if r.marking then |r.pending| else r.next, r.billed, r.lines)
    && FlagsOk(s, r)
  }

  ghost predicate Inv(s: State)
  {
    && RowsOk(s.rows) && OneOpenRow(s.rows) && IssuedOk(s)
    && (s.current.Some? ==> CurrentOk(s, s.current.value))
  }

  /** `items` are the rows of `rows` that belong to the run, in order. */
  predicate ItemsOf(rows: seq<Rollup>, tenant: string, start: int, end: int, items: seq<Item>)
  {
    && (forall i, j :: 0 <= i < j < |items| ==> items[i].row < items[j].row)
    && (forall i :: 0 <= i < |items| ==>
          && items[i].row < |rows| && InPeriod(rows[items[i].row], tenant, start, end)
          && items[i] == Item(items[i].row, rows[items[i].row].meter, rows[items[i].row].overage))
    && (forall k :: 0 <= k < |rows| && InPeriod(rows[k], tenant, start, end) ==> Among(k, items, |items|))
  }

  lemma ItemsSnoc(init: seq<Rollup>, last: Rollup, tenant: string, start: int, end: int, before: seq<Item>)
    requires ItemsOf(init, tenant, start, end, before)
    ensures ItemsOf(init + [last], tenant, start, end,
              before + if InPeriod(last, tenant, start, end) then [Item(|init|, last.meter, last.overage)] else [])
  {
    hide InPeriod;
    var rows := init + [last];
    var items := before + if InPeriod(last, tenant, start, end) then [Item(|init|, last.meter, last.overage)] else [];
    forall m | 0 <= m < |rows| && InPeriod(rows[m], tenant, start, end) ensures Among(m, items, |items|) {
      if m < |init| {
        assert rows[m] == init[m];
        var i :| 0 <= i < |before| && before[i].row == m;
        assert items[i].row == m;
      } else {
        assert items[|before|].row == m;
      }
    }
  }

  lemma {:induction false} PendingItems(rows: seq<Rollup>, tenant: string, start: int, end: int)
    ensures ItemsOf(rows, tenant, start, end, Pending(rows, tenant, start, end))
  {
    hide InPeriod;
    hide ItemsOf;
    if rows == [] {
      NoItems(tenant, start, end);
    } else {
      var k := |rows| - 1;
      PendingItems(rows[..k], tenant, start, end);
      ItemsSnoc(rows[..k], rows[k], tenant, start, end, Pending(rows[..k], tenant, start, end));
      assert rows == rows[..k] + [rows[k]];
    }
  }

  lemma NoItems(tenant: string, start: int, end: int)
    ensures ItemsOf([], tenant, start, end, [])
  {
  }

  /** The rows an invoice run reads: each open row of the period, once. */
  lemma PendingFacts(rows: seq<Rollup>, tenant: string, start: int, end: int, items: seq<Item>)
    requires items == Pending(rows, tenant, start, end)
    ensures forall i, j :: 0 <= i < j < |items| ==> items[i].row < items[j].row
    ensures forall i :: 0 <= i < |items| ==>
              && items[i].row < |rows| && InPeriod(rows[items[i].row], tenant, start, end)
              && items[i] == Item(items[i].row, rows[items[i].row].meter, rows[items[i].row].overage)
    ensures forall k :: 0 <= k < |rows| && InPeriod(rows[k], tenant, start, end) ==> Among(k, items, |items|)
  {
    PendingItems(rows, tenant, start, end);
    hide Pending;
    hide InPeriod;
  }

  lemma OpenIsUncharged(s: State, row: nat)
    requires IssuedOk(s) && row < |s.rows| && !s.rows[row].invoiced
    ensures !ChargedFor(s, row)
  {
  }

  lemma BeginKeeps(s: State, tenant: string, start: int, end: int)
    requires Inv(s)
    ensures Inv(Begin(s, tenant, start, end))
  {
    if s.current.None? {
      var d := Begin(s, tenant, start, end);
      var items := Pending(s.rows, tenant, start, end);
      PendingFacts(s.rows, tenant, start, end, items);
      SameIssued(s, d);
      forall i | 0 <= i < |items| ensures !ChargedFor(d, items[i].row) {
        OpenIsUncharged(s, items[i].row);
      }
      hide IssuedOk;
      hide ChargedFor;
      hide Pending;
      assert PendingOk(d, items);
      assert IssuedOk(d) by { SameIssuedOk(s, d); }
    }
  }

  /** Saving a rollup never disturbs what has been flagged or issued. */
  lemma RollUpKeeps(s: State, r: Rollup)
    requires Inv(s) && !r.invoiced && r.included + r.overage == r.total && r.overage >= 0
    ensures Inv(s.(rows := Saved(s.rows, r)))
  {
    SavedKeeps(s.rows, r);
    SavedFlags(s.rows, r);
    hide Saved;
    hide RowsOk;
    hide OneOpenRow;
    var d := s.(rows := Saved(s.rows, r));
    assert IssuedOk(d);
    if s.current.Some? {
      SameIssued(s, d);
      assert CurrentOk(d, s.current.value);
    }
  }

  lemma SavedFlags(rows: seq<Rollup>, r: Rollup)
    requires !r.invoiced
    ensures |rows| <= |Saved(rows, r)|
    ensures forall k :: 0 <= k < |rows| ==> Saved(rows, r)[k].invoiced == rows[k].invoiced
  {
    var out := Saved(rows, r);
    assert forall k :: 0 <= k < |rows| ==> out[k].invoiced == rows[k].invoiced;
  }

  lemma SameIssuedOk(s: State, d: State)
    requires IssuedOk(s) && d.issued == s.issued && d.rows == s.rows
    ensures IssuedOk(d)
  {
  }

  lemma SameIssued(s: State, d: State)
    requires s.issued == d.issued
    ensures forall row :: ChargedFor(d, row) == ChargedFor(s, row)
  {
  }

  /** One more row, billed or not, with a line or without. */
  lemma CollectKeeps(items: seq<Item>, n: nat, billed: seq<nat>, lines: seq<Line>, p: Price)
    requires CollectedOk(items, n, billed, lines) && n < |items|
    requires forall i, j :: 0 <= i < j < |items| ==> items[i].row != items[j].row
    ensures CollectedOk(items, n + 1, billed + RowFor(items[n], p), lines + LineFor(items[n], p))
  {
    var i := items[n];
    var billed1 := billed + RowFor(i, p);
    forall b | b in billed1 ensures Among(b, items, n + 1) {
      if b in billed {
        assert Among(b, items, n);
      } else {
        assert items[n].row == b;
      }
    }
    assert i.row !in billed;
    assert billed <= billed1;
    hide Among;
  }

  lemma WorkKeeps(s: State, p: Price)
    requires Inv(s) && s.current.Some? && !s.current.value.marking && s.current.value.next < |s.current.value.pending|
    ensures Inv(Advance(s, p))
  {
    hide IssuedOk;
    hide ChargedFor;
    hide CollectedOk;
    hide RowsOk;
    hide OneOpenRow;
    hide RowFor;
    hide LineFor;
    var d, r := Advance(s, p), s.current.value;
    CollectKeeps(r.pending, r.next, r.billed, r.lines, p);
    SameIssued(s, d);
    SameIssuedOk(s, d);
  }

  lemma MarkKeeps(s: State, p: Price)
    requires Inv(s) && s.current.Some? && s.current.value.marking && s.current.value.next < |s.current.value.billed|
    ensures Inv(Advance(s, p))
  {
    var d, r := Advance(s, p), s.current.value;
    var q := d.current.value;
    assert RowsOk(d.rows);
    assert OneOpenRow(d.rows);
    assert IssuedOk(d);
    SameIssued(s, d);
    assert r.billed[r.next] in r.billed;
    assert Among(r.billed[r.next], r.pending, |r.pending|);
    hide ChargedFor;
    hide IssuedOk;
    assert PendingOk(d, q.pending);
    assert FlagsOk(d, q);
  }

  lemma IssueKeeps(s: State, p: Price)
    requires Inv(s) && s.current.Some? && s.current.value.marking && s.current.value.next == |s.current.value.billed|
    ensures Inv(Advance(s, p))
  {
    var d, r := Advance(s, p), s.current.value;
    forall x | 0 <= x < |r.lines|
      ensures r.lines[x].row < |s.rows| && s.rows[r.lines[x].row].invoiced && !ChargedFor(s, r.lines[x].row)
    {
      var k :| 0 <= k < |r.billed| && r.billed[k] == r.lines[x].row;
      assert Among(r.billed[k], r.pending, |r.pending|);
    }
    hide CurrentOk;
    assert forall a :: 0 <= a < |s.issued| ==> d.issued[a] == s.issued[a];
    assert IssuedOk(d);
  }

  lemma AdvanceKeeps(s: State, p: Price)
    requires Inv(s)
    ensures Inv(Advance(s, p))
  {
    if s.current.Some? {
      var r := s.current.value;
      if !r.marking {
        if r.next < |r.pending| {
          WorkKeeps(s, p);
        } else {
          var d := Advance(s, p);
          SameIssued(s, d);
          SameIssuedOk(s, d);
          hide ChargedFor;
          hide IssuedOk;
        }
      } else if r.next < |r.billed| {
        MarkKeeps(s, p);
      } else {
        IssueKeeps(s, p);
      }
    }
  }

  lemma ApplyKeeps(s: State, op: Op)
    requires Inv(s)
    ensures Inv(Apply(s, op))
  {
    hide Advance;
    hide Begin;
    hide CurrentOk;
    match op
    case OpRollUp(t, m, start, end, total, limit) => RollUpKeeps(s, NewRollup(t, m, start, end, total, limit));
    case OpBegin(t, start, end) => BeginKeeps(s, t, start, end);
    case OpAdvance(p) => AdvanceKeeps(s, p);
    case OpCut => assert IssuedOk(s.(current := None));
  }

  lemma {:induction false} RunInvariant(ops: seq<Op>)
    ensures Inv(RunOps(ops))
  {
    if ops != [] {
      hide Apply;
      hide Inv;
      RunInvariant(ops[..|ops| - 1]);
      ApplyKeeps(RunOps(ops[..|ops| - 1]), ops[|ops| - 1]);
    }
  }

  /** However often invoice runs start, are cut off and start again, each rollup
      row is charged for by at most one line of one issued invoice, and only once
      it is flagged. */
  lemma ChargedAtMostOnce(ops: seq<Op>, a: nat, x: nat, b: nat, y: nat)
    requires a < |RunOps(ops).issued| && x < |RunOps(ops).issued[a]|
    requires b < |RunOps(ops).issued| && y < |RunOps(ops).issued[b]|
    requires RunOps(ops).issued[a][x].row == RunOps(ops).issued[b][y].row
    ensures a == b && x == y
    ensures var s := RunOps(ops); s.issued[a][x].row < |s.rows| && s.rows[s.issued[a][x].row].invoiced
  {
    RunInvariant(ops);
    var s := RunOps(ops);
    var row := s.issued[a][x].row;
    assert Carries(s.issued[a], row) && Carries(s.issued[b], row);
  }

  /** Every rollup splits its total, and a slot has at most one open row. */
  lemma RollupsAddUp(ops: seq<Op>, k: nat)
    requires k < |RunOps(ops).rows|
    ensures var r := RunOps(ops).rows[k]; r.included + r.overage == r.total && r.overage >= 0
    ensures OneOpenRow(RunOps(ops).rows)
  {
    RunInvariant(ops);
  }

  // ---------------------------------------------------- what later steps keep

  lemma ApplyExtends(s: State, op: Op)
    requires Inv(s)
    ensures Keeps(s.rows, Apply(s, op).rows) && s.issued <= Apply(s, op).issued
  {
    hide CurrentOk;
    hide IssuedOk;
    match op
    case OpRollUp(t, m, start, end, total, limit) => SavedKeeps(s.rows, NewRollup(t, m, start, end, total, limit));
    case _ =>
  }

  /** Flagged, on no issued invoice, and not on the draft in progress. */
  predicate Past(s: State, row: nat)
  {
    && row < |s.rows| && s.rows[row].invoiced && !ChargedFor(s, row)
    && (s.current.Some? ==> !Carries(s.current.value.lines, row))
  }

  lemma PastStaysPast(s: State, op: Op, row: nat)
    requires Inv(s) && Past(s, row)
    ensures Past(Apply(s, op), row)
  {
    ApplyExtends(s, op);
    var d := Apply(s, op);
    if op.OpAdvance? && s.current.Some? {
      var r := s.current.value;
      if !r.marking {
        SameIssued(s, d);
        assert r.next < |r.pending| ==> r.pending[r.next].row != row;
      } else if r.next == |r.billed| {
        assert forall a :: 0 <= a < |d.issued| ==> d.issued[a] == if a < |s.issued| then s.issued[a] else r.lines;
      } else {
        SameIssued(s, d);
      }
    } else {
      SameIssued(s, d);
    }
  }

  /** No later run charges for such a row. */
  lemma {:induction false} PastIsForGood(ops: seq<Op>, k: nat, row: nat)
    requires k <= |ops| && Past(RunOps(ops[..k]), row)
    ensures Past(RunOps(ops), row)
    decreases |ops|
  {
    if k == |ops| {
      assert ops[..k] == ops;
    } else {
      var init := ops[..|ops| - 1];
      assert init[..k] == ops[..k];
      PastIsForGood(init, k, row);
      RunInvariant(init);
      hide Inv;
      PastStaysPast(RunOps(init), ops[|ops| - 1], row);
    }
  }

  /** An invoiced row is never restated, reopened or removed. */
  lemma {:induction false} InvoicedRowsAreFinal(ops: seq<Op>, k: nat)
    requires k <= |ops|
    ensures Keeps(RunOps(ops[..k]).rows, RunOps(ops).rows)
    ensures RunOps(ops[..k]).issued <= RunOps(ops).issued
    decreases |ops|
  {
    if k == |ops| {
      assert ops[..k] == ops;
    } else {
      var init := ops[..|ops| - 1];
      assert init[..k] == ops[..k];
      InvoicedRowsAreFinal(init, k);
      RunInvariant(init);
      hide Inv;
      ApplyExtends(RunOps(init), ops[|ops| - 1]);
      hide Apply;
    }
  }

  lemma RunSnoc(ops: seq<Op>, op: Op)
    ensures RunOps(ops + [op]) == Apply(RunOps(ops), op)
  {
    assert (ops + [op])[..|ops|] == ops;
  }

  /** The draft in progress charges for the row. */
  predicate OnDraft(s: State, row: nat)
  {
    s.current.Some? && Carries(s.current.value.lines, row)
  }

  /** A reachable draft charges for three units of a row that is flagged already. */
  lemma FlaggedDraft()
    ensures var read := [OpRollUp("t", "m", 0, 10, 5, Some(2))] + [OpBegin("t", 0, 10)];
            var flagged := read + [OpAdvance(PerUnit(7))] + [OpAdvance(PerUnit(7))] + [OpAdvance(PerUnit(7))];
            var s := RunOps(flagged);
            && s.current == Some(Run([Item(0, "m", 3)], [Line(0, 3, 21)], [0], 1, true))
            && OnDraft(s, 0) && |s.rows| == 1 && s.rows[0].invoiced
  {
    var up := OpRollUp("t", "m", 0, 10, 5, Some(2));
    var row := Rollup("t", "m", 0, 10, 5, 2, 3, false);
    assert [up] == [] + [up];
    RunSnoc([], up);
    assert RunOps([]).rows == [];
    assert RunOps([up]) == State([row], [], None);
    RunSnoc([up], OpBegin("t", 0, 10));
    assert [row][..0] == [];
    assert Pending([row], "t", 0, 10) == [Item(0, "m", 3)];
    hide RunOps;
    var a := OpAdvance(PerUnit(7));
    var read := [up] + [OpBegin("t", 0, 10)];
    var items := [Item(0, "m", 3)];
    assert RunOps(read) == State([row], [], Some(Run(items, [], [], 0, false)));
    RunSnoc(read, a);
    assert [] + LineFor(items[0], PerUnit(7)) == [Line(0, 3, 21)];
    assert [] + RowFor(items[0], PerUnit(7)) == [0];
    assert RunOps(read + [a]) == State([row], [], Some(Run(items, [Line(0, 3, 21)], [0], 1, false)));
    RunSnoc(read + [a], a);
    RunSnoc(read + [a] + [a], a);
    assert Carries([Line(0, 3, 21)], 0) by { assert [Line(0, 3, 21)][0].row == 0; }
  }

  // ----------------------------------------------------------- a run in full

  function Lines(items: seq<Item>, prices: string -> Price): seq<Line>
  {
    if items == [] then [] else LineFor(items[0], prices(items[0].meter)) + Lines(items[1..], prices)
  }

  function Billed(items: seq<Item>, prices: string -> Price): seq<nat>
  {
    if items == [] then [] else RowFor(items[0], prices(items[0].meter)) + Billed(items[1..], prices)
  }

  function FlagAll(rows: seq<Rollup>, ids: seq<nat>): seq<Rollup>
    decreases ids
  {
    if ids == [] then rows else FlagAll(Flag(rows, ids[0]), ids[1..])
  }

  function Left(length: nat, next: nat): nat
  {
    if next < length then length - next else 0
  }

  /** Lets the run in progress go on to its end. */
  function Finish(s: State, prices: string -> Price): State
    decreases if s.current.None? then 0 else if s.current.value.marking then 1 else 2,
              if s.current.None? then 0
              else Left(if s.current.value.marking then |s.current.value.billed| else |s.current.value.pending|, s.current.value.next)
  {
    if s.current.None? then s else
    var r := s.current.value;
    Finish(Advance(s, if !r.marking && r.next < |r.pending| then prices(r.pending[r.next].meter) else UnknownMeter), prices)
  }

  lemma {:induction false} FinishMarking(s: State, prices: string -> Price)
    requires s.current.Some? && s.current.value.marking && s.current.value.next <= |s.current.value.billed|
    ensures var r := s.current.value;
            Finish(s, prices) == State(FlagAll(s.rows, r.billed[r.next..]), s.issued + [r.lines], None)
    decreases |s.current.value.billed| - s.current.value.next
  {
    var r := s.current.value;
    if r.next < |r.billed| {
      FinishMarking(Advance(s, UnknownMeter), prices);
      assert r.billed[r.next..][1..] == r.billed[r.next + 1..];
    }
  }

  lemma {:induction false} FinishWorking(s: State, prices: string -> Price)
    requires s.current.Some? && !s.current.value.marking && s.current.value.next <= |s.current.value.pending|
    ensures var r := s.current.value;
            Finish(s, prices) == State(FlagAll(s.rows, r.billed + Billed(r.pending[r.next..], prices)),
                                       s.issued + [r.lines + Lines(r.pending[r.next..], prices)], None)
    decreases |s.current.value.pending| - s.current.value.next
  {
    hide FlagAll;
    hide RowFor;
    hide LineFor;
    var r := s.current.value;
    if r.next == |r.pending| {
      var d := Advance(s, UnknownMeter);
      FinishMarking(d, prices);
      assert r.billed + [] == r.billed && r.lines + [] == r.lines && r.billed[0..] == r.billed;
    } else {
      var i, rest := r.pending[r.next], r.pending[r.next..];
      var p := prices(i.meter);
      var d := Advance(s, p);
      FinishWorking(d, prices);
      hide Finish;
      assert rest[0] == i && rest[1..] == r.pending[r.next + 1..];
      assert d.current.value.billed + Billed(rest[1..], prices) == r.billed + Billed(rest, prices);
      assert d.current.value.lines + Lines(rest[1..], prices) == r.lines + Lines(rest, prices);
    }
  }

  /** An uninterrupted run, as one step. */
  function Billing(s: State, tenant: string, start: int, end: int, prices: string -> Price): State
  {
    var items := Pending(s.rows, tenant, start, end);
    State(FlagAll(s.rows, Billed(items, prices)), s.issued + [Lines(items, prices)], None)
  }

  lemma UninterruptedRun(s: State, tenant: string, start: int, end: int, prices: string -> Price)
    requires s.current.None?
    ensures Finish(Begin(s, tenant, start, end), prices) == Billing(s, tenant, start, end, prices)
  {
    hide Finish;
    hide FlagAll;
    var items := Pending(s.rows, tenant, start, end);
    FinishWorking(Begin(s, tenant, start, end), prices);
    assert items[0..] == items;
    assert [] + Billed(items, prices) == Billed(items, prices);
    assert [] + Lines(items, prices) == Lines(items, prices);
  }

  lemma {:induction false} LinesSound(items: seq<Item>, prices: string -> Price, l: Line) returns (i: nat)
    requires l in Lines(items, prices)
    ensures i < |items| && l in LineFor(items[i], prices(items[i].meter))
  {
    if l in LineFor(items[0], prices(items[0].meter)) {
      i := 0;
    } else {
      i := LinesSound(items[1..], prices, l);
      i := i + 1;
    }
  }

  lemma {:induction false} BilledSound(items: seq<Item>, prices: string -> Price, row: nat) returns (i: nat)
    requires row in Billed(items, prices)
    ensures i < |items| && row in RowFor(items[i], prices(items[i].meter))
  {
    if row in RowFor(items[0], prices(items[0].meter)) {
      i := 0;
    } else {
      i := BilledSound(items[1..], prices, row);
      i := i + 1;
    }
  }

  lemma {:induction false} Complete(items: seq<Item>, prices: string -> Price, i: nat)
    requires i < |items|
    ensures var p := prices(items[i].meter);
            && (forall l :: l in LineFor(items[i], p) ==> l in Lines(items, prices))
            && (forall row :: row in RowFor(items[i], p) ==> row in Billed(items, prices))
  {
    if i > 0 {
      Complete(items[1..], prices, i - 1);
    }
  }

  lemma {:induction false} FlagAllAt(rows: seq<Rollup>, ids: seq<nat>, k: nat)
    requires k < |rows|
    ensures |FlagAll(rows, ids)| == |rows|
    ensures FlagAll(rows, ids)[k] == if k in ids then rows[k].(invoiced := true) else rows[k]
    decreases ids
  {
    if ids != [] {
      FlagAllAt(Flag(rows, ids[0]), ids[1..], k);
      assert ids == [ids[0]] + ids[1..];
    }
  }

  /** The rows a run reads: those of the tenant that begin in the period and are
      not invoiced yet, each once and in table order. */
  lemma PendingExactly(rows: seq<Rollup>, tenant: string, start: int, end: int, i: Item)
    ensures i in Pending(rows, tenant, start, end) <==>
              && i.row < |rows| && rows[i.row].tenant == tenant && start <= rows[i.row].start && rows[i.row].start < end
              && !rows[i.row].invoiced && i.meter == rows[i.row].meter && i.overage == rows[i.row].overage
    ensures var items := Pending(rows, tenant, start, end);
            forall a, b :: 0 <= a < b < |items| ==> items[a].row < items[b].row
  {
    var items := Pending(rows, tenant, start, end);
    PendingFacts(rows, tenant, start, end, items);
    hide Pending;
    if i in items {
      var a :| 0 <= a < |items| && items[a] == i;
    }
    if i.row < |rows| && InPeriod(rows[i.row], tenant, start, end) {
      var a :| 0 <= a < |items| && items[a].row == i.row;
      assert items[a] in items;
    }
  }

  /** An uninterrupted run flags exactly the tenant's open rows of the period,
      except those with overage on an unknown meter, which stay open; every other
      row is left as it was. */
  lemma RunFlagsExactly(s: State, tenant: string, start: int, end: int, prices: string -> Price, k: nat)
    requires k < |s.rows|
    ensures var d, row := Billing(s, tenant, start, end, prices), s.rows[k];
            && |d.rows| == |s.rows|
            && d.rows[k] == row.(invoiced := d.rows[k].invoiced)
            && (d.rows[k].invoiced <==>
                  || row.invoiced
                  || (&& row.tenant == tenant && start <= row.start && row.start < end
                      && (row.overage <= 0 || prices(row.meter) != UnknownMeter)))
  {
    var items := Pending(s.rows, tenant, start, end);
    PendingFacts(s.rows, tenant, start, end, items);
    hide Pending;
    hide FlagAll;
    hide Lines;
    hide Billed;
    FlagAllAt(s.rows, Billed(items, prices), k);
    if InPeriod(s.rows[k], tenant, start, end) {
      var i :| 0 <= i < |items| && items[i].row == k;
      Complete(items, prices, i);
    }
    if k in Billed(items, prices) {
      var i := BilledSound(items, prices, k);
    }
  }

  lemma LinesExactly(rows: seq<Rollup>, tenant: string, start: int, end: int, prices: string -> Price, l: Line)
    ensures l in Lines(Pending(rows, tenant, start, end), prices) <==>
              && l.row < |rows|
              && var row := rows[l.row];
                 && row.tenant == tenant && start <= row.start && row.start < end && !row.invoiced
                 && row.overage > 0 && prices(row.meter).PerUnit? && prices(row.meter).unit > 0
                 && l.quantity == row.overage && l.amount == prices(row.meter).unit * row.overage
  {
    var items := Pending(rows, tenant, start, end);
    PendingFacts(rows, tenant, start, end, items);
    hide Pending;
    hide Lines;
    if l in Lines(items, prices) {
      var i := LinesSound(items, prices, l);
    }
    if l.row < |rows| && InPeriod(rows[l.row], tenant, start, end) {
      var i :| 0 <= i < |items| && items[i].row == l.row;
      Complete(items, prices, i);
    }
  }

  /** An uninterrupted run issues one invoice, and its lines are exactly: unit
      price times overage, for each of the tenant's open rows of the period that
      has both. */
  lemma RunChargesExactly(s: State, tenant: string, start: int, end: int, prices: string -> Price, l: Line)
    ensures var d := Billing(s, tenant, start, end, prices);
            && |d.issued| == |s.issued| + 1 && d.issued[..|s.issued|] == s.issued && d.current.None?
            && (l in d.issued[|s.issued|] <==>
                  && l.row < |s.rows|
                  && var row := s.rows[l.row];
                     && row.tenant == tenant && start <= row.start && row.start < end && !row.invoiced
                     && row.overage > 0 && prices(row.meter).PerUnit? && prices(row.meter).unit > 0
                     && l.quantity == row.overage && l.amount == prices(row.meter).unit * row.overage)
            && DistinctLines(d.issued[|s.issued|])
  {
    LinesExactly(s.rows, tenant, start, end, prices, l);
    var items := Pending(s.rows, tenant, start, end);
    assert DistinctLines(Lines(items, prices)) by {
      PendingFacts(s.rows, tenant, start, end, items);
      hide Pending;
      hide Lines;
      LinesDistinct(items, prices);
    }
    hide Pending;
    hide Lines;
    hide Billed;
    hide FlagAll;
    hide DistinctLines;
  }

  lemma {:induction false} LinesDistinct(items: seq<Item>, prices: string -> Price)
    requires forall i, j :: 0 <= i < j < |items| ==> items[i].row < items[j].row
    ensures DistinctLines(Lines(items, prices))
  {
    if items != [] {
      LinesDistinct(items[1..], prices);
      var rest := Lines(items[1..], prices);
      forall x | 0 <= x < |rest| ensures rest[x].row != items[0].row {
        assert rest[x] in rest;
        var i := LinesSound(items[1..], prices, rest[x]);
        assert items[1..][i] == items[i + 1];
      }
    }
  }

  // ------------------------------------------------------------ runs cut off

  lemma RunAppend(ops: seq<Op>, more: seq<Op>, op: Op)
    ensures RunOps(ops + (more + [op])) == Apply(RunOps(ops + more), op)
  {
    RunSnoc(ops + more, op);
    assert ops + more + [op] == ops + (more + [op]);
  }

  /** Going on to the end is a list of statements like any other. */
  lemma {:induction false} FinishReached(ops: seq<Op>, more: seq<Op>, prices: string -> Price) returns (all: seq<Op>)
    ensures RunOps(ops + all) == Finish(RunOps(ops + more), prices)
    decreases var s := RunOps(ops + more); if s.current.None? then 0 else if s.current.value.marking then 1 else 2,
              var s := RunOps(ops + more);
              if s.current.None? then 0
              else Left(if s.current.value.marking then |s.current.value.billed| else |s.current.value.pending|, s.current.value.next)
  {
    var s := RunOps(ops + more);
    hide RunOps;
    if s.current.None? {
      all := more;
    } else {
      var r := s.current.value;
      var p := if !r.marking && r.next < |r.pending| then prices(r.pending[r.next].meter) else UnknownMeter;
      RunAppend(ops, more, OpAdvance(p));
      hide LineFor;
      hide RowFor;
      all := FinishReached(ops, more + [OpAdvance(p)], prices);
    }
  }

  /** Restating an open row gives it a unit of overage. */
  lemma RowRestated(rows: seq<Rollup>, k: nat)
    requires OneOpenRow(rows) && k < |rows| && !rows[k].invoiced
    ensures var row := rows[k];
            var out := Saved(rows, NewRollup(row.tenant, row.meter, row.start, row.end, 1, Some(0)));
            |out| == |rows| && out[k] == row.(total := 1, included := 0, overage := 1)
  {
    var row := rows[k];
    assert Matches(rows[k], NewRollup(row.tenant, row.meter, row.start, row.end, 1, Some(0)));
  }

  /** While a row is open, some continuation charges for it. */
  lemma OpenRowCanBeCharged(ops: seq<Op>, k: nat) returns (more: seq<Op>)
    requires var s := RunOps(ops); s.current.None? && k < |s.rows| && !s.rows[k].invoiced
    ensures ChargedFor(RunOps(ops + more), k)
  {
    var s := RunOps(ops);
    RunInvariant(ops);
    var row := s.rows[k];
    var up, begin := OpRollUp(row.tenant, row.meter, row.start, row.end, 1, Some(0)), OpBegin(row.tenant, row.start, row.start + 1);
    var prices: string -> Price := m => PerUnit(1);
    assert ops + [] == ops;
    RunAppend(ops, [], up);
    RunAppend(ops, [up], begin);
    assert [] + [up] == [up];
    RowRestated(s.rows, k);
    var t := Apply(s, up);
    var u := Begin(t, row.tenant, row.start, row.start + 1);
    hide RunOps;
    hide Inv;
    hide Saved;
    hide Pending;
    more := FinishReached(ops, [up] + [begin], prices);
    UninterruptedRun(t, row.tenant, row.start, row.start + 1, prices);
    RunChargesExactly(t, row.tenant, row.start, row.start + 1, prices, Line(k, 1, 1));
    hide Finish;
    hide Lines;
    var d := RunOps(ops + more);
    var lines := d.issued[|t.issued|];
    assert Line(k, 1, 1) in lines;
    var x :| 0 <= x < |lines| && lines[x] == Line(k, 1, 1);
    assert Carries(lines, k);
  }

  /** A row that the draft charges for was read by the run and is unpaid. */
  lemma DraftRows(s: State, row: nat)
    requires Inv(s) && OnDraft(s, row)
    ensures row < |s.rows| && !ChargedFor(s, row)
  {
    hide IssuedOk;
    hide ChargedFor;
    var r := s.current.value;
    var x :| 0 <= x < |r.lines| && r.lines[x].row == row;
    assert Among(row, r.pending, if r.marking then |r.pending| else r.next);
    var i :| 0 <= i < |r.pending| && r.pending[i].row == row;
  }

  /** Cutting a run off loses the charge for a row on its draft for good, whatever
      happens later, if and only if the row was flagged already. */
  lemma CutLosesIff(ops: seq<Op>, row: nat)
    requires OnDraft(RunOps(ops), row)
    ensures row < |RunOps(ops).rows|
    ensures (forall more :: !ChargedFor(RunOps(ops + [OpCut] + more), row)) <==> RunOps(ops).rows[row].invoiced
  {
    var s, cut := RunOps(ops), ops + [OpCut];
    RunInvariant(ops);
    DraftRows(s, row);
    RunSnoc(ops, OpCut);
    SameIssued(s, Apply(s, OpCut));
    hide Inv;
    hide RunOps;
    hide ChargedFor;
    if s.rows[row].invoiced {
      forall more ensures !ChargedFor(RunOps(cut + more), row) {
        assert (cut + more)[..|cut|] == cut;
        PastIsForGood(cut + more, |cut|, row);
      }
    } else {
      var more := OpenRowCanBeCharged(cut, row);
    }
  }

  /** Some reachable run loses a charge that way. */
  lemma CutRunLosesACharge() returns (ops: seq<Op>)
    ensures OnDraft(RunOps(ops), 0)
    ensures forall more :: !ChargedFor(RunOps(ops + [OpCut] + more), 0)
  {
    FlaggedDraft();
    hide RunOps;
    var read, a := [OpRollUp("t", "m", 0, 10, 5, Some(2))] + [OpBegin("t", 0, 10)], OpAdvance(PerUnit(7));
    ops := read + [a] + [a] + [a];
    CutLosesIff(ops, 0);
  }

  // --------------------------------------------------------- stale quantities

  /** What was read, drafted and issued is what the rows say. */
  predicate Fresh(s: State)
  {
    && (forall a, x :: 0 <= a < |s.issued| && 0 <= x < |s.issued[a]| && s.issued[a][x].row < |s.rows| ==>
          s.issued[a][x].quantity == s.rows[s.issued[a][x].row].overage)
    && (s.current.Some? ==> FreshRun(s.rows, s.current.value))
  }

  predicate FreshRun(rows: seq<Rollup>, r: Run)
  {
    && (forall i :: 0 <= i < |r.pending| && r.pending[i].row < |rows| ==> r.pending[i].overage == rows[r.pending[i].row].overage)
    && (forall x :: 0 <= x < |r.lines| && r.lines[x].row < |rows| ==> r.lines[x].quantity == rows[r.lines[x].row].overage)
  }

  /** The rollup leaves the overage of every row the run has read as it is. */
  predicate Undisturbed(s: State, op: Op)
  {
    op.OpRollUp? && s.current.Some? ==>
      var saved, items := NewRollup(op.tenant, op.meter, op.start, op.end, op.total, op.limit), s.current.value.pending;
      forall i :: 0 <= i < |items| && items[i].row < |s.rows| && Matches(s.rows[items[i].row], saved) ==> saved.overage == items[i].overage
  }

  lemma SavedOverage(rows: seq<Rollup>, r: Rollup, k: nat)
    requires k < |rows|
    ensures k < |Saved(rows, r)|
    ensures Saved(rows, r)[k].overage == if Matches(rows[k], r) then r.overage else rows[k].overage
  {
  }

  /** What was read stays what the rows say if and only if no rollup changes the
      overage of a row between reading and flagging it. */
  lemma RollUpFreshIff(s: State, op: Op)
    requires Inv(s) && Fresh(s) && op.OpRollUp?
    ensures Fresh(Apply(s, op)) <==> Undisturbed(s, op)
  {
    var saved := NewRollup(op.tenant, op.meter, op.start, op.end, op.total, op.limit);
    var d := Apply(s, op);
    forall k | 0 <= k < |s.rows| ensures k < |d.rows| && d.rows[k].overage == if Matches(s.rows[k], saved) then saved.overage else s.rows[k].overage {
      SavedOverage(s.rows, saved, k);
    }
    hide Saved;
    hide NewRollup;
    if s.current.Some? {
      var r := s.current.value;
      forall x | 0 <= x < |r.lines| ensures exists i :: 0 <= i < |r.pending| && r.pending[i].row == r.lines[x].row {
        assert Among(r.lines[x].row, r.pending, if r.marking then |r.pending| else r.next);
      }
      hide CollectedOk;
      hide FlagsOk;
      hide ChargedFor;
      if Undisturbed(s, op) {
        forall x | 0 <= x < |r.lines| ensures r.lines[x].quantity == d.rows[r.lines[x].row].overage {
          var i :| 0 <= i < |r.pending| && r.pending[i].row == r.lines[x].row;
        }
      } else {
        var i :| 0 <= i < |r.pending| && r.pending[i].row < |s.rows| && Matches(s.rows[r.pending[i].row], saved) && saved.overage != r.pending[i].overage;
        assert r.pending[i].overage != d.rows[r.pending[i].row].overage;
      }
    }
  }

  lemma ApplyFresh(s: State, op: Op)
    requires Inv(s) && Fresh(s) && Undisturbed(s, op)
    ensures Fresh(Apply(s, op))
  {
    match op
    case OpRollUp(_, _, _, _, _, _) => RollUpFreshIff(s, op);
    case OpBegin(t, start, end) =>
      if s.current.None? {
        PendingFacts(s.rows, t, start, end, Pending(s.rows, t, start, end));
        hide Pending;
      }
    case OpAdvance(p) => AdvanceFresh(s, p);
    case OpCut =>
  }

  lemma AdvanceFresh(s: State, p: Price)
    requires Inv(s) && Fresh(s)
    ensures Fresh(Advance(s, p))
  {
    hide IssuedOk;
    hide RowsOk;
    hide OneOpenRow;
    hide ChargedFor;
    hide CollectedOk;
    hide FlagsOk;
  }

  /** In every run without such a rollup, each issued line charges for exactly the
      overage its row records, then and ever after. */
  lemma {:induction false} IssuedQuantities(ops: seq<Op>)
    requires forall k :: 0 <= k < |ops| ==> Undisturbed(RunOps(ops[..k]), ops[k])
    ensures Fresh(RunOps(ops))
  {
    if ops != [] {
      hide Apply;
      hide Fresh;
      hide Undisturbed;
      var init := ops[..|ops| - 1];
      forall k | 0 <= k < |init| ensures Undisturbed(RunOps(init[..k]), init[k]) {
        assert init[..k] == ops[..k];
      }
      IssuedQuantities(init);
      RunInvariant(init);
      hide Inv;
      ApplyFresh(RunOps(init), ops[|ops| - 1]);
    } else {
      assert Fresh(State([], [], None));
    }
  }

  // ------------------------------------------------------------------- store

  /** One total to roll up: a meter, its sum, and its limit if it has one. */
  datatype Total = Total(meter: string, total: int, limit: Option<int>)

  function RolledUp(rows: seq<Rollup>, tenant: string, start: int, end: int, totals: seq<Total>): seq<Rollup>
  {
    if totals == [] then rows else
    var n := |totals| - 1;
    var t := totals[n];
    Saved(RolledUp(rows, tenant, start, end, totals[..n]), NewRollup(tenant, t.meter, start, end, t.total, t.limit))
  }

  /** Rolling up a period leaves, for every meter, one open row with the total and
      its split, as long as no meter is listed twice. */
  lemma {:induction false} RolledUpIsCurrent(rows: seq<Rollup>, tenant: string, start: int, end: int, totals: seq<Total>, k: nat)
    requires RowsOk(rows) && OneOpenRow(rows) && k < |totals|
    requires forall i, j :: 0 <= i < j < |totals| ==> totals[i].meter != totals[j].meter
    ensures var out, t := RolledUp(rows, tenant, start, end, totals), totals[k];
            && RowsOk(out) && OneOpenRow(out) && Keeps(rows, out)
            && NewRollup(tenant, t.meter, start, end, t.total, t.limit) in out
  {
    var n := |totals| - 1;
    var before, t := RolledUp(rows, tenant, start, end, totals[..n]), totals[n];
    var r := NewRollup(tenant, t.meter, start, end, t.total, t.limit);
    if n == 0 {
      assert before == rows;
    } else {
      RolledUpIsCurrent(rows, tenant, start, end, totals[..n], if k < n then k else 0);
    }
    SavedKeeps(before, r);
    SavedIsCurrent(before, r);
    if k < n {
      var q := NewRollup(tenant, totals[k].meter, start, end, totals[k].total, totals[k].limit);
      assert totals[..n][k] == totals[k];
      var x :| 0 <= x < |before| && before[x] == q;
      assert Saved(before, r)[x] == q;
    }
  }

  /** The rollup table and the overage lines of issued invoices. */
  class Meters {
    var rows: seq<Rollup>
    var issued: seq<seq<Line>>

    constructor ()
      ensures rows == [] && issued == []
    {
      rows, issued := [], [];
    }

    method SaveRollup(r: Rollup)
      requires !r.invoiced
      modifies this`rows
      ensures rows == Saved(old(rows), r)
    {
      var affected := 0;
      for k := 0 to |rows|
        invariant |rows| == |old(rows)|
        invariant forall j :: 0 <= j < |rows| ==> rows[j] == if j < k && Matches(old(rows)[j], r) then Restated(old(rows)[j], r) else old(rows)[j]
        invariant affected > 0 <==> exists j :: 0 <= j < k && Matches(old(rows)[j], r)
        invariant affected >= 0
      {
        if Matches(rows[k], r) {
          rows := rows[k := Restated(rows[k], r)];
          affected := affected + 1;
        }
      }
      if affected == 0 {
        assert rows == old(rows);
        rows := rows + [r];
      }
    }

    method RollUpUsage(tenant: string, start: int, end: int, totals: seq<Total>)
      modifies this`rows
      ensures rows == RolledUp(old(rows), tenant, start, end, totals)
    {
      for k := 0 to |totals|
        invariant rows == RolledUp(old(rows), tenant, start, end, totals[..k])
      {
        var t := totals[k];
        var included, overage := t.total, 0;
        if t.limit.Some? && t.limit.value != UNLIMITED && t.total > t.limit.value {
          included, overage := t.limit.value, t.total - t.limit.value;
        }
        SaveRollup(Rollup(tenant, t.meter, start, end, t.total, included, overage, false));
        assert totals[..k + 1][..k] == totals[..k];
      }
      assert totals[..|totals|] == totals;
    }

    method PendingRollups(tenant: string, start: int, end: int) returns (items: seq<Item>)
      ensures items == Pending(rows, tenant, start, end)
    {
      items := [];
      for k := 0 to |rows|
        invariant items == Pending(rows[..k], tenant, start, end)
      {
        assert rows[..k + 1][..k] == rows[..k];
        if InPeriod(rows[k], tenant, start, end) {
          items := items + [Item(k, rows[k].meter, rows[k].overage)];
        }
      }
      assert rows[..|rows|] == rows;
    }

    method MarkRollupsInvoiced(ids: seq<nat>)
      modifies this`rows
      ensures rows == FlagAll(old(rows), ids)
    {
      for k := 0 to |ids|
        invariant FlagAll(rows, ids[k..]) == FlagAll(old(rows), ids)
      {
        assert ids[k..][1..] == ids[k + 1..];
        if ids[k] < |rows| {
          rows := rows[ids[k] := rows[ids[k]].(invoiced := true)];
        }
      }
    }

    /** The overage part of raising a subscription invoice. */
    method GenerateInvoice(tenant: string, start: int, end: int, prices: string -> Price)
      modifies this
      ensures State(rows, issued, None) == Billing(State(old(rows), old(issued), None), tenant, start, end, prices)
    {
      var items := PendingRollups(tenant, start, end);
      var lines, billed := Collect(items, prices);
      MarkRollupsInvoiced(billed);
      issued := issued + [lines];
    }
  }

  /** Prices the pending rows one by one. */
  method Collect(items: seq<Item>, prices: string -> Price) returns (lines: seq<Line>, billed: seq<nat>)
    ensures lines == Lines(items, prices) && billed == Billed(items, prices)
  {
    lines, billed := [], [];
    for k := 0 to |items|
      invariant lines + Lines(items[k..], prices) == Lines(items, prices)
      invariant billed + Billed(items[k..], prices) == Billed(items, prices)
    {
      var i := items[k];
      var p := prices(i.meter);
      Unfold(items, prices, k, lines, billed);
      hide Lines;
      hide Billed;
      if i.overage <= 0 || p == QuotaError || (p.PerUnit? && p.unit <= 0) {
        billed := billed + [i.row];
        assert lines + LineFor(i, p) == lines;
      } else if p.PerUnit? {
        lines := lines + [Line(i.row, i.overage, p.unit * i.overage)];
        billed := billed + [i.row];
      } else {
        assert lines + LineFor(i, p) == lines && billed + RowFor(i, p) == billed;
      }
    }
  }

  lemma Unfold(items: seq<Item>, prices: string -> Price, k: nat, lines: seq<Line>, billed: seq<nat>)
    requires k < |items|
    ensures var p := prices(items[k].meter);
            && lines + Lines(items[k..], prices) == lines + LineFor(items[k], p) + Lines(items[k + 1..], prices)
            && billed + Billed(items[k..], prices) == billed + RowFor(items[k], p) + Billed(items[k + 1..], prices)
  {
    hide LineFor;
    hide RowFor;
    assert items[k..][1..] == items[k + 1..];
  }
}
