/** Which invoices a retry pass charges, on the rows themselves. */
module DunningEffects {
  import opened Text
  import opened Decimal
  import opened Invoices
  import opened Ledger
  import opened LedgerEffects
  import opened Dunning

  /** A retry is owed: something is due, and the day of the first offset that no
      attempt has used up has come. */
  predicate Owed(b: Books, plan: Plan, tenant: string, id: nat, now: int)
  {
    && Owns(b, tenant, id)
    && var i := b.invoices[id];
       && i.total > i.paid + i.credited
       && |i.attempts| < |plan.schedule|
       && plan.dueAt(id) > 0 && now >= plan.dueAt(id)
       && now >= plan.dueAt(id) + 86400 * plan.schedule[|i.attempts|]
  }

  function RetryKey(b: Books, plan: Plan, id: nat): string
    requires id in b.invoices && |b.invoices[id].attempts| < |plan.schedule|
  {
    "dunning:" + Print(id) + ":" + Print(plan.schedule[|b.invoices[id].attempts|])
  }

  lemma WholeDays(elapsed: int, days: int)
    requires elapsed >= 0
    ensures elapsed / 86400 >= days <==> elapsed >= 86400 * days
  {
  }

  /** One invoice in one pass: charged under the key of its offset exactly if a
      retry is owed, and left alone otherwise. */
  lemma RetryExactly(b: Books, plan: Plan, tenant: string, id: nat, now: int, c: Charging)
    ensures Retry(b, plan, tenant, id, now, c) ==
              if Owed(b, plan, tenant, id, now)
              then ChargeInvoice(b, tenant, id, c.(key := RetryKey(b, plan, id))).0 else b
  {
    hide ChargeInvoice;
    hide Print;
    if id in b.invoices && now >= plan.dueAt(id) && |b.invoices[id].attempts| < |plan.schedule| {
      WholeDays(now - plan.dueAt(id), plan.schedule[|b.invoices[id].attempts|]);
    }
  }

  // -------------------------------------------------------------- whole passes

  /** A key under which retries of this invoice are stored. */
  ghost predicate KeyOf(id: nat, key: string)
  {
    exists rest :: key == "dunning:" + Print(id) + ":" + rest
  }

  lemma NumeralHasNoColon(n: nat)
    ensures ':' !in Print(n)
  {
    assert AllDigits(Digits(n));
    hide Digits;
  }

  lemma KeyOfUnique(i: nat, j: nat, key: string)
    requires KeyOf(i, key) && KeyOf(j, key)
    ensures i == j
  {
    hide Print;
    var a :| key == "dunning:" + Print(i) + ":" + a;
    var b :| key == "dunning:" + Print(j) + ":" + b;
    var tail := key[8..];
    assert "dunning:" + Print(i) + ":" + a == "dunning:" + (Print(i) + [':'] + a);
    assert "dunning:" + Print(j) + ":" + b == "dunning:" + (Print(j) + [':'] + b);
    assert tail == Print(i) + [':'] + a && tail == Print(j) + [':'] + b;
    NumeralHasNoColon(i);
    NumeralHasNoColon(j);
    FindFirst(Print(i), ':', a);
    FindFirst(Print(j), ':', b);
    assert Print(i) == tail[..|Print(i)|] && Print(j) == tail[..|Print(j)|];
    PrintInjective(i, j);
  }

  lemma KeyParts(id: nat, offset: string, name: string)
    ensures var key := "dunning:" + Print(id) + ":" + offset;
            KeyOf(id, key) && KeyOf(id, key + ":" + name) && TrimSpace(key) != ""
  {
    hide Print;
    hide TrimSpace;
    var key := "dunning:" + Print(id) + ":" + offset;
    assert key + ":" + name == "dunning:" + Print(id) + ":" + (offset + ":" + name);
    hide KeyOf;
    NotBlank(key);
  }

  lemma NotBlank(s: string)
    requires s != [] && s[0] == 'd'
    ensures TrimSpace(s) != ""
  {
    var x, y := TrimSplits(s);
    hide TrimSpace;
    var first := s[0];
    assert first in s;
    assert TrimSpace(s) == "" ==> s == x + y;
  }

  lemma RetryKeysAre(b: Books, plan: Plan, id: nat, c: Charging, k: nat)
    requires id in b.invoices && |b.invoices[id].attempts| < |plan.schedule|
    requires c.key == RetryKey(b, plan, id) && k < |c.enabled|
    ensures KeyOf(id, KeyAt(c, k)) && TrimSpace(c.key) != ""
  {
    hide Print;
    hide KeyOf;
    hide TrimSpace;
    KeyParts(id, Print(plan.schedule[|b.invoices[id].attempts|]), c.enabled[k]);
  }

  /** A retry touches one invoice, and stores keys of that invoice only. */
  predicate RetryFrame(b: Books, d: Books, id: nat)
  {
    && d.invoices.Keys == b.invoices.Keys
    && (forall k :: k in b.invoices && k != id ==> d.invoices[k] == b.invoices[k])
  }

  lemma ChargeTouches(b: Books, tenant: string, id: nat, c: Charging, key: string)
    requires forall k :: 0 <= k < |c.enabled| ==> KeyAt(c, k) != key
    ensures var d := ChargeInvoice(b, tenant, id, c).0;
            RetryFrame(b, d, id) && (key in d.keys <==> key in b.keys)
  {
    hide KeyAt;
    hide AfterTries;
    ChargeReplies(b, tenant, id, c);
    var (d, r) := ChargeInvoice(b, tenant, id, c);
    hide ChargeInvoice;
    if r == Accepted {
      var i := b.invoices[id];
      var places := LoopTries(b, id, c, 0, i.total - i.paid - i.credited);
      TriedInside(b.keys.Keys, c, 0, places);
      hide ChargeFrom;
      hide TriedAt;
      assert key !in KeysAt(c, places);
    }
  }

  lemma RetryTouches(b: Books, plan: Plan, tenant: string, id: nat, now: int, c: Charging, other: nat, key: string)
    requires other != id && KeyOf(other, key)
    ensures var d := Retry(b, plan, tenant, id, now, c);
            RetryFrame(b, d, id) && (key in d.keys <==> key in b.keys)
  {
    hide Print;
    hide KeyOf;
    hide KeyAt;
    hide ChargeInvoice;
    RetryExactly(b, plan, tenant, id, now, c);
    hide Retry;
    if Owed(b, plan, tenant, id, now) {
      var e := c.(key := RetryKey(b, plan, id));
      forall k | 0 <= k < |e.enabled| ensures KeyAt(e, k) != key {
        RetryKeysAre(b, plan, id, e, k);
        if KeyAt(e, k) == key {
          KeyOfUnique(other, id, key);
        }
      }
      ChargeTouches(b, tenant, id, e, key);
    }
  }

  lemma {:induction false} PassLeaves(b: Books, plan: Plan, open: seq<Open>, now: int, c: Charging, id: nat, key: string)
    requires (forall k :: 0 <= k < |open| ==> open[k].id != id) && KeyOf(id, key)
    ensures var d := Retries(b, plan, open, now, c);
            && (id in d.invoices <==> id in b.invoices) && (id in b.invoices ==> d.invoices[id] == b.invoices[id])
            && (key in d.keys <==> key in b.keys)
    decreases |open|
  {
    hide Retry;
    hide KeyOf;
    if open != [] {
      RetryTouches(b, plan, open[0].tenant, open[0].id, now, c, id, key);
      PassLeaves(Retry(b, plan, open[0].tenant, open[0].id, now, c), plan, open[1..], now, c, id, key);
    }
  }

  lemma {:induction false} PassSplits(b: Books, plan: Plan, open: seq<Open>, now: int, c: Charging, k: nat)
    requires k < |open|
    ensures var m := Retries(b, plan, open[..k], now, c);
            Retries(b, plan, open, now, c) ==
              Retries(Retry(m, plan, open[k].tenant, open[k].id, now, c), plan, open[k + 1..], now, c)
    decreases k
  {
    hide Retry;
    if k > 0 {
      PassSplits(Retry(b, plan, open[0].tenant, open[0].id, now, c), plan, open[1..], now, c, k - 1);
      assert open[..k][1..] == open[1..][..k - 1] && open[1..][k..] == open[k + 1..];
    }
  }

  /** An accepted charge goes to the first provider of the list, if the tenant has
      an instrument for it. */
  lemma FirstIsTried(b: Books, tenant: string, id: nat, c: Charging)
    requires ChargeInvoice(b, tenant, id, c).1 == Accepted && c.enabled != [] && Instrument(c, 0) && id in b.invoices
    ensures var d, i := ChargeInvoice(b, tenant, id, c).0, b.invoices[id];
            && id in d.invoices && |d.invoices[id].attempts| > |i.attempts|
            && d.invoices[id].attempts[|i.attempts|].key == c.key
            && d.invoices[id].attempts[|i.attempts|].provider == c.enabled[0]
            && d.invoices[id].attempts[|i.attempts|].amount == i.total - i.paid - i.credited
  {
    ChargeReplies(b, tenant, id, c);
    hide ChargeInvoice;
    hide TrimSpace;
    var i := b.invoices[id];
    var due := i.total - i.paid - i.credited;
    var places := LoopTries(b, id, c, 0, due);
    hide ChargeFrom;
    FirstPlace(b.keys.Keys, c, places);
    TriedInside(b.keys.Keys, c, 0, places);
    hide TriedAt;
    hide Instrument;
    hide StateAfter;
  }

  /** An owed retry is made, under the key of its offset and for what is due. */
  lemma OwedIsTried(b: Books, plan: Plan, tenant: string, id: nat, now: int, c: Charging)
    requires Owed(b, plan, tenant, id, now) && b.invoices[id].state != Draft
    requires c.enabled != [] && Instrument(c, 0) && RetryKey(b, plan, id) !in b.keys
    ensures var d, i := Retry(b, plan, tenant, id, now, c), b.invoices[id];
            && id in d.invoices && |d.invoices[id].attempts| > |i.attempts|
            && d.invoices[id].attempts[|i.attempts|].key == RetryKey(b, plan, id)
            && d.invoices[id].attempts[|i.attempts|].provider == c.enabled[0]
            && d.invoices[id].attempts[|i.attempts|].amount == i.total - i.paid - i.credited
  {
    hide Print;
    hide TrimSpace;
    hide ChargeInvoice;
    hide KeyOf;
    hide KeyAt;
    RetryExactly(b, plan, tenant, id, now, c);
    hide Retry;
    var e := c.(key := RetryKey(b, plan, id));
    assert Instrument(e, 0) && e.methods != [];
    RetryKeysAre(b, plan, id, e, 0);
    hide RetryKey;
    ChargeReplies(b, tenant, id, e);
    FirstIsTried(b, tenant, id, e);
  }

  lemma FirstPlace(keys: set<string>, c: Charging, places: seq<nat>)
    requires c.enabled != [] && TriedAt(keys, c, 0, places) && Instrument(c, 0) && c.key !in keys
    ensures places != [] && places[0] == 0
  {
    hide Instrument;
    assert KeyAt(c, 0) == c.key;
    assert 0 in places;
  }

  /** A pass charges every open invoice to which a retry is owed, and changes no
      other: what was charged earlier in the same pass does not get in the way. */
  lemma PassChargesEach(b: Books, plan: Plan, open: seq<Open>, now: int, c: Charging, k: nat)
    requires k < |open| && forall i, j :: 0 <= i < j < |open| ==> open[i].id != open[j].id
    requires open[k].id in b.invoices
    ensures var d, id := Retries(b, plan, open, now, c), open[k].id;
            var i, owed := b.invoices[id], Owed(b, plan, open[k].tenant, id, now);
            && id in d.invoices
            && (!owed ==> d.invoices[id] == i)
            && (owed && i.state != Draft && c.enabled != [] && Instrument(c, 0) && RetryKey(b, plan, id) !in b.keys ==>
                  && |d.invoices[id].attempts| > |i.attempts|
                  && d.invoices[id].attempts[|i.attempts|].key == RetryKey(b, plan, id)
                  && d.invoices[id].attempts[|i.attempts|].provider == c.enabled[0]
                  && d.invoices[id].attempts[|i.attempts|].amount == i.total - i.paid - i.credited)
  {
    hide Print;
    hide Retry;
    hide Retries;
    hide KeyOf;
    var id, tenant := open[k].id, open[k].tenant;
    var m := Retries(b, plan, open[..k], now, c);
    var next := Retry(m, plan, tenant, id, now, c);
    PassSplits(b, plan, open, now, c, k);
    var key := SomeKey(b, plan, id);
    PassLeaves(b, plan, open[..k], now, c, id, key);
    PassLeaves(next, plan, open[k + 1..], now, c, id, key);
    RetryExactly(m, plan, tenant, id, now, c);
    var i := b.invoices[id];
    if Owed(b, plan, tenant, id, now) && i.state != Draft && c.enabled != [] && Instrument(c, 0) && RetryKey(b, plan, id) !in b.keys {
      OwedIsTried(m, plan, tenant, id, now, c);
    }
    if Owed(b, plan, tenant, id, now) {
      StillThere(m, tenant, id, c.(key := RetryKey(m, plan, id)));
    }
  }

  /** A key of the invoice: that of its next offset, if there is one. */
  lemma SomeKey(b: Books, plan: Plan, id: nat) returns (key: string)
    requires id in b.invoices
    ensures KeyOf(id, key)
    ensures |b.invoices[id].attempts| < |plan.schedule| ==> key == RetryKey(b, plan, id)
  {
    hide Print;
    if |b.invoices[id].attempts| < |plan.schedule| {
      key := RetryKey(b, plan, id);
    } else {
      key := "dunning:" + Print(id) + ":" + "";
    }
  }

  lemma StillThere(b: Books, tenant: string, id: nat, c: Charging)
    requires id in b.invoices
    ensures id in ChargeInvoice(b, tenant, id, c).0.invoices
  {
    ChargeReplies(b, tenant, id, c);
    if ChargeInvoice(b, tenant, id, c).1 == Accepted {
      var i := b.invoices[id];
      var places := LoopTries(b, id, c, 0, i.total - i.paid - i.credited);
    }
  }
}
