/** Sums of effects and of posted entries, and how each table change moves them. */
module LedgerSums {
  import opened Options
  import opened LedgerModel

  // ---- Posted entries --------------------------------------------------------------------

  function EntrySum(es: seq<Entry>, k: Key): int {
    if es == [] then 0 else (if es[0].key == k then es[0].delta else 0) + EntrySum(es[1..], k)
  }

  lemma {:induction false} EntrySumAppend(a: seq<Entry>, b: seq<Entry>, k: Key)
    ensures EntrySum(a + b, k) == EntrySum(a, k) + EntrySum(b, k)
  {
    if a == [] {
      assert a + b == b;
    } else {
      assert (a + b)[1..] == a[1..] + b;
      EntrySumAppend(a[1..], b, k);
    }
  }

  /** Posting in sequence moves every live row by the sum of its entries, and no row appears or disappears. */
  lemma {:induction false} PostAllBalance(rows: Table, es: seq<Entry>, now: int, k: Key)
    requires PostAll(rows, es, now).Some?
    requires k in rows
    ensures PostAll(rows, es, now).value.Keys == rows.Keys
    ensures PostAll(rows, es, now).value[k].balance == rows[k].balance + EntrySum(es, k)
    ensures PostAll(rows, es, now).value[k].owner == rows[k].owner
    ensures PostAll(rows, es, now).value[k].Goal? == rows[k].Goal?
  {
    if es != [] {
      var next := Post(rows, es[0].key, es[0].delta, now).value;
      assert next.Keys == rows.Keys;
      PostAllBalance(next, es[1..], now, k);
    }
  }

  lemma {:induction false} PostAllAppend(rows: Table, a: seq<Entry>, b: seq<Entry>, now: int)
    ensures PostAll(rows, a + b, now) ==
            (if PostAll(rows, a, now).None? then None else PostAll(PostAll(rows, a, now).value, b, now))
  {
    if a == [] {
      assert a + b == b;
    } else {
      assert (a + b)[1..] == a[1..] + b;
      var next := Post(rows, a[0].key, a[0].delta, now);
      if next.Some? {
        PostAllAppend(next.value, a[1..], b, now);
      }
    }
  }

  /** The part of a transfer leg that `applyTransferAdjustment` posts for one key. */
  function TransferEffect(r: Record, k: Key): int {
    EndpointEffect(r, k) +
    match k.kind
    case Liability => if r.liability == Some(k.id) then -r.amount else 0
    case Objective => if r.objective == Some(k.id) then r.amount else 0
    case Account => 0
    case Asset => 0
  }

  function SumTransfers(rs: seq<Record>, k: Key): int {
    if rs == [] then 0 else SumTransfers(rs[..|rs| - 1], k) + TransferEffect(rs[|rs| - 1], k)
  }

  lemma TouchSum(link: Option<int>, kind: Kind, delta: int, k: Key)
    ensures EntrySum(Touch(link, kind, delta), k) == if k.kind == kind && link == Some(k.id) then delta else 0
  {
    if link.Some? {
      assert Touch(link, kind, delta)[1..] == [];
    }
  }

  lemma EntriesSum(r: Record, sign: int, k: Key)
    requires sign == 1 || sign == -1
    ensures EntrySum(Entries(r, sign), k) == sign * TransferEffect(r, k)
  {
    var o, d := Touch(r.origin, Account, -r.amount * sign), Touch(r.destination, Account, r.amount * sign);
    var l, g := Touch(r.liability, Liability, -r.amount * sign), Touch(r.objective, Objective, r.amount * sign);
    EntrySumAppend(o + d + l, g, k);
    EntrySumAppend(o + d, l, k);
    EntrySumAppend(o, d, k);
    TouchSum(r.origin, Account, -r.amount * sign, k);
    TouchSum(r.destination, Account, r.amount * sign, k);
    TouchSum(r.liability, Liability, -r.amount * sign, k);
    TouchSum(r.objective, Objective, r.amount * sign, k);
  }

  lemma {:induction false} AllEntriesSum(rs: seq<Record>, sign: int, k: Key)
    requires sign == 1 || sign == -1
    ensures EntrySum(AllEntries(rs, sign), k) == sign * SumTransfers(rs, k)
  {
    if rs != [] {
      var init, last := rs[..|rs| - 1], rs[|rs| - 1];
      AllEntriesSum(init, sign, k);
      EntriesSum(last, sign, k);
      EntrySumAppend(AllEntries(init, sign), Entries(last, sign), k);
    }
  }

  // ---- Replay sums -----------------------------------------------------------------------

  lemma {:induction false} SumEffectsAppend(a: seq<Record>, b: seq<Record>, k: Key)
    ensures SumEffects(a + b, k) == SumEffects(a, k) + SumEffects(b, k)
  {
    if b == [] {
      assert a + b == a;
    } else {
      assert (a + b)[..|a + b| - 1] == a + b[..|b| - 1];
      SumEffectsAppend(a, b[..|b| - 1], k);
    }
  }

  lemma {:induction false} LinkSumAppend(a: seq<Record>, b: seq<Record>, k: Key)
    ensures LinkSum(a + b, k) == LinkSum(a, k) + LinkSum(b, k)
  {
    if b == [] {
      assert a + b == a;
    } else {
      assert (a + b)[..|a + b| - 1] == a + b[..|b| - 1];
      LinkSumAppend(a, b[..|b| - 1], k);
    }
  }

  lemma {:induction false} SumEffectsUpdate(rs: seq<Record>, i: int, r: Record, k: Key)
    requires 0 <= i < |rs|
    ensures SumEffects(rs[i := r], k) == SumEffects(rs, k) - Effect(rs[i], k) + Effect(r, k)
  {
    var n := |rs| - 1;
    if i == n {
      assert rs[i := r][..n] == rs[..n];
    } else {
      assert rs[i := r][..n] == rs[..n][i := r];
      SumEffectsUpdate(rs[..n], i, r, k);
    }
  }

  lemma {:induction false} SumPaymentsUpdate(ps: seq<Payment>, i: int, p: Payment, k: Key)
    requires 0 <= i < |ps|
    ensures SumPayments(ps[i := p], k) == SumPayments(ps, k) - PaymentEffect(ps[i], k) + PaymentEffect(p, k)
  {
    var n := |ps| - 1;
    if i == n {
      assert ps[i := p][..n] == ps[..n];
    } else {
      assert ps[i := p][..n] == ps[..n][i := p];
      SumPaymentsUpdate(ps[..n], i, p, k);
    }
  }

  /** Rewriting a selection replaces exactly the effects of the selected records. */
  lemma {:induction false} SumEffectsRewritten(rs: seq<Record>, sel: set<int>, e: Edit, k: Key)
    ensures SumEffects(Rewritten(rs, sel, e), k) ==
            SumEffects(rs, k) - SumEffects(Picked(rs, sel), k) + SumEffects(Edited(Picked(rs, sel), e), k)
  {
    if rs != [] {
      var n := |rs| - 1;
      var out := Rewritten(rs, sel, e);
      assert out[..n] == Rewritten(rs[..n], sel, e);
      SumEffectsRewritten(rs[..n], sel, e, k);
      var before := Picked(rs[..n], sel);
      if n in sel {
        assert Picked(rs, sel) == before + [rs[n]];
        SumEffectsAppend(before, [rs[n]], k);
        assert Edited(Picked(rs, sel), e) == Edited(before, e) + [e.Apply(rs[n])];
        SumEffectsAppend(Edited(before, e), [e.Apply(rs[n])], k);
        assert [rs[n]][..0] == [] && [e.Apply(rs[n])][..0] == [];
      } else {
        assert Picked(rs, sel) == before;
      }
    }
  }

  predicate AllLive(rs: seq<Record>) {
    forall r | r in rs :: !r.deleted
  }

  lemma {:induction false} PickedIn(rs: seq<Record>, sel: set<int>)
    ensures forall r | r in Picked(rs, sel) :: exists i :: i in sel && 0 <= i < |rs| && rs[i] == r
    ensures forall i | i in sel && 0 <= i < |rs| :: rs[i] in Picked(rs, sel)
  {
    if rs != [] {
      var n := |rs| - 1;
      PickedIn(rs[..n], sel);
      forall r | r in Picked(rs, sel) ensures exists i :: i in sel && 0 <= i < |rs| && rs[i] == r {
        if r in Picked(rs[..n], sel) {
          var i :| i in sel && 0 <= i < n && rs[..n][i] == r;
          assert rs[i] == r;
        } else {
          assert r == rs[n] && n in sel;
        }
      }
      forall i | i in sel && 0 <= i < |rs| ensures rs[i] in Picked(rs, sel) {
        if i < n {
          assert rs[..n][i] in Picked(rs[..n], sel);
        }
      }
    }
  }

  lemma {:induction false} ErasedHaveNoEffect(rs: seq<Record>, k: Key)
    ensures SumEffects(Edited(rs, Erase), k) == 0
  {
    if rs != [] {
      var n := |rs| - 1;
      assert Edited(rs, Erase)[..n] == Edited(rs[..n], Erase);
      ErasedHaveNoEffect(rs[..n], k);
    }
  }

  function SumEndpoints(rs: seq<Record>, k: Key): int {
    if rs == [] then 0 else SumEndpoints(rs[..|rs| - 1], k) + EndpointEffect(rs[|rs| - 1], k)
  }

  /** Live records: their effect is the link part plus the endpoint part. */
  lemma {:induction false} SumEffectsSplit(rs: seq<Record>, k: Key)
    requires AllLive(rs)
    ensures SumEffects(rs, k) == LinkSum(rs, k) + SumEndpoints(rs, k)
  {
    if rs != [] {
      var n := |rs| - 1;
      assert AllLive(rs[..n]) && rs[n] in rs;
      SumEffectsSplit(rs[..n], k);
    }
  }

  lemma SumsOfOne(r: Record, k: Key)
    ensures SumEffects([r], k) == Effect(r, k)
    ensures LinkSum([r], k) == LinkEffect(r, k)
    ensures SumTransfers([r], k) == TransferEffect(r, k)
    ensures SumEndpoints([r], k) == EndpointEffect(r, k)
  {
    assert [r][..0] == [];
    assert SumEffects([], k) == 0 && LinkSum([], k) == 0 && SumTransfers([], k) == 0 && SumEndpoints([], k) == 0;
  }

  lemma SumsOfTwo(a: Record, b: Record, k: Key)
    ensures SumEffects([a, b], k) == Effect(a, k) + Effect(b, k)
    ensures LinkSum([a, b], k) == LinkEffect(a, k) + LinkEffect(b, k)
    ensures SumEndpoints([a, b], k) == EndpointEffect(a, k) + EndpointEffect(b, k)
  {
    assert [a, b][..1] == [a];
    SumsOfOne(a, k);
  }
}
