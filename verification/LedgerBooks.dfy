/**
 * The accounting law. For every committed command of the ledger, the gap between a
 * balance and the replay of the live records changes by an explicit drift; the drift
 * is zero except for three families of calls.
 */
module LedgerBooks {
  import opened Options
  import opened LedgerModel
  import opened LedgerSums

  /** Balance minus replay; constant as long as the books are kept. */
  function Gap(s: State, k: Key): int
    requires k in s.rows
  {
    s.rows[k].balance - Replay(s, k)
  }

  /** Effect of a live record that a transfer posting does not book. */
  function SideSum(rs: seq<Record>, k: Key): int {
    SumEffects(rs, k) - SumTransfers(rs, k)
  }

  /** What a committed command adds to the gap of one entity. */
  function Drift(s: State, c: Command, k: Key): int {
    match c
    case Update(user, id, patch) =>
      if !Mine(s, id, user) then 0
      else EndpointEffect(s.records[id], k) - EndpointEffect(patch.Apply(s.records[id]), k)
    case SoftDelete(user, id) =>
      if !Mine(s, id, user) then 0
      else if s.records[id].group.None? then EndpointEffect(s.records[id], k)
      else UndoDrift(s, user, id, k)
    case SoftDeleteMany(user, ids) => SumEndpoints(Picked(s.records, Doomed(s, user, ids)), k)
    case DeleteTransfer(user, id) => UndoDrift(s, user, id, k)
    case UpdateTransfer(user, id, amount, objective) =>
      UndoDrift(s, user, id, k) - RedoDrift(s, user, id, Retouch(amount, objective), k)
    case Clone(user, id, amount) =>
      if !Mine(s, id, user) || s.records[id].group.Some? then 0
      else -EndpointEffect(s.records[id].(amount := if amount.Some? then amount.value else s.records[id].amount), k)
    case _ => 0
  }

  function UndoDrift(s: State, user: int, id: int, k: Key): int {
    match Legs(s, id, user)
    case None => 0
    case Some(legs) => SideSum(Picked(s.records, legs), k)
  }

  function RedoDrift(s: State, user: int, id: int, e: Edit, k: Key): int {
    match Legs(s, id, user)
    case None => 0
    case Some(legs) => SideSum(Edited(Picked(s.records, legs), e), k)
  }

  // ---- One lemma per family of commands --------------------------------------------------

  lemma AddRecordsLaw(s: State, rs: seq<Record>, now: int, k: Key)
    requires AddRecords(s, rs, now).Ok? && k in s.rows && AllLive(rs)
    ensures var next := AddRecords(s, rs, now).value;
            k in next.rows && Gap(next, k) == Gap(s, k) - SumEndpoints(rs, k)
  {
    SumEffectsAppend(s.records, rs, k);
    SumEffectsSplit(rs, k);
  }

  lemma UpdateLaw(s: State, user: int, id: int, patch: Patch, now: int, k: Key)
    requires DoUpdate(s, user, id, patch, now).Ok? && k in s.rows
    ensures var next := DoUpdate(s, user, id, patch, now).value;
            k in next.rows && Gap(next, k) == Gap(s, k) + Drift(s, Update(user, id, patch), k)
  {
    var r, merged := s.records[id], patch.Apply(s.records[id]);
    SumEffectsUpdate(s.records, id, merged, k);
    SumsOfOne(r, k);
    SumsOfOne(merged, k);
    assert Net([r], [merged], k) == LinkEffect(merged, k) - LinkEffect(r, k);
  }

  lemma UndoLaw(s: State, user: int, id: int, now: int, k: Key)
    requires DoDeleteTransfer(s, user, id, now).Ok? && k in s.rows
    ensures var next := DoDeleteTransfer(s, user, id, now).value;
            k in next.rows && Gap(next, k) == Gap(s, k) + UndoDrift(s, user, id, k)
  {
    var legs := Legs(s, id, user).value;
    var gone := Picked(s.records, legs);
    PostAllBalance(s.rows, AllEntries(gone, -1), now, k);
    AllEntriesSum(gone, -1, k);
    SumEffectsRewritten(s.records, legs, Erase, k);
    ErasedHaveNoEffect(gone, k);
  }

  lemma SoftDeleteLaw(s: State, user: int, id: int, now: int, k: Key)
    requires DoSoftDelete(s, user, id, now).Ok? && k in s.rows
    ensures var next := DoSoftDelete(s, user, id, now).value;
            k in next.rows && Gap(next, k) == Gap(s, k) + Drift(s, SoftDelete(user, id), k)
  {
    var r := s.records[id];
    if r.group.Some? {
      UndoLaw(s, user, id, now, k);
    } else {
      SumEffectsUpdate(s.records, id, Erase.Apply(r), k);
      SumsOfOne(r, k);
      assert Net([r], [], k) == -LinkEffect(r, k);
    }
  }

  lemma BulkDeleteLaw(s: State, user: int, ids: set<int>, now: int, k: Key)
    requires DoSoftDeleteMany(s, user, ids, now).Ok? && k in s.rows
    ensures var next := DoSoftDeleteMany(s, user, ids, now).value;
            k in next.rows && Gap(next, k) == Gap(s, k) + Drift(s, SoftDeleteMany(user, ids), k)
  {
    var doomed := Doomed(s, user, ids);
    var gone := Picked(s.records, doomed);
    if ids == {} {
      assert Selected(s, user, ids) == {};
      PickedNothing(s.records);
    } else {
      PickedIn(s.records, doomed);
      SumEffectsSplit(gone, k);
      SumEffectsRewritten(s.records, doomed, Erase, k);
      ErasedHaveNoEffect(gone, k);
    }
  }

  lemma {:induction false} PickedNothing(rs: seq<Record>)
    ensures Picked(rs, {}) == []
  {
    if rs != [] {
      PickedNothing(rs[..|rs| - 1]);
    }
  }

  lemma UpdateTransferLaw(s: State, c: Command, now: int, k: Key)
    requires c.UpdateTransfer? && Do(s, c, now).Ok? && k in s.rows
    ensures var next := Do(s, c, now).value;
            k in next.rows && Gap(next, k) == Gap(s, k) + Drift(s, c, k)
  {
    var legs := Legs(s, c.id, c.user).value;
    var e := Retouch(c.newAmount, c.newObjective);
    var pair := Picked(s.records, legs);
    var undo, redo := AllEntries(pair, -1), AllEntries(Edited(pair, e), 1);
    PostAllBalance(s.rows, undo + redo, now, k);
    EntrySumAppend(undo, redo, k);
    AllEntriesSum(pair, -1, k);
    AllEntriesSum(Edited(pair, e), 1, k);
    SumEffectsRewritten(s.records, legs, e, k);
  }

  /** New transfer legs say exactly what the transfer posting books. */
  predicate LegShaped(r: Record) {
    !r.deleted && r.kind == Transfer && r.account.None? && r.asset.None?
  }

  lemma LegEffect(r: Record, k: Key)
    requires LegShaped(r)
    ensures Effect(r, k) == TransferEffect(r, k)
  {
    match k.kind
    case Objective =>
    case Account =>
    case Asset =>
    case Liability =>
  }

  lemma {:induction false} LegsHaveNoSide(rs: seq<Record>, k: Key)
    requires forall r | r in rs :: LegShaped(r)
    ensures SideSum(rs, k) == 0
  {
    if rs != [] {
      var n := |rs| - 1;
      assert forall r | r in rs[..n] :: r in rs;
      LegsHaveNoSide(rs[..n], k);
      LegEffect(rs[n], k);
    }
  }

  lemma AddLegsLaw(s: State, legs: seq<Record>, now: int, k: Key)
    requires AddLegs(s, legs, now).Ok? && k in s.rows
    requires forall r | r in legs :: LegShaped(r)
    ensures var next := AddLegs(s, legs, now).value;
            k in next.rows && Gap(next, k) == Gap(s, k)
  {
    PostAllBalance(s.rows, AllEntries(legs, 1), now, k);
    AllEntriesSum(legs, 1, k);
    SumEffectsAppend(s.records, legs, k);
    LegsHaveNoSide(legs, k);
  }

  lemma PayLaw(s: State, user: int, objective: int, amount: int, now: int, k: Key)
    requires DoPay(s, user, objective, amount, now).Ok? && k in s.rows
    ensures var next := DoPay(s, user, objective, amount, now).value;
            k in next.rows && Gap(next, k) == Gap(s, k)
  {
    var p := Payment(user, objective, amount, false);
    assert (s.payments + [p])[..|s.payments|] == s.payments;
    assert SumPayments(s.payments + [p], k) == SumPayments(s.payments, k) + PaymentEffect(p, k);
  }

  lemma RemovePaymentLaw(s: State, user: int, id: int, now: int, k: Key)
    requires DoRemovePayment(s, user, id, now).Ok? && k in s.rows
    ensures var next := DoRemovePayment(s, user, id, now).value;
            k in next.rows && Gap(next, k) == Gap(s, k)
  {
    SumPaymentsUpdate(s.payments, id, s.payments[id].(deleted := true), k);
  }

  /**
   * The accounting law: any committed ledger command, in any state, changes the gap
   * of any live entity by exactly its drift.
   */
  lemma AccountingLaw(s: State, c: Command, now: int, k: Key)
    requires Do(s, c, now).Ok? && !IsDirectEdit(c) && k in s.rows
    ensures var next := Do(s, c, now).value;
            k in next.rows && Gap(next, k) == Gap(s, k) + Drift(s, c, k)
  {
    match c
    case Create(user, draft) =>
      AddRecordsLaw(s, [draft.ToRecord(user)], now, k);
      NoEndpoints([draft.ToRecord(user)], k);
    case CreateMany(user, drafts) =>
      if drafts != [] {
        AddRecordsLaw(s, ToRecords(user, drafts), now, k);
        NoEndpoints(ToRecords(user, drafts), k);
      }
    case Update(user, id, patch) => UpdateLaw(s, user, id, patch, now, k);
    case SoftDelete(user, id) => SoftDeleteLaw(s, user, id, now, k);
    case SoftDeleteMany(user, ids) => BulkDeleteLaw(s, user, ids, now, k);
    case CreateTransfer(user, source, toAccount, toLiability, amount, objective) =>
      AddLegsLaw(s, [OriginLeg(user, s.groups, source, amount),
                     DestinationLeg(user, s.groups, toAccount, toLiability, amount, objective)], now, k);
    case UpdateTransfer(_, _, _, _) => UpdateTransferLaw(s, c, now, k);
    case DeleteTransfer(user, id) => UndoLaw(s, user, id, now, k);
    case Clone(user, id, amount) =>
      var r := s.records[id].(amount := if amount.Some? then amount.value else s.records[id].amount);
      AddRecordsLaw(s, [r], now, k);
      SumsOfOne(r, k);
    case CloneTransfer(user, id, amount) =>
      var originals := Picked(s.records, Legs(s, id, user).value);
      var a := if amount.Some? then amount.value else Template(originals).amount;
      AddLegsLaw(s, ClonedLegs(originals, user, s.groups, a), now, k);
    case Pay(user, objective, amount) => PayLaw(s, user, objective, amount, now, k);
    case RemovePayment(user, id) => RemovePaymentLaw(s, user, id, now, k);
  }

  lemma {:induction false} NoEndpoints(rs: seq<Record>, k: Key)
    requires forall r | r in rs :: r.origin.None? && r.destination.None?
    ensures SumEndpoints(rs, k) == 0
  {
    if rs != [] {
      var n := |rs| - 1;
      assert forall r | r in rs[..n] :: r in rs;
      NoEndpoints(rs[..n], k);
    }
  }
}
