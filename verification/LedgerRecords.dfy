/** Records outside transfers: deletion, update and cloning in terms of creation. */
module LedgerRecords {
  import opened Options
  import opened LedgerModel
  import opened LedgerSums
  import opened LedgerTransfers

  predicate SameBalances(a: Table, b: Table) {
    a.Keys == b.Keys && forall k | k in a :: a[k].balance == b[k].balance
  }

  lemma PostedBalance(rows: Table, minus: seq<Record>, plus: seq<Record>, now: int, k: Key)
    requires k in rows
    ensures Posted(rows, minus, plus, now)[k].balance == rows[k].balance + Net(minus, plus, k)
  {
  }

  lemma NetOfOne(r: Record, k: Key)
    ensures Net([], [r], k) == LinkEffect(r, k) && Net([r], [], k) == -LinkEffect(r, k)
  {
    SumsOfOne(r, k);
  }

  /** Every live account that the record moves stood at zero or above. */
  predicate LinksSolvent(rows: Table, r: Record) {
    forall k | k in rows && k.kind == Account && LinkEffect(r, k) != 0 :: rows[k].balance >= 0
  }

  /**
   * Deleting a record right after creating it is accepted exactly when the accounts it
   * moves did not start below zero; it then restores every balance.
   */
  lemma DeleteUndoesCreate(s: State, user: int, draft: Draft, now: int, later: int)
    requires AddRecords(s, [draft.ToRecord(user)], now).Ok?
    ensures var created := AddRecords(s, [draft.ToRecord(user)], now).value;
      var undone := DoSoftDelete(created, user, |s.records|, later);
      && (undone.Ok? <==> LinksSolvent(s.rows, draft.ToRecord(user)))
      && (undone.Ok? ==> SameBalances(undone.value.rows, s.rows))
  {
    var r := draft.ToRecord(user);
    var created := AddRecords(s, [r], now).value;
    assert created.records[|s.records|] == r;
    forall k | k in s.rows
      ensures created.rows[k].balance == s.rows[k].balance + LinkEffect(r, k)
      ensures Net([r], [], k) == -LinkEffect(r, k)
      ensures Posted(created.rows, [r], [], later)[k].balance == s.rows[k].balance
    {
      NetOfOne(r, k);
      PostedBalance(s.rows, [], [r], now, k);
      PostedBalance(created.rows, [r], [], later, k);
    }
  }

  predicate Solvent(rows: Table) {
    forall k | k in rows && k.kind == Account :: rows[k].balance >= 0
  }

  /**
   * An update outside groups against deleting the record and creating the merged one: when
   * both commit the update does, with the same balances; and when no account is below zero
   * and the deletion commits, the update commits exactly when the creation does.
   */
  lemma UpdateIsDeleteThenCreate(s: State, user: int, id: int, patch: Patch, now: int)
    requires Mine(s, id, user) && s.records[id].group.None? && DoSoftDelete(s, user, id, now).Ok?
    ensures var updated := DoUpdate(s, user, id, patch, now);
      var again := AddRecords(DoSoftDelete(s, user, id, now).value, [patch.Apply(s.records[id])], now);
      && (again.Ok? ==> updated.Ok? && SameBalances(updated.value.rows, again.value.rows))
      && (Solvent(s.rows) ==> (updated.Ok? <==> again.Ok?))
  {
    var r, merged := s.records[id], patch.Apply(s.records[id]);
    var gone := DoSoftDelete(s, user, id, now).value;
    forall k | k in s.rows
      ensures Net([r], [merged], k) == LinkEffect(merged, k) - LinkEffect(r, k)
      ensures Net([], [merged], k) == LinkEffect(merged, k) && Net([r], [], k) == -LinkEffect(r, k)
      ensures gone.rows[k].balance == s.rows[k].balance - LinkEffect(r, k)
      ensures Posted(s.rows, [r], [merged], now)[k].balance == Posted(gone.rows, [], [merged], now)[k].balance
    {
      NetOfOne(r, k);
      NetOfOne(merged, k);
      PostedBalance(s.rows, [r], [merged], now, k);
      PostedBalance(s.rows, [r], [], now, k);
      PostedBalance(gone.rows, [], [merged], now, k);
    }
    assert gone.rows.Keys == s.rows.Keys;
  }

  /** Cloning a record that was created is creating it again, with the new amount if there is one. */
  lemma CloneIsCreate(s: State, user: int, id: int, draft: Draft, newAmount: Option<int>, now: int)
    requires Mine(s, id, user) && s.records[id] == draft.ToRecord(user)
    ensures Do(s, Clone(user, id, newAmount), now) ==
            Do(s, Create(user, draft.(amount := if newAmount.Some? then newAmount.value else draft.amount)), now)
  {
  }

  /** Cloning a transfer, by either leg, is making the same transfer again, as long as its ends are the user's. */
  lemma CloneTransferIsCreate(s: State, m: Movement, i: int, j: int, id: int, newAmount: Option<int>, now: int)
    requires m.Routed() && m.Owned(s.rows) && PairAt(s, m, i, j) && (id == i || id == j)
    ensures Do(s, CloneTransfer(m.user, id, newAmount), now) ==
            Do(s, CreateTransfer(m.user, m.source, m.toAccount, m.toLiability,
              if newAmount.Some? then newAmount.value else m.amount, m.objective), now)
  {
    PairLegs(s, m, i, j, id);
    var amount := if newAmount.Some? then newAmount.value else Template(m.Legs()).amount;
    assert ClonedLegs(m.Legs(), m.user, s.groups, amount)
        == [OriginLeg(m.user, s.groups, m.source, amount),
            DestinationLeg(m.user, s.groups, m.toAccount, m.toLiability, amount, m.objective)];
  }
}
