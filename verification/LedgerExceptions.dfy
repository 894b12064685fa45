/** What can break the books, and exactly when each of these calls keeps them. */
module LedgerExceptions {
  import opened Options
  import opened LedgerModel
  import opened LedgerSums
  import opened LedgerBooks
  import opened LedgerRuns
  import opened LedgerTransfers

  /** Some live account is an end of the leg. */
  predicate HasLiveEnd(rows: Table, r: Record) {
    (r.origin.Some? && Key(Account, r.origin.value) in rows) ||
    (r.destination.Some? && Key(Account, r.destination.value) in rows)
  }

  /**
   * The generic update does not move the origin and destination accounts of a transfer
   * leg: it keeps the books exactly when the amount stays or no end of the leg is live.
   */
  lemma LegUpdateKeepsBooksIff(s: State, user: int, id: int, patch: Patch, now: int, opening: map<Key, int>)
    requires Books(s, opening) && DoUpdate(s, user, id, patch, now).Ok?
    requires s.records[id].origin.None? || s.records[id].origin != s.records[id].destination
    ensures Books(DoUpdate(s, user, id, patch, now).value, opening) <==>
            patch.amount.None? || patch.amount.value == s.records[id].amount || !HasLiveEnd(s.rows, s.records[id])
  {
    var c := Update(user, id, patch);
    BooksIff(s, c, now, opening);
    var r, merged := s.records[id], patch.Apply(s.records[id]);
    forall k | k in s.rows
      ensures Drift(s, c, k) == 0 <==>
              r.amount == merged.amount || k.kind != Account || (r.origin != Some(k.id) && r.destination != Some(k.id))
    {
    }
    if HasLiveEnd(s.rows, r) {
      var k := if r.origin.Some? && Key(Account, r.origin.value) in s.rows then Key(Account, r.origin.value)
               else Key(Account, r.destination.value);
      assert k in s.rows;
    }
  }

  /**
   * A bulk delete whose selection reaches one transfer keeps the books exactly when no
   * money moved or no account end of the transfer is live (or both ends are one account):
   * the endpoints are never reverted.
   */
  lemma BulkDeleteOfPairKeepsBooksIff(s: State, m: Movement, i: int, j: int, ids: set<int>, now: int,
                                      opening: map<Key, int>)
    requires Books(s, opening) && m.Routed() && PairAt(s, m, i, j)
    requires DoSoftDeleteMany(s, m.user, ids, now).Ok? && ids != {}
    requires SelectsLeg(s, m.user, ids) && TouchedGroups(s, m.user, ids) == {m.group}
    ensures Books(DoSoftDeleteMany(s, m.user, ids, now).value, opening) <==>
            m.amount == 0 || m.toAccount == Some(m.source) ||
            (m.Source() !in s.rows && (m.toAccount.Some? ==> m.Target() !in s.rows))
  {
    var c := SoftDeleteMany(m.user, ids);
    BooksIff(s, c, now, opening);
    PairLegs(s, m, i, j, i);
    assert Doomed(s, m.user, ids) == {i, j};
    forall k | k in s.rows
      ensures Drift(s, c, k) == EndpointEffect(m.Legs()[0], k) + EndpointEffect(m.Legs()[1], k)
    {
      SumsOfTwo(m.Legs()[0], m.Legs()[1], k);
    }
    if m.amount != 0 && m.toAccount != Some(m.source) {
      if m.Source() in s.rows {
        assert Drift(s, c, m.Source()) != 0;
      } else if m.toAccount.Some? && m.Target() in s.rows {
        assert Drift(s, c, m.Target()) != 0;
      }
    }
  }

  /** As soon as one leg is selected, the selected records outside groups survive the bulk delete. */
  lemma MixedSelectionKeepsPlainRecords(s: State, user: int, ids: set<int>, now: int, id: int)
    requires DoSoftDeleteMany(s, user, ids, now).Ok?
    requires id in Selected(s, user, ids) && s.records[id].group.None?
    ensures DoSoftDeleteMany(s, user, ids, now).value.records[id].deleted <==> !SelectsLeg(s, user, ids)
  {
  }

  /**
   * Taking back a transfer-typed record that belongs to no group reverts its liability
   * and objective links but not its account and asset links: the books are kept exactly
   * when those are absent or gone, or nothing moved.
   */
  lemma LoneTransferDeleteKeepsBooksIff(s: State, user: int, id: int, now: int, opening: map<Key, int>)
    requires Books(s, opening) && Mine(s, id, user) && s.records[id].group.None?
    requires DoDeleteTransfer(s, user, id, now).Ok?
    ensures var r := s.records[id];
            Books(DoDeleteTransfer(s, user, id, now).value, opening) <==>
            r.amount == 0 ||
            ((r.account.None? || Key(Account, r.account.value) !in s.rows) &&
             (r.asset.None? || Key(Asset, r.asset.value) !in s.rows))
  {
    var c := DeleteTransfer(user, id);
    var r := s.records[id];
    BooksIff(s, c, now, opening);
    PickedLone(s.records, id);
    assert Legs(s, id, user) == Some({id});
    forall k | k in s.rows ensures Drift(s, c, k) == Effect(r, k) - TransferEffect(r, k) {
      SumsOfOne(r, k);
    }
    if r.account.Some? && Key(Account, r.account.value) in s.rows {
      assert Drift(s, c, Key(Account, r.account.value)) == -r.amount;
    }
    if r.asset.Some? && Key(Asset, r.asset.value) in s.rows {
      assert Drift(s, c, Key(Asset, r.asset.value)) == r.amount;
    }
  }

  lemma PickedLone(rs: seq<Record>, id: int)
    requires 0 <= id < |rs|
    ensures Picked(rs, {id}) == [rs[id]]
  {
    PickedOne(rs, id, {id});
  }

  // ---- Concrete failures -----------------------------------------------------------------

  /** The first transfer of a ledger without records keeps its books and leaves two legs. */
  lemma FirstTransfer(start: State, c: Command, opening: map<Key, int>, m: Movement)
    requires start.records == [] && Books(start, opening) && c.CreateTransfer? && Do(start, c, 0).Ok?
    requires m == Movement(c.user, start.groups, c.source, c.toAccount, c.toLiability, c.amount, c.objective)
    ensures var s := Do(start, c, 0).value;
      s.records == m.Legs() && PairAt(s, m, 0, 1) && Books(s, opening) && Shaped(s) && s.rows.Keys == start.rows.Keys
  {
    hide PostAll, AllEntries, Books;
    StepKeepsBooks(start, c, 0, opening);
    SameKeys(start, c, 0);
    assert Do(start, c, 0).value.records == m.Legs();
  }

  /** Accounts of 100 and 0, no records. */
  lemma TwoAccounts() returns (start: State, opening: map<Key, int>)
    ensures start.records == [] && start.payments == [] && Books(start, opening)
    ensures start.rows == map[Key(Account, 1) := Plain(1, 100), Key(Account, 2) := Plain(1, 0)]
  {
    opening := map[Key(Account, 1) := 100, Key(Account, 2) := 0];
    start := State([], [], map[Key(Account, 1) := Plain(1, 100), Key(Account, 2) := Plain(1, 0)], 0);
  }

  /** The ledger after a transfer of 50 from one to the other. */
  lemma OneTransferBooks() returns (start: State, c: Command, s: State, opening: map<Key, int>, m: Movement)
    ensures start.records == [] && start.payments == [] && Books(start, opening)
    ensures c.CreateTransfer? && Do(start, c, 0) == Ok(s) && c.user == m.user
    ensures m.Routed() && m.toAccount.Some? && m.toAccount != Some(m.source) && m.amount == 50
    ensures s.records == m.Legs() && PairAt(s, m, 0, 1) && m.Source() in s.rows
    ensures Books(s, opening) && Shaped(s)
  {
    hide Do, Books, PairAt, Shaped;
    start, opening := TwoAccounts();
    m := Movement(1, start.groups, 1, Some(2), None, 50, None);
    c := CreateTransfer(1, 1, Some(2), None, 50, None);
    CreateAcceptedIff(start, c, 0);
    s := Do(start, c, 0).value;
    FirstTransfer(start, c, opening, m);
    assert m.Source() in start.rows;
  }

  /** Bulk-deleting the origin leg of the only transfer is accepted: no balance is touched. */
  lemma OnlyPairBulkDelete(s: State, m: Movement, now: int)
    requires m.Routed() && m.toAccount.Some? && s.records == m.Legs()
    ensures SelectsLeg(s, m.user, {0}) && TouchedGroups(s, m.user, {0}) == {m.group}
    ensures DoSoftDeleteMany(s, m.user, {0}, now).Ok?
  {
    assert s.records[0].group == Some(m.group) && 0 in Selected(s, m.user, {0});
    assert Selected(s, m.user, {0}) == {0};
    assert Doomed(s, m.user, {0}) == {0, 1};
    PickedTwo(s.records, 0, 1);
    forall k | k in s.rows && k.kind == Account ensures Net(s.records, [], k) == 0 {
      SumsOfTwo(s.records[0], s.records[1], k);
    }
  }

  /** After that transfer, deleting its origin leg in bulk removes both legs and moves no balance. */
  lemma BulkDeleteBreaksBooks()
    ensures exists start: State, c: Command, opening: map<Key, int> ::
              && start.records == [] && start.payments == [] && Books(start, opening)
              && c.CreateTransfer? && Do(start, c, 0).Ok?
              && var s := Do(start, c, 0).value;
                && Books(s, opening) && DoSoftDeleteMany(s, c.user, {0}, 0).Ok?
                && !Books(DoSoftDeleteMany(s, c.user, {0}, 0).value, opening)
  {
    var start, c, s, opening, m := OneTransferBooks();
    OnlyPairBulkDelete(s, m, 0);
    BulkDeleteOfPairKeepsBooksIff(s, m, 0, 1, {0}, 0, opening);
  }

  /** After that transfer, raising the amount of one leg through the generic update moves no account. */
  lemma LegUpdateBreaksBooks()
    ensures exists start: State, c: Command, opening: map<Key, int>, patch: Patch ::
              && start.records == [] && start.payments == [] && Books(start, opening)
              && c.CreateTransfer? && Do(start, c, 0).Ok?
              && var s := Do(start, c, 0).value;
                && Books(s, opening) && DoUpdate(s, c.user, 0, patch, 0).Ok?
                && !Books(DoUpdate(s, c.user, 0, patch, 0).value, opening)
  {
    var start, c, s, opening, m := OneTransferBooks();
    var patch := Patch(None, Some(80), None, None, None, None);
    var r, merged := s.records[0], patch.Apply(s.records[0]);
    forall k | k in s.rows && k.kind == Account ensures Net([r], [merged], k) == 0 {
      SumsOfOne(r, k);
      SumsOfOne(merged, k);
    }
    LegUpdateKeepsBooksIff(s, m.user, 0, patch, 0, opening);
  }

  /** An account of 100, and the record that a transfer-typed creation of 50 on it leaves. */
  lemma OneLoneTransfer() returns (start: State, draft: Draft, s: State, opening: map<Key, int>)
    ensures start.records == [] && Books(start, opening) && draft.kind == Transfer && draft.amount == 50
    ensures draft.objective.None? && draft.liability.None? && draft.account == Some(1)
    ensures Do(start, Create(1, draft), 0) == Ok(s)
    ensures s.records == [draft.ToRecord(1)] && Key(Account, 1) in s.rows && Books(s, opening)
  {
    var k := Key(Account, 1);
    draft := Draft(Transfer, 50, None, Some(1), None, None);
    start := State([], [], map[k := Plain(1, 100)], 0);
    opening := map[k := 100];
    var r := draft.ToRecord(1);
    forall j: Key
      ensures Net([], [r], j) == if j == k then -50 else 0
    {
      SumsOfOne(r, j);
    }
    assert Affordable(start.rows, [], [r]);
    s := Do(start, Create(1, draft), 0).value;
    assert s.records == [r];
    StepKeepsBooks(start, Create(1, draft), 0, opening);
  }

  /** Deleting that record through the transfer route leaves the 50 taken off the account. */
  lemma LoneTransferDeleteBreaksBooks()
    ensures exists start: State, draft: Draft, opening: map<Key, int> ::
              && start.records == [] && Books(start, opening) && Do(start, Create(1, draft), 0).Ok?
              && var s := Do(start, Create(1, draft), 0).value;
                && Books(s, opening) && DoDeleteTransfer(s, 1, 0, 0).Ok?
                && !Books(DoDeleteTransfer(s, 1, 0, 0).value, opening)
  {
    var start, draft, s, opening := OneLoneTransfer();
    LoneEntries(s, 0);
    LoneTransferDeleteKeepsBooksIff(s, 1, 0, 0, opening);
  }

  /** A lone record without transfer ends, liability or objective posts nothing when it is taken back. */
  lemma LoneEntries(s: State, now: int)
    requires |s.records| == 1
    requires var r := s.records[0];
      && r.user == 1 && r.kind == Transfer && !r.deleted && r.group.None?
      && r.origin.None? && r.destination.None? && r.liability.None? && r.objective.None?
    ensures Mine(s, 0, 1) && DoDeleteTransfer(s, 1, 0, now).Ok?
  {
    var r := s.records[0];
    PickedLone(s.records, 0);
    assert [r][..0] == [];
    assert AllEntries([r], -1) == AllEntries([], -1) + Entries(r, -1);
  }

  /** Selecting the origin leg of a transfer together with a plain record deletes the transfer only. */
  lemma MixedSelectionLeavesRecord()
    ensures exists s: State, m: Movement ::
              && |s.records| == 3 && PairAt(s, m, 0, 1) && s.records[2].group.None? && Mine(s, 2, m.user)
              && DoSoftDeleteMany(s, m.user, {0, 2}, 0).Ok?
              && !DoSoftDeleteMany(s, m.user, {0, 2}, 0).value.records[2].deleted
  {
    var m := Movement(1, 0, 1, Some(2), None, 50, None);
    var plain := Draft(Expense, 10, None, None, None, None).ToRecord(1);
    var s := State(m.Legs() + [plain], [], map[], 1);
    assert s.records[0] == m.Legs()[0] && s.records[1] == m.Legs()[1] && s.records[2] == plain;
    assert PairAt(s, m, 0, 1);
    assert Selected(s, 1, {0, 2}) == {0, 2};
    assert SelectsLeg(s, 1, {0, 2}) by {
      assert 0 in Selected(s, 1, {0, 2}) && s.records[0].group.Some?;
    }
    assert 2 in Selected(s, 1, {0, 2});
    MixedSelectionKeepsPlainRecords(s, 1, {0, 2}, 0, 2);
  }

  // ---- Interest, which is not posted -----------------------------------------------------

  /** The income record of accrued interest, as the accrual job saves it: no balance moves. */
  function WithAccruedIncome(s: State, user: int, account: int, interest: int): State {
    s.(records := s.records + [Draft(Income, interest, None, Some(account), None, None).ToRecord(user)])
  }

  /** Saving accrued interest keeps the books exactly when the account is gone. */
  lemma AccruedIncomeKeepsBooksIff(s: State, user: int, account: int, interest: int, opening: map<Key, int>)
    requires Books(s, opening) && interest > 0
    ensures Books(WithAccruedIncome(s, user, account, interest), opening) <==> Key(Account, account) !in s.rows
  {
    var income := Draft(Income, interest, None, Some(account), None, None).ToRecord(user);
    forall k: Key
      ensures Replay(WithAccruedIncome(s, user, account, interest), k) ==
              Replay(s, k) + if k == Key(Account, account) then interest else 0
    {
      SumEffectsAppend(s.records, [income], k);
      SumsOfOne(income, k);
    }
  }
}
