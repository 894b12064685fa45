/** Transfers: net worth, deletion as the inverse of creation, update as delete and re-create. */
module LedgerTransfers {
  import opened Options
  import opened LedgerModel
  import opened LedgerSums
  import opened LedgerBooks
  import opened LedgerRuns
  import opened LedgerSafety

  // ---- Net worth -------------------------------------------------------------------------

  /** Accounts and assets count for, liabilities against, objectives not at all. */
  function Sign(k: Kind): int {
    match k
    case Objective => 0
    case Account => 1
    case Asset => 1
    case Liability => -1
  }

  /** Net worth over a set of live rows. */
  ghost function Worth(rows: Table, ks: set<Key>): int
    requires ks <= rows.Keys
  {
    if ks == {} then 0
    else
      var k :| k in ks;
      Sign(k.kind) * rows[k].balance + Worth(rows, ks - {k})
  }

  ghost function NetWorth(rows: Table): int {
    Worth(rows, rows.Keys)
  }

  /** The sum may be taken apart at any key. */
  lemma {:induction false} WorthAt(rows: Table, ks: set<Key>, k: Key)
    requires ks <= rows.Keys && k in ks
    ensures Worth(rows, ks) == Sign(k.kind) * rows[k].balance + Worth(rows, ks - {k})
    decreases ks
  {
    var j :| j in ks && Worth(rows, ks) == Sign(j.kind) * rows[j].balance + Worth(rows, ks - {j});
    if j != k {
      WorthAt(rows, ks - {j}, k);
      WorthAt(rows, ks - {k}, j);
      assert ks - {j} - {k} == ks - {k} - {j};
    }
  }

  lemma {:induction false} WorthAgrees(a: Table, b: Table, ks: set<Key>)
    requires ks <= a.Keys && ks <= b.Keys
    requires forall k | k in ks :: a[k].balance == b[k].balance
    ensures Worth(a, ks) == Worth(b, ks)
    decreases ks
  {
    if ks != {} {
      var k :| k in ks;
      WorthAt(a, ks, k);
      WorthAt(b, ks, k);
      WorthAgrees(a, b, ks - {k});
    }
  }

  /** An account or asset more adds its balance, a liability takes it off, an objective changes nothing. */
  lemma NetWorthAdds(rows: Table, k: Key, row: Row)
    requires k !in rows
    ensures NetWorth(map[]) == 0
    ensures NetWorth(rows[k := row]) == NetWorth(rows) +
              match k.kind
              case Account => row.balance
              case Asset => row.balance
              case Liability => -row.balance
              case Objective => 0
  {
    var next := rows[k := row];
    WorthAt(next, next.Keys, k);
    assert next.Keys - {k} == rows.Keys;
    WorthAgrees(next, rows, rows.Keys);
  }

  /** What a list of entries adds to net worth: entries on missing rows add nothing. */
  function Gain(es: seq<Entry>, live: set<Key>): int {
    if es == [] then 0
    else (if es[0].key in live then Sign(es[0].key.kind) * es[0].delta else 0) + Gain(es[1..], live)
  }

  lemma {:induction false} PostAllWorth(rows: Table, es: seq<Entry>, now: int)
    requires PostAll(rows, es, now).Some?
    ensures NetWorth(PostAll(rows, es, now).value) == NetWorth(rows) + Gain(es, rows.Keys)
  {
    if es != [] {
      var k := es[0].key;
      var next := Post(rows, k, es[0].delta, now).value;
      assert next.Keys == rows.Keys;
      if k in rows {
        WorthAt(rows, rows.Keys, k);
        WorthAt(next, rows.Keys, k);
        WorthAgrees(rows, next, rows.Keys - {k});
        assert next[k].balance == rows[k].balance + es[0].delta;
        SignTimes(k.kind, rows[k].balance, es[0].delta);
      }
      PostAllWorth(next, es[1..], now);
    }
  }

  lemma SignTimes(k: Kind, a: int, b: int)
    ensures Sign(k) * (a + b) == Sign(k) * a + Sign(k) * b
  {
    match k
    case Objective =>
    case Account =>
    case Asset =>
    case Liability =>
  }

  lemma {:induction false} GainAppend(a: seq<Entry>, b: seq<Entry>, live: set<Key>)
    ensures Gain(a + b, live) == Gain(a, live) + Gain(b, live)
  {
    if a == [] {
      assert a + b == b;
    } else {
      assert (a + b)[1..] == a[1..] + b;
      GainAppend(a[1..], b, live);
    }
  }

  lemma TouchGain(link: Option<int>, kind: Kind, delta: int, live: set<Key>)
    ensures Gain(Touch(link, kind, delta), live) ==
            if link.Some? && Key(kind, link.value) in live then Sign(kind) * delta else 0
  {
    if link.Some? {
      assert Touch(link, kind, delta)[1..] == [];
    }
  }

  lemma EntriesGain(r: Record, sign: int, live: set<Key>)
    ensures Gain(Entries(r, sign), live) ==
            Gain(Touch(r.origin, Account, -r.amount * sign), live) +
            Gain(Touch(r.destination, Account, r.amount * sign), live) +
            Gain(Touch(r.liability, Liability, -r.amount * sign), live)
  {
    var o, d := Touch(r.origin, Account, -r.amount * sign), Touch(r.destination, Account, r.amount * sign);
    var l, g := Touch(r.liability, Liability, -r.amount * sign), Touch(r.objective, Objective, r.amount * sign);
    GainAppend(o + d + l, g, live);
    GainAppend(o + d, l, live);
    GainAppend(o, d, live);
    TouchGain(r.objective, Objective, r.amount * sign, live);
  }

  /** A transfer as `createTransfer` saves it. */
  datatype Movement = Movement(user: int, group: nat, source: int, toAccount: Option<int>, toLiability: Option<int>,
                               amount: int, objective: Option<int>)
  {
    /** Exactly one destination. */
    predicate Routed() {
      toAccount.Some? != toLiability.Some?
    }

    function Legs(): seq<Record> {
      [OriginLeg(user, group, source, amount),
       DestinationLeg(user, group, toAccount, toLiability, amount, objective)]
    }

    function Source(): Key {
      Key(Account, source)
    }

    function Target(): Key
      requires Routed()
    {
      if toAccount.Some? then Key(Account, toAccount.value) else Key(Liability, toLiability.value)
    }

    /** What `createTransfer` demands of the tables. */
    predicate Owned(rows: Table)
      requires Routed()
    {
      Owns(rows, user, Source()) && Owns(rows, user, Target())
    }
  }

  lemma AllEntriesTwo(a: Record, b: Record, sign: int)
    ensures AllEntries([a, b], sign) == Entries(a, sign) + Entries(b, sign)
  {
    assert [a, b][..1] == [a] && [a][..0] == [];
    assert AllEntries([a], sign) == AllEntries([], sign) + Entries(a, sign);
    assert AllEntries([], sign) + Entries(a, sign) == Entries(a, sign);
  }

  /** Booking or taking back a pair changes net worth only when one of its ends is gone. */
  lemma PairGain(m: Movement, sign: int, live: set<Key>)
    requires m.Routed() && (sign == 1 || sign == -1)
    ensures Gain(AllEntries(m.Legs(), sign), live) ==
            (if m.Target() in live then sign * m.amount else 0) - (if m.Source() in live then sign * m.amount else 0)
  {
    var a, b := m.Legs()[0], m.Legs()[1];
    AllEntriesTwo(a, b, sign);
    GainAppend(Entries(a, sign), Entries(b, sign), live);
    EntriesGain(a, sign, live);
    EntriesGain(b, sign, live);
    TouchGain(a.origin, Account, -a.amount * sign, live);
    TouchGain(a.destination, Account, a.amount * sign, live);
    TouchGain(a.liability, Liability, -a.amount * sign, live);
    TouchGain(b.origin, Account, -b.amount * sign, live);
    TouchGain(b.destination, Account, b.amount * sign, live);
    TouchGain(b.liability, Liability, -b.amount * sign, live);
  }

  // ---- The pair in the table -------------------------------------------------------------

  /** The live legs of the record's group are exactly the pair of `m`, at positions i < j. */
  ghost predicate PairAt(s: State, m: Movement, i: int, j: int) {
    && 0 <= i < j < |s.records|
    && s.records[i] == m.Legs()[0] && s.records[j] == m.Legs()[1]
    && forall n | 0 <= n < |s.records| && s.records[n].group == Some(m.group) :: n == i || n == j
  }

  lemma {:induction false} PickedTwo(rs: seq<Record>, i: int, j: int)
    requires 0 <= i < j < |rs|
    ensures Picked(rs, {i, j}) == [rs[i], rs[j]]
  {
    var n := |rs| - 1;
    if j == n {
      PickedOne(rs[..n], i, {i, j});
    } else {
      PickedTwo(rs[..n], i, j);
    }
  }

  lemma {:induction false} PickedOne(rs: seq<Record>, i: int, sel: set<int>)
    requires 0 <= i < |rs| && i in sel && forall n | n in sel && n != i :: n >= |rs|
    ensures Picked(rs, sel) == [rs[i]]
  {
    var n := |rs| - 1;
    if i == n {
      PickedNone(rs[..n], sel);
    } else {
      PickedOne(rs[..n], i, sel);
    }
  }

  lemma {:induction false} PickedNone(rs: seq<Record>, sel: set<int>)
    requires forall n | n in sel :: n < 0 || n >= |rs|
    ensures Picked(rs, sel) == []
  {
    if rs != [] {
      PickedNone(rs[..|rs| - 1], sel);
    }
  }

  lemma PairLegs(s: State, m: Movement, i: int, j: int, id: int)
    requires PairAt(s, m, i, j) && (id == i || id == j)
    ensures Legs(s, id, m.user) == Some({i, j}) && Picked(s.records, {i, j}) == m.Legs()
  {
    assert Siblings(s.records, m.user, {m.group}) == {i, j};
    PickedTwo(s.records, i, j);
  }

  // ---- Main results ----------------------------------------------------------------------

  /** Creating a transfer never changes net worth. */
  lemma CreatePreservesNetWorth(s: State, c: Command, now: int)
    requires c.CreateTransfer? && Do(s, c, now).Ok?
    ensures NetWorth(Do(s, c, now).value.rows) == NetWorth(s.rows)
  {
    var m := Movement(c.user, s.groups, c.source, c.toAccount, c.toLiability, c.amount, c.objective);
    PostAllWorth(s.rows, AllEntries(m.Legs(), 1), now);
    PairGain(m, 1, s.rows.Keys);
  }

  /** Deleting a transfer preserves net worth exactly when both ends or neither are live, or nothing moved. */
  lemma DeletePreservesNetWorthIff(s: State, m: Movement, i: int, j: int, id: int, now: int)
    requires m.Routed() && PairAt(s, m, i, j) && (id == i || id == j)
    requires DoDeleteTransfer(s, m.user, id, now).Ok?
    ensures NetWorth(DoDeleteTransfer(s, m.user, id, now).value.rows) == NetWorth(s.rows) <==>
            m.amount == 0 || ((m.Source() in s.rows) == (m.Target() in s.rows))
  {
    PairLegs(s, m, i, j, id);
    PostAllWorth(s.rows, AllEntries(m.Legs(), -1), now);
    PairGain(m, -1, s.rows.Keys);
  }

  /** An amount update preserves net worth exactly when both ends or neither are live, or the amount stays. */
  lemma UpdatePreservesNetWorthIff(s: State, m: Movement, i: int, j: int, id: int, amount: int, now: int)
    requires m.Routed() && PairAt(s, m, i, j) && (id == i || id == j)
    requires DoUpdateTransfer(s, m.user, id, Some(amount), None, now).Ok?
    ensures NetWorth(DoUpdateTransfer(s, m.user, id, Some(amount), None, now).value.rows) == NetWorth(s.rows) <==>
            m.amount == amount || ((m.Source() in s.rows) == (m.Target() in s.rows))
  {
    PairLegs(s, m, i, j, id);
    var n := m.(amount := amount);
    assert Edited(m.Legs(), Retouch(Some(amount), None)) == n.Legs();
    PostAllWorth(s.rows, AllEntries(m.Legs(), -1) + AllEntries(n.Legs(), 1), now);
    GainAppend(AllEntries(m.Legs(), -1), AllEntries(n.Legs(), 1), s.rows.Keys);
    PairGain(m, -1, s.rows.Keys);
    PairGain(n, 1, s.rows.Keys);
  }

  /**
   * Deleting a transfer and creating it again with a new amount is accepted exactly when the
   * amount update is and both ends still belong to the user; the update does not look at the
   * owner. Both ways leave the same balances, completion flags and completion dates.
   */
  lemma UpdateIsDeleteThenCreate(s: State, m: Movement, i: int, j: int, id: int, amount: int, now: int)
    requires m.Routed() && PairAt(s, m, i, j) && (id == i || id == j)
    ensures var updated := DoUpdateTransfer(s, m.user, id, Some(amount), None, now);
            var deleted := DoDeleteTransfer(s, m.user, id, now);
            var recreate := CreateTransfer(m.user, m.source, m.toAccount, m.toLiability, amount, m.objective);
            && (deleted.Ok? && Do(deleted.value, recreate, now).Ok? <==> updated.Ok? && m.Owned(s.rows))
            && (updated.Ok? && m.Owned(s.rows) ==>
                  updated.value.rows == Do(deleted.value, recreate, now).value.rows)
  {
    hide AllEntries, PostAll;
    PairLegs(s, m, i, j, id);
    var n := m.(amount := amount);
    assert Edited(m.Legs(), Retouch(Some(amount), None)) == n.Legs();
    var undo, redo := AllEntries(m.Legs(), -1), AllEntries(n.Legs(), 1);
    PostAllAppend(s.rows, undo, redo, now);
    var deleted := DoDeleteTransfer(s, m.user, id, now);
    if deleted.Ok? {
      PostAllKeys(s.rows, undo, now);
      OwnedAfter(s.rows, m, undo, now);
      EntriesIgnoreGroup(n, s.groups);
    }
  }

  /** Posting does not change who owns the ends. */
  lemma OwnedAfter(rows: Table, m: Movement, es: seq<Entry>, now: int)
    requires m.Routed() && PostAll(rows, es, now).Some? && PostAll(rows, es, now).value.Keys == rows.Keys
    ensures m.Owned(PostAll(rows, es, now).value) <==> m.Owned(rows)
  {
    if m.Source() in rows {
      PostAllBalance(rows, es, now, m.Source());
    }
    if m.Target() in rows {
      PostAllBalance(rows, es, now, m.Target());
    }
  }

  lemma EntriesIgnoreGroup(n: Movement, group: nat)
    ensures AllEntries(n.(group := group).Legs(), 1) == AllEntries(n.Legs(), 1)
  {
    AllEntriesTwo(n.Legs()[0], n.Legs()[1], 1);
    var f := n.(group := group).Legs();
    AllEntriesTwo(f[0], f[1], 1);
  }

  /** The entries of a pair: debit the source, settle the target, credit the objective. */
  function PairEntries(m: Movement, sign: int): seq<Entry>
    requires m.Routed()
  {
    [Entry(m.Source(), -m.amount * sign),
     Entry(m.Target(), if m.toAccount.Some? then m.amount * sign else -m.amount * sign)] +
    Touch(m.objective, Objective, m.amount * sign)
  }

  lemma PairEntriesAre(m: Movement, sign: int)
    requires m.Routed()
    ensures AllEntries(m.Legs(), sign) == PairEntries(m, sign)
  {
    AllEntriesTwo(m.Legs()[0], m.Legs()[1], sign);
  }

  lemma PostPair(rows: Table, m: Movement, sign: int, now: int)
    requires m.Routed()
    ensures var first := Post(rows, m.Source(), -m.amount * sign, now);
            PostAll(rows, PairEntries(m, sign), now) ==
            if first.None? then None
            else
              var second := Post(first.value, m.Target(), PairEntries(m, sign)[1].delta, now);
              if second.None? || m.objective.None? then second
              else Post(second.value, Key(Objective, m.objective.value), m.amount * sign, now)
  {
    var es := PairEntries(m, sign);
    assert es[1..][0] == es[1];
    assert es[1..][1..] == Touch(m.objective, Objective, m.amount * sign);
    var first := Post(rows, es[0].key, es[0].delta, now);
    if first.Some? {
      var second := Post(first.value, es[1].key, es[1].delta, now);
      assert PostAll(first.value, es[1..], now) ==
             if second.None? then None else PostAll(second.value, es[1..][1..], now);
      if second.Some? && m.objective.Some? {
        var last := es[1..][1..];
        assert last[1..] == [];
        assert PostAll(second.value, last, now) == Post(second.value, last[0].key, last[0].delta, now);
      }
    }
  }

  /** The goal of the transfer, if it has one, says what its balance says. */
  predicate GoalAgrees(rows: Table, objective: Option<int>) {
    objective.Some? && Key(Objective, objective.value) in rows ==>
      var g := rows[Key(Objective, objective.value)]; g.Goal? ==> g.Agrees()
  }

  /** What a pair does to an objective. */
  lemma PairGoal(rows: Table, m: Movement, sign: int, now: int, k: Key)
    requires m.Routed() && PostAll(rows, AllEntries(m.Legs(), sign), now).Some? && k in rows && k.kind == Objective
    ensures var after := PostAll(rows, AllEntries(m.Legs(), sign), now).value;
      k in after && after[k] == if m.objective == Some(k.id) then rows[k].Moved(m.amount * sign, now) else rows[k]
  {
    hide AllEntries;
    PairEntriesAre(m, sign);
    PostPair(rows, m, sign, now);
  }

  lemma PairSumsCancel(m: Movement, k: Key)
    requires m.Routed()
    ensures EntrySum(AllEntries(m.Legs(), 1), k) + EntrySum(AllEntries(m.Legs(), -1), k) == 0
  {
    PairEntriesAre(m, 1);
    PairEntriesAre(m, -1);
    PairSum(m, 1, k);
    PairSum(m, -1, k);
  }

  lemma PairSum(m: Movement, sign: int, k: Key)
    requires m.Routed()
    ensures EntrySum(PairEntries(m, sign), k) ==
      (if m.Source() == k then -m.amount * sign else 0) +
      (if m.Target() == k then PairEntries(m, sign)[1].delta else 0) +
      (if m.objective.Some? && Key(Objective, m.objective.value) == k then m.amount * sign else 0)
  {
    var es := PairEntries(m, sign);
    var last := Touch(m.objective, Objective, m.amount * sign);
    assert es == [es[0]] + ([es[1]] + last);
    EntrySumAppend([es[0]], [es[1]] + last, k);
    EntrySumAppend([es[1]], last, k);
    EntrySumOne(es[0], k);
    EntrySumOne(es[1], k);
    if m.objective.Some? {
      EntrySumOne(last[0], k);
      assert last == [last[0]];
    }
  }

  lemma EntrySumOne(e: Entry, k: Key)
    ensures EntrySum([e], k) == if e.key == k then e.delta else 0
  {
    assert [e][1..] == [];
  }

  /** When taking a posted pair back is accepted. */
  lemma UndoAcceptedIff(rows: Table, m: Movement, now: int, later: int)
    requires m.Routed() && m.Owned(rows) && m.amount >= 0
    requires PostAll(rows, AllEntries(m.Legs(), 1), now).Some?
    ensures PostAll(PostAll(rows, AllEntries(m.Legs(), 1), now).value, AllEntries(m.Legs(), -1), later).Some? <==>
            m.toAccount.None? || m.toAccount.value == m.source || rows[m.Target()].balance >= 0
  {
    PairEntriesAre(m, 1);
    PairEntriesAre(m, -1);
    PostPair(rows, m, 1, now);
    PostPair(PostAll(rows, AllEntries(m.Legs(), 1), now).value, m, -1, later);
  }

  /** Posting the pair and taking it back, on the tables alone. */
  lemma UndoRestoresRows(rows: Table, m: Movement, now: int, later: int)
    requires m.Routed() && m.amount >= 0
    requires forall k | k in rows :: rows[k].Goal? == (k.kind == Objective)
    requires PostAll(rows, AllEntries(m.Legs(), 1), now).Some?
    requires PostAll(PostAll(rows, AllEntries(m.Legs(), 1), now).value, AllEntries(m.Legs(), -1), later).Some?
    ensures Restored(PostAll(PostAll(rows, AllEntries(m.Legs(), 1), now).value, AllEntries(m.Legs(), -1), later).value,
              rows, m.objective)
  {
    hide AllEntries, PostAll;
    var mid := PostAll(rows, AllEntries(m.Legs(), 1), now).value;
    var after := PostAll(mid, AllEntries(m.Legs(), -1), later).value;
    PostAllKeys(rows, AllEntries(m.Legs(), 1), now);
    PostAllKeys(mid, AllEntries(m.Legs(), -1), later);
    forall k | k in rows
      ensures after[k].balance == rows[k].balance
      ensures m.objective.None? || k != Key(Objective, m.objective.value) ==> after[k] == rows[k]
      ensures m.objective.Some? && k == Key(Objective, m.objective.value) ==> (after[k] == rows[k] <==> rows[k].Agrees())
    {
      PostAllBalance(rows, AllEntries(m.Legs(), 1), now, k);
      PostAllBalance(mid, AllEntries(m.Legs(), -1), later, k);
      PairSumsCancel(m, k);
      if k.kind == Objective {
        PairGoal(rows, m, 1, now, k);
        PairGoal(mid, m, -1, later, k);
        GoalUndo(rows[k], m.amount, now, later);
      }
    }
  }

  /**
   * Every balance is back, and every row outside the objective; the objective is back too,
   * flag and date included, exactly when its flag had said what its balance says.
   */
  predicate Restored(after: Table, before: Table, objective: Option<int>) {
    && after.Keys == before.Keys
    && (forall k | k in before :: after[k].balance == before[k].balance)
    && (forall k | k in before && (objective.None? || k != Key(Objective, objective.value)) :: after[k] == before[k])
    && (after == before <==> GoalAgrees(before, objective))
  }

  lemma GoalUndo(g: Row, amount: int, now: int, later: int)
    requires g.Goal? && amount >= 0
    ensures var u := g.Moved(amount, now).Moved(-amount, later);
      && u.Goal? && u.balance == g.balance && (u == g <==> g.Agrees())
  {
  }

  lemma CreatedPairAt(s: State, m: Movement, next: State)
    requires forall r | r in s.records && r.group.Some? :: r.group.value < s.groups
    requires m.group == s.groups && next.records == s.records + m.Legs()
    ensures PairAt(next, m, |s.records|, |s.records| + 1)
  {
    forall n | 0 <= n < |s.records| ensures next.records[n].group != Some(m.group) {
      assert s.records[n] in s.records;
    }
  }

  /**
   * Deletion is the inverse of creation. Deleting a transfer right after creating it, by
   * either leg, is accepted exactly when its destination account did not start below zero;
   * it then restores every balance and every row, except that an objective whose completion
   * had been forced against its balance is re-evaluated. Earlier records stand as they were.
   */
  lemma DeleteUndoesCreate(s: State, c: Command, id: int, now: int, later: int)
    requires c.CreateTransfer? && Do(s, c, now).Ok? && c.amount >= 0
    requires WholeGroups(s.records, s.groups)
    requires forall k | k in s.rows :: s.rows[k].Goal? == (k.kind == Objective)
    requires id == |s.records| || id == |s.records| + 1
    ensures var undone := DoDeleteTransfer(Do(s, c, now).value, c.user, id, later);
            && (undone.Ok? <==> c.toAccount.None? || c.toAccount.value == c.source
                                || s.rows[Key(Account, c.toAccount.value)].balance >= 0)
            && (undone.Ok? ==> Restored(undone.value.rows, s.rows, c.objective) && s.records <= undone.value.records)
  {
    hide AllEntries, PostAll, Restored;
    var m := Movement(c.user, s.groups, c.source, c.toAccount, c.toLiability, c.amount, c.objective);
    var made := Do(s, c, now).value;
    var n := |s.records|;
    CreatedPairAt(s, m, made);
    PairLegs(made, m, n, n + 1, id);
    UndoAcceptedIff(s.rows, m, now, later);
    var undone := DoDeleteTransfer(made, c.user, id, later);
    if undone.Ok? {
      UndoRestoresRows(s.rows, m, now, later);
      assert undone.value.records == Rewritten(made.records, {n, n + 1}, Erase);
    }
  }

  /** A transfer of a non-negative amount is refused exactly when an end would be left below zero. */
  lemma CreateAcceptedIff(s: State, c: Command, now: int)
    requires c.CreateTransfer? && c.amount >= 0 && (c.toAccount.Some? != c.toLiability.Some?)
    ensures var m := Movement(c.user, s.groups, c.source, c.toAccount, c.toLiability, c.amount, c.objective);
            Do(s, c, now).Ok? <==>
            && m.Owned(s.rows)
            && s.rows[m.Source()].balance >= c.amount
            && (c.toAccount.Some? && c.toAccount.value != c.source ==> s.rows[m.Target()].balance + c.amount >= 0)
  {
    var m := Movement(c.user, s.groups, c.source, c.toAccount, c.toLiability, c.amount, c.objective);
    PairEntriesAre(m, 1);
    PostPair(s.rows, m, 1, now);
  }
}
