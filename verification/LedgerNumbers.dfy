/** What every command does to the tables, field by field and amount by amount. */
module LedgerNumbers {
  import opened Options
  import opened LedgerModel
  import opened LedgerSums
  import opened LedgerRuns
  import opened LedgerTransfers
  import opened LedgerRecords

  // ---- Amounts ---------------------------------------------------------------------------

  /**
   * The rule of each balance table: an account loses what is no income, an objective and an
   * asset lose expenses and gain the rest, a liability goes down by any payment.
   */
  function Booked(kind: TxType, amount: int, objective: Option<int>, account: Option<int>, asset: Option<int>,
                  liability: Option<int>, k: Key): int {
    match k.kind
    case Account => if account != Some(k.id) then 0 else if kind == Income then amount else -amount
    case Objective => if objective != Some(k.id) then 0 else if kind == Expense then -amount else amount
    case Asset => if asset != Some(k.id) then 0 else if kind == Expense then -amount else amount
    case Liability => if liability != Some(k.id) then 0 else -amount
  }

  function BookedBy(r: Record, k: Key): int {
    Booked(r.kind, r.amount, r.objective, r.account, r.asset, r.liability, k)
  }

  lemma LinkIsBooked(r: Record, k: Key)
    ensures LinkEffect(r, k) == BookedBy(r, k)
  {
  }

  lemma AddedMoves(s: State, r: Record, now: int)
    requires AddRecords(s, [r], now).Ok?
    ensures var next := AddRecords(s, [r], now).value;
      && next == s.(records := s.records + [r], rows := next.rows) && next.rows.Keys == s.rows.Keys
      && forall k | k in s.rows :: next.rows[k].balance == s.rows[k].balance + BookedBy(r, k)
  {
    hide Posted, Affordable, BookedBy;
    PostedKeys(s.rows, [], [r], now);
    forall k | k in s.rows
      ensures Posted(s.rows, [], [r], now)[k].balance == s.rows[k].balance + BookedBy(r, k)
    {
      NetOfOne(r, k);
      LinkIsBooked(r, k);
      PostedBalance(s.rows, [], [r], now, k);
    }
  }

  /** Creating a record moves exactly the linked rows, by the rule, and stores the request. */
  lemma CreateMoves(s: State, user: int, d: Draft, now: int)
    requires Do(s, Create(user, d), now).Ok?
    ensures var next := Do(s, Create(user, d), now).value;
      && next.records == s.records + [Record(user, d.kind, d.amount, d.objective, d.account, d.asset, d.liability,
                                             None, None, None, false)]
      && next.payments == s.payments && next.groups == s.groups && next.rows.Keys == s.rows.Keys
      && forall k | k in s.rows ::
           next.rows[k].balance == s.rows[k].balance +
             Booked(d.kind, d.amount, d.objective, d.account, d.asset, d.liability, k)
  {
    hide Posted, Affordable, Booked;
    AddedMoves(s, d.ToRecord(user), now);
  }

  /** A command on a record needs that record live and the user's. */
  lemma ForeignIsRefused(s: State, c: Command, now: int)
    requires c.Update? || c.SoftDelete? || c.UpdateTransfer? || c.DeleteTransfer? || c.Clone? || c.CloneTransfer?
    requires Do(s, c, now).Ok?
    ensures 0 <= c.id < |s.records| && !s.records[c.id].deleted && s.records[c.id].user == c.user
    ensures c.UpdateTransfer? || c.DeleteTransfer? || c.CloneTransfer? ==> s.records[c.id].kind == Transfer
    ensures c.Clone? ==> s.records[c.id].group.None?
  {
  }

  /** And with one the only other way to fail is an account that would end below zero. */
  lemma OwnIsRefusedForMoneyOnly(s: State, c: Command, now: int)
    requires c.Update? || c.SoftDelete? || c.UpdateTransfer? || c.DeleteTransfer? || c.Clone?
    requires 0 <= c.id < |s.records| && !s.records[c.id].deleted && s.records[c.id].user == c.user
    requires c.UpdateTransfer? || c.DeleteTransfer? ==> s.records[c.id].kind == Transfer
    requires c.SoftDelete? && s.records[c.id].group.Some? ==> s.records[c.id].kind == Transfer
    requires c.Clone? ==> s.records[c.id].group.None?
    ensures Do(s, c, now).Ok? || Do(s, c, now) == Err(NegativeBalance)
  {
  }

  /** An absent field of an update keeps the stored value and a present one replaces it; nothing else changes. */
  lemma UpdateChanges(s: State, user: int, id: int, p: Patch, now: int)
    requires Do(s, Update(user, id, p), now).Ok?
    ensures var next, r := Do(s, Update(user, id, p), now).value, s.records[id];
      && |next.records| == |s.records| && (forall i | 0 <= i < |s.records| && i != id :: next.records[i] == s.records[i])
      && next.payments == s.payments && next.groups == s.groups
      && var n := next.records[id];
        && (if p.kind.None? then n.kind == r.kind else p.kind == Some(n.kind))
        && (if p.amount.None? then n.amount == r.amount else p.amount == Some(n.amount))
        && (if p.objective.None? then n.objective == r.objective else p.objective == Some(n.objective))
        && (if p.account.None? then n.account == r.account else p.account == Some(n.account))
        && (if p.asset.None? then n.asset == r.asset else p.asset == Some(n.asset))
        && (if p.liability.None? then n.liability == r.liability else p.liability == Some(n.liability))
        && n.user == r.user && n.origin == r.origin && n.destination == r.destination && n.group == r.group && !n.deleted
  {
    hide Posted, Affordable;
  }

  /** It moves every row by what the new record books less what the old one booked. */
  lemma UpdateMoves(s: State, user: int, id: int, p: Patch, now: int)
    requires Do(s, Update(user, id, p), now).Ok?
    ensures var next := Do(s, Update(user, id, p), now).value;
      && id < |next.records| && next.rows.Keys == s.rows.Keys
      && forall k | k in s.rows ::
           next.rows[k].balance == s.rows[k].balance + BookedBy(next.records[id], k) - BookedBy(s.records[id], k)
  {
    hide Affordable, Posted, BookedBy;
    var r, n := s.records[id], p.Apply(s.records[id]);
    assert Do(s, Update(user, id, p), now).value.rows == Posted(s.rows, [r], [n], now);
    PostedKeys(s.rows, [r], [n], now);
    forall k | k in s.rows
      ensures Posted(s.rows, [r], [n], now)[k].balance == s.rows[k].balance + BookedBy(n, k) - BookedBy(r, k)
    {
      UpdatedRow(s.rows, r, n, now, k);
    }
  }

  lemma PostedKeys(rows: Table, minus: seq<Record>, plus: seq<Record>, now: int)
    ensures Posted(rows, minus, plus, now).Keys == rows.Keys
  {
  }

  lemma UpdatedRow(rows: Table, r: Record, n: Record, now: int, k: Key)
    requires k in rows
    ensures k in Posted(rows, [r], [n], now)
    ensures Posted(rows, [r], [n], now)[k].balance == rows[k].balance + BookedBy(n, k) - BookedBy(r, k)
  {
    SumsOfOne(r, k);
    SumsOfOne(n, k);
    LinkIsBooked(r, k);
    LinkIsBooked(n, k);
    PostedBalance(rows, [r], [n], now, k);
  }

  /** Deleting a record outside groups marks it and takes its amount back. */
  lemma DeleteMoves(s: State, user: int, id: int, now: int)
    requires Do(s, SoftDelete(user, id), now).Ok? && s.records[id].group.None?
    ensures var next, r := Do(s, SoftDelete(user, id), now).value, s.records[id];
      && next.records == s.records[id := r.(deleted := true)]
      && next.payments == s.payments && next.groups == s.groups && next.rows.Keys == s.rows.Keys
      && forall k | k in s.rows :: next.rows[k].balance == s.rows[k].balance - BookedBy(r, k)
  {
    var r := s.records[id];
    forall k | k in s.rows
      ensures Posted(s.rows, [r], [], now)[k].balance == s.rows[k].balance - BookedBy(r, k)
    {
      NetOfOne(r, k);
      PostedBalance(s.rows, [r], [], now, k);
    }
  }

  /** Cloning adds one record with the stored money fields and, if given, the new amount. */
  lemma CloneMoves(s: State, user: int, id: int, newAmount: Option<int>, now: int)
    requires Do(s, Clone(user, id, newAmount), now).Ok?
    ensures var next, r := Do(s, Clone(user, id, newAmount), now).value, s.records[id];
      var amount := if newAmount.Some? then newAmount.value else r.amount;
      && next.records == s.records + [Record(r.user, r.kind, amount, r.objective, r.account, r.asset, r.liability,
                                             r.origin, r.destination, None, false)]
      && next.rows.Keys == s.rows.Keys
      && forall k | k in s.rows ::
           next.rows[k].balance == s.rows[k].balance +
             Booked(r.kind, amount, r.objective, r.account, r.asset, r.liability, k)
  {
    var r := s.records[id];
    var copy := r.(amount := if newAmount.Some? then newAmount.value else r.amount);
    hide Posted, Affordable, Booked;
    AddedMoves(s, copy, now);
  }

  /**
   * A bulk delete with no leg in its selection deletes the user's live records among the ids;
   * with a leg in it, it deletes the user's live legs of the groups selected and nothing else.
   */
  lemma BulkDeletes(s: State, user: int, ids: set<int>, now: int, i: int)
    requires Do(s, SoftDeleteMany(user, ids), now).Ok? && 0 <= i < |s.records| && !s.records[i].deleted
    ensures var next := Do(s, SoftDeleteMany(user, ids), now).value;
      && |next.records| == |s.records| && next.records[i] == s.records[i].(deleted := next.records[i].deleted)
      && (next.records[i].deleted <==>
            && s.records[i].user == user
            && if LegSelected(s, user, ids) then
                 exists j :: j in ids && LiveLeg(s, user, j) && s.records[i].group == s.records[j].group
               else i in ids)
  {
    if LegSelected(s, user, ids) {
      var j :| j in ids && LiveLeg(s, user, j);
      assert j in Selected(s, user, ids);
    }
    forall j | j in ids && LiveLeg(s, user, j) ensures s.records[j].group.value in TouchedGroups(s, user, ids) {
      assert j in Selected(s, user, ids);
    }
  }

  predicate LiveOf(s: State, user: int, i: int) {
    0 <= i < |s.records| && !s.records[i].deleted && s.records[i].user == user
  }

  predicate LiveLeg(s: State, user: int, j: int) {
    LiveOf(s, user, j) && s.records[j].group.Some?
  }

  predicate LegSelected(s: State, user: int, ids: set<int>) {
    exists j :: j in ids && LiveLeg(s, user, j)
  }

  /** A bulk delete of ids none of which is a live record of the user is refused; of no ids it does nothing. */
  lemma BulkDeleteRefused(s: State, user: int, ids: set<int>, now: int)
    ensures ids == {} ==> Do(s, SoftDeleteMany(user, ids), now) == Ok(s)
    ensures ids != {} && (forall i | i in ids :: !LiveOf(s, user, i)) ==>
              Do(s, SoftDeleteMany(user, ids), now) == Err(NotFound)
  {
  }

  // ---- Transfers -------------------------------------------------------------------------

  /** What a transfer moves: out of the source, into the destination account or off the liability, onto the objective. */
  function Carried(m: Movement, k: Key): int {
    match k.kind
    case Account => (if m.toAccount == Some(k.id) then m.amount else 0) - (if m.source == k.id then m.amount else 0)
    case Liability => if m.toAccount.None? && m.toLiability == Some(k.id) then -m.amount else 0
    case Objective => if m.objective == Some(k.id) then m.amount else 0
    case Asset => 0
  }

  lemma PairCarries(m: Movement, sign: int, k: Key)
    requires sign == 1 || sign == -1
    ensures EntrySum(AllEntries(m.Legs(), sign), k) == sign * Carried(m, k)
  {
    AllEntriesSum(m.Legs(), sign, k);
    var a, b := m.Legs()[0], m.Legs()[1];
    assert [a, b][..1] == [a];
    SumsOfOne(a, k);
    assert SumTransfers([a, b], k) == TransferEffect(a, k) + TransferEffect(b, k);
  }

  /** Creating a transfer adds its two legs under a fresh group and moves exactly its ends and its objective. */
  lemma TransferMoves(s: State, c: Command, now: int)
    requires c.CreateTransfer? && Do(s, c, now).Ok?
    ensures var next := Do(s, c, now).value;
      var m := Movement(c.user, s.groups, c.source, c.toAccount, c.toLiability, c.amount, c.objective);
      && next.records == s.records +
           [Record(c.user, Transfer, c.amount, None, None, None, None, Some(c.source), None, Some(s.groups), false),
            Record(c.user, Transfer, c.amount, c.objective, None, None, c.toLiability, None, c.toAccount,
                   Some(s.groups), false)]
      && next.payments == s.payments && next.groups == s.groups + 1 && next.rows.Keys == s.rows.Keys
      && forall k | k in s.rows :: next.rows[k].balance == s.rows[k].balance + Carried(m, k)
  {
    var m := Movement(c.user, s.groups, c.source, c.toAccount, c.toLiability, c.amount, c.objective);
    SameKeys(s, c, now);
    forall k | k in s.rows
      ensures Do(s, c, now).value.rows[k].balance == s.rows[k].balance + Carried(m, k)
    {
      PostAllBalance(s.rows, AllEntries(m.Legs(), 1), now, k);
      PairCarries(m, 1, k);
    }
  }

  /** A transfer needs exactly one destination. */
  lemma DestinationErrors(s: State, c: Command, now: int)
    requires c.CreateTransfer?
    ensures Do(s, c, now) == Err(DestinationRequired) <==> c.toAccount.None? && c.toLiability.None?
    ensures Do(s, c, now) == Err(InvalidDestination) <==> c.toAccount.Some? && c.toLiability.Some?
  {
  }

  /** Deleting a transfer by either leg marks both legs, and no other record, and takes back what it carried. */
  lemma DeleteTransferMoves(s: State, m: Movement, i: int, j: int, id: int, now: int)
    requires PairAt(s, m, i, j) && (id == i || id == j) && Do(s, DeleteTransfer(m.user, id), now).Ok?
    ensures var next := Do(s, DeleteTransfer(m.user, id), now).value;
      && next.records == s.records[i := s.records[i].(deleted := true)][j := s.records[j].(deleted := true)]
      && next.payments == s.payments && next.groups == s.groups && next.rows.Keys == s.rows.Keys
      && forall k | k in s.rows :: next.rows[k].balance == s.rows[k].balance - Carried(m, k)
  {
    PairLegs(s, m, i, j, id);
    SameKeys(s, DeleteTransfer(m.user, id), now);
    forall k | k in s.rows
      ensures Do(s, DeleteTransfer(m.user, id), now).value.rows[k].balance == s.rows[k].balance - Carried(m, k)
    {
      PostAllBalance(s.rows, AllEntries(m.Legs(), -1), now, k);
      PairCarries(m, -1, k);
    }
  }

  /** The soft deletion of a leg is the deletion of its transfer. */
  lemma LegDeleteIsTransferDelete(s: State, m: Movement, i: int, j: int, id: int, now: int)
    requires PairAt(s, m, i, j) && (id == i || id == j)
    ensures Do(s, SoftDelete(m.user, id), now) == Do(s, DeleteTransfer(m.user, id), now)
  {
  }

  /** The movement an update asks for: a new amount on both legs, a new objective on the leg with an account destination. */
  function Retouched(m: Movement, amount: Option<int>, objective: Option<Option<int>>): Movement {
    m.(amount := if amount.Some? then amount.value else m.amount,
       objective := if objective.Some? && m.toAccount.Some? then objective.value else m.objective)
  }

  /** Updating a transfer by either leg leaves the pair of the new movement and moves the difference. */
  lemma UpdateTransferMoves(s: State, m: Movement, i: int, j: int, id: int, amount: Option<int>,
                            objective: Option<Option<int>>, now: int)
    requires PairAt(s, m, i, j) && (id == i || id == j)
    requires Do(s, UpdateTransfer(m.user, id, amount, objective), now).Ok?
    ensures var next, n := Do(s, UpdateTransfer(m.user, id, amount, objective), now).value, Retouched(m, amount, objective);
      && next.records == s.records[i := n.Legs()[0]][j := n.Legs()[1]]
      && next.payments == s.payments && next.groups == s.groups && next.rows.Keys == s.rows.Keys
      && forall k | k in s.rows :: next.rows[k].balance == s.rows[k].balance + Carried(n, k) - Carried(m, k)
  {
    var c, n := UpdateTransfer(m.user, id, amount, objective), Retouched(m, amount, objective);
    PairLegs(s, m, i, j, id);
    SameKeys(s, c, now);
    assert Edited(m.Legs(), Retouch(amount, objective)) == n.Legs();
    forall k | k in s.rows
      ensures Do(s, c, now).value.rows[k].balance == s.rows[k].balance + Carried(n, k) - Carried(m, k)
    {
      PostAllBalance(s.rows, AllEntries(m.Legs(), -1) + AllEntries(n.Legs(), 1), now, k);
      EntrySumAppend(AllEntries(m.Legs(), -1), AllEntries(n.Legs(), 1), k);
      PairCarries(m, -1, k);
      PairCarries(n, 1, k);
    }
  }

  /** The leg at `i` is the first of its kind: with an origin, or with a destination. */
  predicate FirstOut(legs: seq<Record>, i: nat) {
    i < |legs| && legs[i].origin.Some? && forall j | 0 <= j < i :: legs[j].origin.None?
  }

  predicate FirstIn(legs: seq<Record>, i: nat) {
    && i < |legs| && (legs[i].destination.Some? || legs[i].liability.Some?)
    && forall j | 0 <= j < i :: legs[j].destination.None? && legs[j].liability.None?
  }

  lemma {:induction false} FirstWithOut(legs: seq<Record>)
    ensures var i := FirstWith(legs, true); FirstOut(legs, i) || (i == |legs| && forall l | l in legs :: l.origin.None?)
  {
    if legs != [] {
      FirstWithOut(legs[1..]);
      assert forall j | 0 < j < |legs| :: legs[j] == legs[1..][j - 1];
    }
  }

  lemma {:induction false} FirstWithIn(legs: seq<Record>)
    ensures var i := FirstWith(legs, false);
      FirstIn(legs, i) || (i == |legs| && forall l | l in legs :: l.destination.None? && l.liability.None?)
  {
    if legs != [] {
      FirstWithIn(legs[1..]);
      assert forall j | 0 < j < |legs| :: legs[j] == legs[1..][j - 1];
    }
  }

  /** The amount of a clone without a new one: that of the leg money left by, else of the one it reached by. */
  lemma CloneAmountIs(legs: seq<Record>, i: nat)
    requires legs != []
    ensures FirstOut(legs, i) ==> Template(legs) == legs[i]
    ensures (forall l | l in legs :: l.origin.None?) && FirstIn(legs, i) ==> Template(legs) == legs[i]
  {
    FirstWithOut(legs);
    FirstWithIn(legs);
    assert forall j | 0 <= j < |legs| :: legs[j] in legs;
  }

  /**
   * Cloning a transfer adds a copy of each of its live legs under a fresh group, all with one
   * amount; only the leg money arrives by keeps the objective, and only without a destination
   * account a liability.
   */
  lemma CloneTransferMoves(s: State, user: int, id: int, newAmount: Option<int>, now: int)
    requires Do(s, CloneTransfer(user, id, newAmount), now).Ok?
    ensures var next, legs := Do(s, CloneTransfer(user, id, newAmount), now).value,
                              Picked(s.records, Legs(s, id, user).value);
      var amount := if newAmount.Some? then newAmount.value else Template(legs).amount;
      && |next.records| == |s.records| + |legs| && next.records[..|s.records|] == s.records
      && next.groups == s.groups + 1 && next.payments == s.payments && next.rows.Keys == s.rows.Keys
      && (forall i | 0 <= i < |legs| ::
            var leg, copy := legs[i], next.records[|s.records| + i];
            && copy.user == user && copy.kind == Transfer && copy.amount == amount && copy.group == Some(s.groups)
            && !copy.deleted && copy.account.None? && copy.asset.None?
            && copy.origin == leg.origin && copy.destination == leg.destination
            && (leg.destination.None? ==> copy.liability == leg.liability)
            && (leg.destination.Some? ==> copy.liability.None?)
            && (leg.destination.Some? || leg.liability.Some? ==> copy.objective == leg.objective)
            && (leg.destination.None? && leg.liability.None? ==> copy.objective.None?))
      && forall k | k in s.rows ::
           next.rows[k].balance == s.rows[k].balance + SumTransfers(next.records[|s.records|..], k)
  {
    var legs := Picked(s.records, Legs(s, id, user).value);
    var amount := if newAmount.Some? then newAmount.value else Template(legs).amount;
    var copies := ClonedLegs(legs, user, s.groups, amount);
    SameKeys(s, CloneTransfer(user, id, newAmount), now);
    hide Template, PostAll, AllEntries, Picked, Legs;
    forall k | k in s.rows
      ensures Do(s, CloneTransfer(user, id, newAmount), now).value.rows[k].balance ==
              s.rows[k].balance + SumTransfers(copies, k)
    {
      PostAllBalance(s.rows, AllEntries(copies, 1), now, k);
      AllEntriesSum(copies, 1, k);
    }
  }

  // ---- Payments and direct edits ---------------------------------------------------------

  /** A payment needs the user's objective, is stored, and moves that objective by its amount. */
  lemma PayMoves(s: State, user: int, o: int, amount: int, now: int)
    ensures var k, r := Key(Objective, o), Do(s, Pay(user, o, amount), now);
      && (r.Ok? <==> k in s.rows && s.rows[k].owner == user)
      && (r.Ok? ==>
            && r.value.payments == s.payments + [Payment(user, o, amount, false)] && r.value.records == s.records
            && r.value.rows[k].balance == s.rows[k].balance + amount
            && forall j | j in s.rows && j != k :: j in r.value.rows && r.value.rows[j] == s.rows[j])
  {
  }

  /** Removing a payment needs it live and the user's, marks it, and takes it off the objective if that still exists. */
  lemma RemovePaymentMoves(s: State, user: int, id: int, now: int)
    ensures var r := Do(s, RemovePayment(user, id), now);
      && (r.Ok? <==> 0 <= id < |s.payments| && !s.payments[id].deleted && s.payments[id].user == user)
      && (r.Ok? ==>
            var p, k := s.payments[id], Key(Objective, s.payments[id].objective);
            && r.value.payments == s.payments[id := p.(deleted := true)] && r.value.records == s.records
            && r.value.rows.Keys == s.rows.Keys
            && forall j | j in s.rows ::
                 if j == k then r.value.rows[j].balance == s.rows[j].balance - p.amount else r.value.rows[j] == s.rows[j])
  {
  }

  /** Direct edits touch one row. */
  lemma EditsTouchOneRow(s: State, c: Command, now: int, k: Key)
    requires IsDirectEdit(c) && Do(s, c, now).Ok?
    requires match c
      case Open(key, _) => key != k
      case SetBalance(key, _) => key != k
      case EditGoal(_, id, _) => Key(Objective, id) != k
      case Close(key) => key != k
    ensures var next := Do(s, c, now).value;
      && next.records == s.records && next.payments == s.payments
      && (k in next.rows <==> k in s.rows) && (k in s.rows ==> next.rows[k] == s.rows[k])
  {
  }

  /** A new row has the balance typed in, a closed one is gone, and a set balance is the one set. */
  lemma EditsSet(s: State, k: Key, row: Row, balance: int, now: int)
    ensures Do(s, Open(k, row), now).Ok? <==> k !in s.rows && row.Goal? == (k.kind == Objective)
    ensures Do(s, Open(k, row), now).Ok? ==>
              var rows := Do(s, Open(k, row), now).value.rows;
              && k in rows && rows[k].balance == row.balance && rows[k].owner == row.owner && rows[k].Goal? == row.Goal?
              && (row.Goal? ==> rows[k].target == row.target && rows[k].Agrees())
    ensures Do(s, SetBalance(k, balance), now).Ok? <==> k in s.rows && !s.rows[k].Goal?
    ensures Do(s, SetBalance(k, balance), now).Ok? ==>
              Do(s, SetBalance(k, balance), now).value.rows[k] == Plain(s.rows[k].owner, balance)
    ensures Do(s, Close(k), now).Ok? <==> k in s.rows
    ensures Do(s, Close(k), now).Ok? ==> k !in Do(s, Close(k), now).value.rows
  {
  }

  /**
   * An edited objective takes the target and balance given. A completion given outright wins,
   * with the date given or the current time; a date alone means completed; nothing given, the
   * objective says what its balance says.
   */
  lemma GoalEdited(s: State, user: int, id: int, p: GoalPatch, now: int)
    ensures var k, r := Key(Objective, id), Do(s, EditGoal(user, id, p), now);
      && (r.Ok? <==> k in s.rows && s.rows[k].owner == user && s.rows[k].Goal?)
      && (r.Ok? ==>
            var g, e := s.rows[k], r.value.rows[k];
            && e.Goal? && e.owner == g.owner
            && (if p.target.None? then e.target == g.target else p.target == Some(e.target))
            && (if p.balance.None? then e.balance == g.balance else p.balance == Some(e.balance))
            && (p.completed == Some(false) ==> !e.completed && e.completedAt == None)
            && (p.completed == Some(true) || (p.completed.None? && p.completedAt.Some?) ==>
                  e.completed && e.completedAt.Some?
                  && (p.completedAt.Some? && p.completedAt.value.Some? ==> e.completedAt == p.completedAt.value)
                  && (p.completedAt.None? || p.completedAt.value.None? ==> e.completedAt == Some(now)))
            && (p.completed.None? && p.completedAt.None? ==> e.Agrees()))
  {
  }
}
