/**
 * The personal-finance ledger on values: the tables, the posting primitives and
 * the outcome of every repository command. Money is integer cents and encrypted
 * balances are plain numbers.
 */
module LedgerModel {
  import opened Options

  datatype Kind = Objective | Account | Asset | Liability

  /** `kind:id`, the key of the source's net-delta map. */
  datatype Key = Key(kind: Kind, id: int)

  datatype TxType = Income | Expense | Investment | Transfer

  /**
   * A row of one of the four balance tables. Soft-deleted rows are invisible to
   * every lookup of the source, so the table holds the live ones only.
   */
  datatype Row =
    | Plain(owner: int, balance: int)
    | Goal(owner: int, balance: int, target: Option<int>, completed: bool, completedAt: Option<int>)
  {
    /** The documented rule: a positive target that the balance has reached. */
    predicate Reached()
      requires Goal?
    {
      target.Some? && target.value > 0 && balance >= target.value
    }

    /** The completion flags say what the balance says. */
    predicate Agrees()
      requires Goal?
    {
      completed == Reached() && completedAt.Some? == completed
    }

    /** `applyCompletion`. */
    function Evaluated(now: int): Row
      requires Goal?
    {
      if target.None? || target.value <= 0 then this.(completed := false, completedAt := None)
      else if balance >= target.value then
        this.(completed := true, completedAt := if completedAt.None? then Some(now) else completedAt)
      else this.(completed := false, completedAt := None)
    }

    /** One write of `applyToEntity`: move the balance, then re-evaluate a goal. */
    function Moved(delta: int, now: int): Row {
      if Goal? then this.(balance := balance + delta).Evaluated(now)
      else this.(balance := balance + delta)
    }
  }

  type Table = map<Key, Row>

  datatype Record = Record(
    user: int, kind: TxType, amount: int,
    objective: Option<int>, account: Option<int>, asset: Option<int>, liability: Option<int>,
    origin: Option<int>, destination: Option<int>, group: Option<nat>, deleted: bool)
  {
    function Link(k: Kind): Option<int> {
      match k
      case Objective => objective
      case Account => account
      case Asset => asset
      case Liability => liability
    }
  }

  datatype Payment = Payment(user: int, objective: int, amount: int, deleted: bool)

  /**
   * The database. A record's or payment's id is its position; `groups` counts the
   * transfer group ids handed out, standing for `randomUUID`.
   */
  datatype State = State(records: seq<Record>, payments: seq<Payment>, rows: Table, groups: nat)

  datatype Error =
    | NotFound | NegativeBalance | DestinationRequired | InvalidDestination | CloneOfTransfer

  // ---- Effects: what a record says it does to a balance ----------------------------------

  /** `contribution`. */
  function Contribution(kind: TxType, amount: int, k: Kind): int {
    match k
    case Objective => if kind == Expense then -amount else amount
    case Account => if kind == Income then amount else -amount
    case Asset => if kind == Expense then -amount else amount
    case Liability => -amount
  }

  /** What `collectContributions` books for one key. */
  function LinkEffect(r: Record, k: Key): int {
    if r.Link(k.kind) == Some(k.id) then Contribution(r.kind, r.amount, k.kind) else 0
  }

  /** Money leaving the origin account and reaching the destination account of a transfer leg. */
  function EndpointEffect(r: Record, k: Key): int {
    if k.kind != Account then 0
    else (if r.destination == Some(k.id) then r.amount else 0) - (if r.origin == Some(k.id) then r.amount else 0)
  }

  /** The whole documented effect of a record; a deleted record has none. */
  function Effect(r: Record, k: Key): int {
    if r.deleted then 0 else LinkEffect(r, k) + EndpointEffect(r, k)
  }

  function PaymentEffect(p: Payment, k: Key): int {
    if !p.deleted && k == Key(Objective, p.objective) then p.amount else 0
  }

  function SumEffects(rs: seq<Record>, k: Key): int {
    if rs == [] then 0 else SumEffects(rs[..|rs| - 1], k) + Effect(rs[|rs| - 1], k)
  }

  function SumPayments(ps: seq<Payment>, k: Key): int {
    if ps == [] then 0 else SumPayments(ps[..|ps| - 1], k) + PaymentEffect(ps[|ps| - 1], k)
  }

  /** Full replay of the live records and payments for one entity. */
  function Replay(s: State, k: Key): int {
    SumEffects(s.records, k) + SumPayments(s.payments, k)
  }

  // ---- Posting ---------------------------------------------------------------------------

  /** `applyToEntity`: a missing row is skipped, an account may not end below zero. */
  function Post(rows: Table, k: Key, delta: int, now: int): Option<Table> {
    if k !in rows then Some(rows)
    else if k.kind == Account && rows[k].balance + delta < 0 then None
    else Some(rows[k := rows[k].Moved(delta, now)])
  }

  datatype Entry = Entry(key: Key, delta: int)

  /** Entries posted one after the other; the first refusal aborts. */
  function PostAll(rows: Table, es: seq<Entry>, now: int): Option<Table> {
    if es == [] then Some(rows)
    else
      match Post(rows, es[0].key, es[0].delta, now)
      case None => None
      case Some(next) => PostAll(next, es[1..], now)
  }

  function LinkSum(rs: seq<Record>, k: Key): int {
    if rs == [] then 0 else LinkSum(rs[..|rs| - 1], k) + LinkEffect(rs[|rs| - 1], k)
  }

  /** Net delta of taking `minus` back and booking `plus`. */
  function Net(minus: seq<Record>, plus: seq<Record>, k: Key): int {
    LinkSum(plus, k) - LinkSum(minus, k)
  }

  /** No account that the net delta touches would end below zero. */
  predicate Affordable(rows: Table, minus: seq<Record>, plus: seq<Record>) {
    forall k | k in rows && k.kind == Account ::
      Net(minus, plus, k) == 0 || rows[k].balance + Net(minus, plus, k) >= 0
  }

  /** Every row moved at once by its net delta; a zero delta does not touch the row. */
  function Posted(rows: Table, minus: seq<Record>, plus: seq<Record>, now: int): Table {
    map k | k in rows ::
      if Net(minus, plus, k) == 0 then rows[k] else rows[k].Moved(Net(minus, plus, k), now)
  }

  /** An entry on the linked row, when there is a link. */
  function Touch(link: Option<int>, kind: Kind, delta: int): seq<Entry> {
    if link.Some? then [Entry(Key(kind, link.value), delta)] else []
  }

  /** `applyTransferAdjustment`: the entries of one record, in the order they are posted. */
  function Entries(r: Record, sign: int): seq<Entry> {
    Touch(r.origin, Account, -r.amount * sign) +
    Touch(r.destination, Account, r.amount * sign) +
    Touch(r.liability, Liability, -r.amount * sign) +
    Touch(r.objective, Objective, r.amount * sign)
  }

  function AllEntries(rs: seq<Record>, sign: int): seq<Entry> {
    if rs == [] then [] else AllEntries(rs[..|rs| - 1], sign) + Entries(rs[|rs| - 1], sign)
  }

  // ---- Selecting and rewriting records ---------------------------------------------------

  /** `findById`: live and owned by the user. */
  predicate Mine(s: State, id: int, user: int) {
    0 <= id < |s.records| && !s.records[id].deleted && s.records[id].user == user
  }

  /** The records at the selected positions, in id order. */
  function Picked(rs: seq<Record>, sel: set<int>): seq<Record> {
    if rs == [] then []
    else Picked(rs[..|rs| - 1], sel) + if |rs| - 1 in sel then [rs[|rs| - 1]] else []
  }

  datatype Edit =
    | Erase
    | Retouch(amount: Option<int>, objective: Option<Option<int>>)
  {
    /** Soft removal, or the money fields `updateTransfer` changes on one leg. */
    function Apply(r: Record): Record {
      match this
      case Erase => r.(deleted := true)
      case Retouch(a, o) =>
        var r1 := if a.Some? then r.(amount := a.value) else r;
        if o.Some? && r.destination.Some? then r1.(objective := o.value) else r1
    }
  }

  function Edited(rs: seq<Record>, e: Edit): (out: seq<Record>)
    ensures |out| == |rs|
  {
    seq(|rs|, i requires 0 <= i < |rs| => e.Apply(rs[i]))
  }

  function Rewritten(rs: seq<Record>, sel: set<int>, e: Edit): (out: seq<Record>)
    ensures |out| == |rs|
  {
    seq(|rs|, i requires 0 <= i < |rs| => if i in sel then e.Apply(rs[i]) else rs[i])
  }

  /** Positions of the user's live records that belong to one of the groups. */
  function Siblings(rs: seq<Record>, user: int, gs: set<nat>): set<int> {
    set i | 0 <= i < |rs| && !rs[i].deleted && rs[i].user == user && rs[i].group.Some? && rs[i].group.value in gs
  }

  /** `findTransferById`: the pair a transfer record belongs to, or the record alone. */
  function Legs(s: State, id: int, user: int): Option<set<int>> {
    if !Mine(s, id, user) || s.records[id].kind != Transfer then None
    else if s.records[id].group.None? then Some({id})
    else Some(Siblings(s.records, user, {s.records[id].group.value}))
  }

  // ---- Commands --------------------------------------------------------------------------

  /** The money fields of a create request. */
  datatype Draft = Draft(
    kind: TxType, amount: int,
    objective: Option<int>, account: Option<int>, asset: Option<int>, liability: Option<int>)
  {
    function ToRecord(user: int): Record {
      Record(user, kind, amount, objective, account, asset, liability, None, None, None, false)
    }
  }

  function ToRecords(user: int, drafts: seq<Draft>): (rs: seq<Record>)
    ensures |rs| == |drafts|
  {
    seq(|drafts|, i requires 0 <= i < |drafts| => drafts[i].ToRecord(user))
  }

  /** An update request: an absent field keeps the stored value, a present one replaces it. */
  datatype Patch = Patch(
    kind: Option<TxType>, amount: Option<int>,
    objective: Option<Option<int>>, account: Option<Option<int>>,
    asset: Option<Option<int>>, liability: Option<Option<int>>)
  {
    function Apply(r: Record): Record {
      r.(kind := if kind.Some? then kind.value else r.kind,
         amount := if amount.Some? then amount.value else r.amount,
         objective := if objective.Some? then objective.value else r.objective,
         account := if account.Some? then account.value else r.account,
         asset := if asset.Some? then asset.value else r.asset,
         liability := if liability.Some? then liability.value else r.liability)
    }
  }

  datatype GoalPatch = GoalPatch(
    target: Option<Option<int>>, balance: Option<int>,
    completed: Option<bool>, completedAt: Option<Option<int>>)

  datatype Command =
    | Create(user: int, draft: Draft)
    | CreateMany(user: int, drafts: seq<Draft>)
    | Update(user: int, id: int, patch: Patch)
    | SoftDelete(user: int, id: int)
    | SoftDeleteMany(user: int, ids: set<int>)
    | CreateTransfer(user: int, source: int, toAccount: Option<int>, toLiability: Option<int>,
                     amount: int, objective: Option<int>)
    | UpdateTransfer(user: int, id: int, newAmount: Option<int>, newObjective: Option<Option<int>>)
    | DeleteTransfer(user: int, id: int)
    | Clone(user: int, id: int, newAmount: Option<int>)
    | CloneTransfer(user: int, id: int, newAmount: Option<int>)
    | Pay(user: int, objectiveId: int, amount: int)
    | RemovePayment(user: int, id: int)
    // Direct edits outside the transaction-record repository: they set a balance.
    | Open(key: Key, row: Row)
    | SetBalance(key: Key, balance: int)
    | EditGoal(user: int, id: int, goal: GoalPatch)
    | Close(key: Key)

  /** Commands that set, add or drop a balance row directly. */
  predicate IsDirectEdit(c: Command) {
    c.Open? || c.SetBalance? || c.EditGoal? || c.Close?
  }

  function AddRecords(s: State, rs: seq<Record>, now: int): Result<State, Error> {
    if Affordable(s.rows, [], rs) then Ok(s.(records := s.records + rs, rows := Posted(s.rows, [], rs, now)))
    else Err(NegativeBalance)
  }

  function DoUpdate(s: State, user: int, id: int, patch: Patch, now: int): Result<State, Error> {
    if !Mine(s, id, user) then Err(NotFound)
    else
      var previous, merged := s.records[id], patch.Apply(s.records[id]);
      if Affordable(s.rows, [previous], [merged]) then
        Ok(s.(records := s.records[id := merged], rows := Posted(s.rows, [previous], [merged], now)))
      else Err(NegativeBalance)
  }

  function DoDeleteTransfer(s: State, user: int, id: int, now: int): Result<State, Error> {
    var legs := Legs(s, id, user);
    if legs.None? then Err(NotFound)
    else
      var rows := PostAll(s.rows, AllEntries(Picked(s.records, legs.value), -1), now);
      if rows.None? then Err(NegativeBalance)
      else Ok(s.(records := Rewritten(s.records, legs.value, Erase), rows := rows.value))
  }

  function DoSoftDelete(s: State, user: int, id: int, now: int): Result<State, Error> {
    if !Mine(s, id, user) then Err(NotFound)
    else if s.records[id].group.Some? then DoDeleteTransfer(s, user, id, now)
    else
      var record := s.records[id];
      if Affordable(s.rows, [record], []) then
        Ok(s.(records := s.records[id := Erase.Apply(record)], rows := Posted(s.rows, [record], [], now)))
      else Err(NegativeBalance)
  }

  /** The user's live records among the requested ids. */
  function Selected(s: State, user: int, ids: set<int>): set<int> {
    set i | i in ids && Mine(s, i, user)
  }

  /** Transfer groups that the selection touches. */
  function TouchedGroups(s: State, user: int, ids: set<int>): set<nat> {
    set i | i in Selected(s, user, ids) && s.records[i].group.Some? :: s.records[i].group.value
  }

  predicate SelectsLeg(s: State, user: int, ids: set<int>) {
    exists i :: i in Selected(s, user, ids) && s.records[i].group.Some?
  }

  /**
   * What a bulk delete removes: the selection, or, as soon as it contains one
   * transfer leg, only the legs of the groups it touches.
   */
  function Doomed(s: State, user: int, ids: set<int>): set<int> {
    if !SelectsLeg(s, user, ids) then Selected(s, user, ids)
    else Siblings(s.records, user, TouchedGroups(s, user, ids))
  }

  function DoSoftDeleteMany(s: State, user: int, ids: set<int>, now: int): Result<State, Error> {
    if ids == {} then Ok(s)
    else if Selected(s, user, ids) == {} then Err(NotFound)
    else
      var doomed := Doomed(s, user, ids);
      var gone := Picked(s.records, doomed);
      if Affordable(s.rows, gone, []) then
        Ok(s.(records := Rewritten(s.records, doomed, Erase), rows := Posted(s.rows, gone, [], now)))
      else Err(NegativeBalance)
  }

  predicate Owns(rows: Table, user: int, k: Key) {
    k in rows && rows[k].owner == user
  }

  function OriginLeg(user: int, group: nat, source: int, amount: int): Record {
    Record(user, Transfer, amount, None, None, None, None, Some(source), None, Some(group), false)
  }

  function DestinationLeg(user: int, group: nat, toAccount: Option<int>, toLiability: Option<int>,
                          amount: int, objective: Option<int>): Record {
    Record(user, Transfer, amount, objective, None, None, if toAccount.Some? then None else toLiability,
           None, toAccount, Some(group), false)
  }

  /** Append legs of a fresh group and post their entries one by one. */
  function AddLegs(s: State, legs: seq<Record>, now: int): Result<State, Error> {
    var rows := PostAll(s.rows, AllEntries(legs, 1), now);
    if rows.None? then Err(NegativeBalance)
    else Ok(s.(records := s.records + legs, rows := rows.value, groups := s.groups + 1))
  }

  function DoCreateTransfer(s: State, user: int, source: int, toAccount: Option<int>, toLiability: Option<int>,
                            amount: int, objective: Option<int>, now: int): Result<State, Error> {
    if toAccount.None? && toLiability.None? then Err(DestinationRequired)
    else if toAccount.Some? && toLiability.Some? then Err(InvalidDestination)
    else if !Owns(s.rows, user, Key(Account, source)) then Err(NotFound)
    else if toAccount.Some? && !Owns(s.rows, user, Key(Account, toAccount.value)) then Err(NotFound)
    else if toLiability.Some? && !Owns(s.rows, user, Key(Liability, toLiability.value)) then Err(NotFound)
    else AddLegs(s, [OriginLeg(user, s.groups, source, amount),
                     DestinationLeg(user, s.groups, toAccount, toLiability, amount, objective)], now)
  }

  function DoUpdateTransfer(s: State, user: int, id: int, newAmount: Option<int>,
                            newObjective: Option<Option<int>>, now: int): Result<State, Error> {
    var legs := Legs(s, id, user);
    if legs.None? then Err(NotFound)
    else
      var e := Retouch(newAmount, newObjective);
      var pair := Picked(s.records, legs.value);
      var rows := PostAll(s.rows, AllEntries(pair, -1) + AllEntries(Edited(pair, e), 1), now);
      if rows.None? then Err(NegativeBalance)
      else Ok(s.(records := Rewritten(s.records, legs.value, e), rows := rows.value))
  }

  function DoClone(s: State, user: int, id: int, newAmount: Option<int>, now: int): Result<State, Error> {
    if !Mine(s, id, user) then Err(NotFound)
    else if s.records[id].group.Some? then Err(CloneOfTransfer)
    else
      var original := s.records[id];
      AddRecords(s, [original.(amount := if newAmount.Some? then newAmount.value else original.amount)], now)
  }

  /** The leg whose money fields the clone of a transfer copies. */
  function Template(legs: seq<Record>): Record
    requires legs != []
  {
    var i := FirstWith(legs, true);
    if i < |legs| then legs[i]
    else
      var j := FirstWith(legs, false);
      if j < |legs| then legs[j] else legs[0]
  }

  /** Position of the first leg with an origin, or with a destination account or liability. */
  function FirstWith(legs: seq<Record>, origin: bool): (i: nat)
    ensures i <= |legs|
  {
    if legs == [] then 0
    else if (if origin then legs[0].origin.Some? else legs[0].destination.Some? || legs[0].liability.Some?) then 0
    else 1 + FirstWith(legs[1..], origin)
  }

  function ClonedLeg(leg: Record, user: int, group: nat, amount: int): Record {
    var objective := if leg.destination.Some? || leg.liability.Some? then leg.objective else None;
    var liability := if leg.destination.Some? then None else leg.liability;
    Record(user, Transfer, amount, objective, None, None, liability, leg.origin, leg.destination, Some(group), false)
  }

  function ClonedLegs(legs: seq<Record>, user: int, group: nat, amount: int): (out: seq<Record>)
    ensures |out| == |legs|
  {
    seq(|legs|, i requires 0 <= i < |legs| => ClonedLeg(legs[i], user, group, amount))
  }

  function DoCloneTransfer(s: State, user: int, id: int, newAmount: Option<int>, now: int): Result<State, Error> {
    var legs := Legs(s, id, user);
    if legs.None? then Err(NotFound)
    else
      var originals := Picked(s.records, legs.value);
      if originals == [] then Err(NotFound)
      else
        var amount := if newAmount.Some? then newAmount.value else Template(originals).amount;
        AddLegs(s, ClonedLegs(originals, user, s.groups, amount), now)
  }

  function DoPay(s: State, user: int, objective: int, amount: int, now: int): Result<State, Error> {
    var k := Key(Objective, objective);
    if !Owns(s.rows, user, k) then Err(NotFound)
    else Ok(s.(payments := s.payments + [Payment(user, objective, amount, false)],
               rows := s.rows[k := s.rows[k].Moved(amount, now)]))
  }

  function DoRemovePayment(s: State, user: int, id: int, now: int): Result<State, Error> {
    if !(0 <= id < |s.payments|) || s.payments[id].deleted || s.payments[id].user != user then Err(NotFound)
    else
      var p := s.payments[id];
      var k := Key(Objective, p.objective);
      Ok(s.(payments := s.payments[id := p.(deleted := true)],
            rows := if k in s.rows then s.rows[k := s.rows[k].Moved(-p.amount, now)] else s.rows))
  }

  /** `FinancialObjectiveRepository.update`: explicit completion wins, otherwise it is re-evaluated. */
  function EditedGoal(g: Row, p: GoalPatch, now: int): Row
    requires g.Goal?
  {
    var m := g.(target := if p.target.Some? then p.target.value else g.target,
                balance := if p.balance.Some? then p.balance.value else g.balance);
    if p.completed.Some? || p.completedAt.Some? then
      var done := if p.completed.Some? then p.completed.value else true;
      m.(completed := done,
         completedAt := if !done then None
                        else if p.completedAt.Some? && p.completedAt.value.Some? then p.completedAt.value
                        else Some(now))
    else m.Evaluated(now)
  }

  function DoEditGoal(s: State, user: int, id: int, p: GoalPatch, now: int): Result<State, Error> {
    var k := Key(Objective, id);
    if !Owns(s.rows, user, k) || !s.rows[k].Goal? then Err(NotFound)
    else Ok(s.(rows := s.rows[k := EditedGoal(s.rows[k], p, now)]))
  }

  /** A new objective is re-evaluated before it is saved. */
  function DoOpen(s: State, k: Key, row: Row, now: int): Result<State, Error> {
    if k in s.rows || row.Goal? != (k.kind == Objective) then Err(NotFound)
    else Ok(s.(rows := s.rows[k := if row.Goal? then row.Evaluated(now) else row]))
  }

  /** A balance typed in by the user on an account, asset or liability. */
  function DoSetBalance(s: State, k: Key, balance: int): Result<State, Error> {
    if k !in s.rows || s.rows[k].Goal? then Err(NotFound)
    else Ok(s.(rows := s.rows[k := s.rows[k].(balance := balance)]))
  }

  function Do(s: State, c: Command, now: int): Result<State, Error> {
    match c
    case Create(user, draft) => AddRecords(s, [draft.ToRecord(user)], now)
    case CreateMany(user, drafts) => if drafts == [] then Ok(s) else AddRecords(s, ToRecords(user, drafts), now)
    case Update(user, id, patch) => DoUpdate(s, user, id, patch, now)
    case SoftDelete(user, id) => DoSoftDelete(s, user, id, now)
    case SoftDeleteMany(user, ids) => DoSoftDeleteMany(s, user, ids, now)
    case CreateTransfer(user, source, toAccount, toLiability, amount, objective) =>
      DoCreateTransfer(s, user, source, toAccount, toLiability, amount, objective, now)
    case UpdateTransfer(user, id, amount, objective) => DoUpdateTransfer(s, user, id, amount, objective, now)
    case DeleteTransfer(user, id) => DoDeleteTransfer(s, user, id, now)
    case Clone(user, id, amount) => DoClone(s, user, id, amount, now)
    case CloneTransfer(user, id, amount) => DoCloneTransfer(s, user, id, amount, now)
    case Pay(user, objective, amount) => DoPay(s, user, objective, amount, now)
    case RemovePayment(user, id) => DoRemovePayment(s, user, id, now)
    case Open(k, row) => DoOpen(s, k, row, now)
    case SetBalance(k, balance) => DoSetBalance(s, k, balance)
    case EditGoal(user, id, p) => DoEditGoal(s, user, id, p, now)
    case Close(k) => if k in s.rows then Ok(s.(rows := s.rows - {k})) else Err(NotFound)
  }

  /** One database transaction: commit, or full rollback. */
  function Step(s: State, c: Command, now: int): State {
    match Do(s, c, now)
    case Ok(next) => next
    case Err(_) => s
  }
}
