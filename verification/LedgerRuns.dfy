/** Invariants over every run of ledger commands. */
module LedgerRuns {
  import opened Options
  import opened LedgerModel
  import opened LedgerSums
  import opened LedgerBooks

  /** Every live balance is its opening value plus the replay of the live records and payments. */
  ghost predicate Books(s: State, opening: map<Key, int>) {
    forall k | k in s.rows :: k in opening && s.rows[k].balance == opening[k] + Replay(s, k)
  }

  /** Direct edits of a balance start a new opening value for that entity. */
  function OpeningAfter(s: State, c: Command, now: int, opening: map<Key, int>): map<Key, int> {
    if Do(s, c, now).Err? then opening
    else
      var next := Do(s, c, now).value;
      match c
      case Open(k, _) => if k in next.rows then opening[k := Gap(next, k)] else opening
      case SetBalance(k, _) => if k in next.rows then opening[k := Gap(next, k)] else opening
      case EditGoal(_, id, _) =>
        var k := Key(Objective, id);
        if k in next.rows then opening[k := Gap(next, k)] else opening
      case _ => opening
  }

  /** A committed command keeps the books exactly when it has no drift on a live entity. */
  lemma BooksIff(s: State, c: Command, now: int, opening: map<Key, int>)
    requires Books(s, opening) && Do(s, c, now).Ok? && !IsDirectEdit(c)
    ensures Books(Do(s, c, now).value, opening) <==> forall k | k in s.rows :: Drift(s, c, k) == 0
  {
    var next := Do(s, c, now).value;
    SameKeys(s, c, now);
    forall k | k in s.rows
      ensures next.rows[k].balance == opening[k] + Replay(next, k) <==> Drift(s, c, k) == 0
    {
      AccountingLaw(s, c, now, k);
    }
  }

  lemma PostAllKeys(rows: Table, es: seq<Entry>, now: int)
    requires PostAll(rows, es, now).Some?
    ensures PostAll(rows, es, now).value.Keys == rows.Keys
  {
    if es != [] {
      var next := Post(rows, es[0].key, es[0].delta, now).value;
      assert next.Keys == rows.Keys;
      PostAllKeys(next, es[1..], now);
    }
  }

  /** Ledger commands never add or drop a balance row. */
  lemma SameKeys(s: State, c: Command, now: int)
    requires Do(s, c, now).Ok? && !IsDirectEdit(c)
    ensures Do(s, c, now).value.rows.Keys == s.rows.Keys
  {
    match c
    case CreateTransfer(user, source, toAccount, toLiability, amount, objective) =>
      PostAllKeys(s.rows, AllEntries([OriginLeg(user, s.groups, source, amount),
        DestinationLeg(user, s.groups, toAccount, toLiability, amount, objective)], 1), now);
    case UpdateTransfer(user, id, amount, objective) =>
      var pair := Picked(s.records, Legs(s, id, user).value);
      PostAllKeys(s.rows, AllEntries(pair, -1) + AllEntries(Edited(pair, Retouch(amount, objective)), 1), now);
    case DeleteTransfer(user, id) =>
      PostAllKeys(s.rows, AllEntries(Picked(s.records, Legs(s, id, user).value), -1), now);
    case SoftDelete(user, id) =>
      if s.records[id].group.Some? {
        PostAllKeys(s.rows, AllEntries(Picked(s.records, Legs(s, id, user).value), -1), now);
      }
    case CloneTransfer(user, id, amount) =>
      var originals := Picked(s.records, Legs(s, id, user).value);
      var a := if amount.Some? then amount.value else Template(originals).amount;
      PostAllKeys(s.rows, AllEntries(ClonedLegs(originals, user, s.groups, a), 1), now);
    case _ =>
  }

  // ---- Shape of the records --------------------------------------------------------------

  /** Plain records have no transfer endpoints; transfer legs carry no account or asset link. */
  predicate WellShaped(r: Record, groups: nat) {
    match r.group
    case None => r.origin.None? && r.destination.None?
    case Some(g) => g < groups && r.kind == Transfer && r.account.None? && r.asset.None?
  }

  predicate Shaped(s: State) {
    forall r | r in s.records :: WellShaped(r, s.groups)
  }

  /**
   * Calls that keep the books whatever the amounts: a transfer leg is not updated in its
   * amount, type, account or asset through the generic update; a bulk delete selects no
   * transfer leg; the transfer routes are called on records that look like transfer legs.
   */
  predicate Admissible(s: State, c: Command) {
    match c
    case Update(user, id, p) =>
      Mine(s, id, user) && s.records[id].group.Some? ==>
        var r, merged := s.records[id], p.Apply(s.records[id]);
        merged.(objective := r.objective, liability := r.liability) == r
    case SoftDeleteMany(user, ids) => !SelectsLeg(s, user, ids)
    case UpdateTransfer(user, id, _, _) => PlainTransferIsBare(s, user, id)
    case DeleteTransfer(user, id) => PlainTransferIsBare(s, user, id)
    case _ => true
  }

  /** A record of type transfer outside any group carries no account or asset link. */
  predicate PlainTransferIsBare(s: State, user: int, id: int) {
    Mine(s, id, user) && s.records[id].group.None? ==> s.records[id].account.None? && s.records[id].asset.None?
  }

  lemma LegsShaped(s: State, user: int, id: int)
    requires Shaped(s) && Legs(s, id, user).Some? && PlainTransferIsBare(s, user, id)
    ensures forall r | r in Picked(s.records, Legs(s, id, user).value) :: LegShaped(r)
  {
    var legs := Legs(s, id, user).value;
    PickedIn(s.records, legs);
    forall r | r in Picked(s.records, legs) ensures LegShaped(r) {
      var i :| i in legs && 0 <= i < |s.records| && s.records[i] == r;
      assert r in s.records;
    }
  }

  lemma EditedLegsShaped(legs: seq<Record>, amount: Option<int>, objective: Option<Option<int>>)
    requires forall r | r in legs :: LegShaped(r)
    ensures forall r | r in Edited(legs, Retouch(amount, objective)) :: LegShaped(r)
  {
    var e := Retouch(amount, objective);
    forall r | r in Edited(legs, e) ensures LegShaped(r) {
      var i :| 0 <= i < |legs| && Edited(legs, e)[i] == r;
      assert legs[i] in legs;
    }
  }

  /** Admissible commands on well-shaped records never drift. */
  lemma NoDrift(s: State, c: Command, k: Key)
    requires Shaped(s) && Admissible(s, c)
    ensures Drift(s, c, k) == 0
  {
    match c
    case Update(user, id, p) =>
      if Mine(s, id, user) {
        assert s.records[id] in s.records;
      }
    case SoftDelete(user, id) =>
      if Mine(s, id, user) {
        assert s.records[id] in s.records;
        if s.records[id].group.Some? {
          UndoHasNoDrift(s, user, id, k);
        }
      }
    case SoftDeleteMany(user, ids) =>
      var gone := Picked(s.records, Selected(s, user, ids));
      PickedIn(s.records, Selected(s, user, ids));
      forall r | r in gone ensures r.origin.None? && r.destination.None? {
        var i :| i in Selected(s, user, ids) && 0 <= i < |s.records| && s.records[i] == r;
        assert r in s.records;
      }
      NoEndpoints(gone, k);
    case DeleteTransfer(user, id) => UndoHasNoDrift(s, user, id, k);
    case UpdateTransfer(user, id, amount, objective) =>
      UndoHasNoDrift(s, user, id, k);
      if Legs(s, id, user).Some? {
        var pair := Picked(s.records, Legs(s, id, user).value);
        LegsShaped(s, user, id);
        EditedLegsShaped(pair, amount, objective);
        LegsHaveNoSide(Edited(pair, Retouch(amount, objective)), k);
      }
    case Clone(user, id, amount) =>
      if Mine(s, id, user) {
        assert s.records[id] in s.records;
      }
    case _ =>
  }

  lemma UndoHasNoDrift(s: State, user: int, id: int, k: Key)
    requires Shaped(s) && PlainTransferIsBare(s, user, id)
    ensures UndoDrift(s, user, id, k) == 0
  {
    if Legs(s, id, user).Some? {
      LegsShaped(s, user, id);
      LegsHaveNoSide(Picked(s.records, Legs(s, id, user).value), k);
    }
  }

  // ---- Shape is kept ---------------------------------------------------------------------

  lemma RewrittenIn(rs: seq<Record>, sel: set<int>, e: Edit)
    ensures forall r | r in Rewritten(rs, sel, e) :: exists i :: 0 <= i < |rs| && (r == rs[i] || r == e.Apply(rs[i]))
  {
    forall r | r in Rewritten(rs, sel, e)
      ensures exists i :: 0 <= i < |rs| && (r == rs[i] || r == e.Apply(rs[i]))
    {
      var i :| 0 <= i < |rs| && Rewritten(rs, sel, e)[i] == r;
      assert r == rs[i] || r == e.Apply(rs[i]);
    }
  }

  lemma RewrittenShaped(s: State, sel: set<int>, e: Edit)
    requires Shaped(s)
    ensures forall r | r in Rewritten(s.records, sel, e) :: WellShaped(r, s.groups)
  {
    RewrittenIn(s.records, sel, e);
    forall r | r in Rewritten(s.records, sel, e) ensures WellShaped(r, s.groups) {
      var i :| 0 <= i < |s.records| && (r == s.records[i] || r == e.Apply(s.records[i]));
      assert s.records[i] in s.records;
    }
  }

  lemma ShapeKept(s: State, c: Command, now: int)
    requires Shaped(s) && Admissible(s, c)
    ensures Shaped(Step(s, c, now))
  {
    if Do(s, c, now).Ok? {
      match c
      case Update(user, id, p) => assert s.records[id] in s.records;
      case SoftDelete(user, id) =>
        assert s.records[id] in s.records;
        if s.records[id].group.Some? {
          RewrittenShaped(s, Legs(s, id, user).value, Erase);
        }
      case SoftDeleteMany(user, ids) => RewrittenShaped(s, Doomed(s, user, ids), Erase);
      case UpdateTransfer(user, id, amount, objective) =>
        RewrittenShaped(s, Legs(s, id, user).value, Retouch(amount, objective));
      case DeleteTransfer(user, id) => RewrittenShaped(s, Legs(s, id, user).value, Erase);
      case Clone(user, id, amount) => assert s.records[id] in s.records;
      case _ =>
    }
  }

  // ---- Runs ------------------------------------------------------------------------------

  /** A command and the clock reading it runs at. */
  datatype Call = Call(command: Command, now: int)

  function Run(s: State, calls: seq<Call>): State
    decreases |calls|
  {
    if calls == [] then s else Run(Step(s, calls[0].command, calls[0].now), calls[1..])
  }

  function RunOpening(s: State, calls: seq<Call>, opening: map<Key, int>): map<Key, int>
    decreases |calls|
  {
    if calls == [] then opening
    else RunOpening(Step(s, calls[0].command, calls[0].now), calls[1..],
                    OpeningAfter(s, calls[0].command, calls[0].now, opening))
  }

  predicate AdmissibleRun(s: State, calls: seq<Call>)
    decreases |calls|
  {
    calls == [] ||
    (Admissible(s, calls[0].command) && AdmissibleRun(Step(s, calls[0].command, calls[0].now), calls[1..]))
  }

  lemma StepKeepsBooks(s: State, c: Command, now: int, opening: map<Key, int>)
    requires Books(s, opening) && Shaped(s) && Admissible(s, c)
    ensures Books(Step(s, c, now), OpeningAfter(s, c, now, opening))
  {
    if Do(s, c, now).Ok? && !IsDirectEdit(c) {
      forall k | k in s.rows ensures Drift(s, c, k) == 0 {
        NoDrift(s, c, k);
      }
      BooksIff(s, c, now, opening);
    }
  }

  /** After every admissible run, each live balance is its opening value plus the replay. */
  lemma {:induction false} RunKeepsBooks(s: State, calls: seq<Call>, opening: map<Key, int>)
    requires Books(s, opening) && Shaped(s) && AdmissibleRun(s, calls)
    ensures Books(Run(s, calls), RunOpening(s, calls, opening)) && Shaped(Run(s, calls))
    decreases |calls|
  {
    if calls != [] {
      var c, now := calls[0].command, calls[0].now;
      StepKeepsBooks(s, c, now, opening);
      ShapeKept(s, c, now);
      RunKeepsBooks(Step(s, c, now), calls[1..], OpeningAfter(s, c, now, opening));
    }
  }

  // ---- Whole groups ----------------------------------------------------------------------

  /** The legs of a transfer belong to one user and are all live or all deleted. */
  predicate WholeGroups(rs: seq<Record>, groups: nat) {
    && (forall r | r in rs :: r.group.Some? ==> r.group.value < groups)
    && forall i, j | 0 <= i < |rs| && 0 <= j < |rs| && rs[i].group.Some? && rs[i].group == rs[j].group ::
         rs[i].user == rs[j].user && rs[i].deleted == rs[j].deleted
  }

  /** Appending records outside groups, or live legs of one user in a fresh group. */
  lemma AppendKeepsWhole(s: State, rs: seq<Record>, user: int, legs: bool)
    requires WholeGroups(s.records, s.groups)
    requires forall r | r in rs :: !r.deleted && r.user == user && r.group == if legs then Some(s.groups) else None
    ensures WholeGroups(s.records + rs, if legs then s.groups + 1 else s.groups)
  {
    var all := s.records + rs;
    forall i | 0 <= i < |all|
      ensures i < |s.records| ==> all[i] in s.records && all[i] == s.records[i]
      ensures i >= |s.records| ==> all[i] in rs
    {
    }
  }

  /** Deleting a set of positions that is closed under "same group". */
  lemma EraseKeepsWhole(s: State, sel: set<int>)
    requires WholeGroups(s.records, s.groups)
    requires forall i, j | i in sel && 0 <= i < |s.records| && 0 <= j < |s.records| && !s.records[j].deleted &&
                           s.records[i].group.Some? && s.records[i].group == s.records[j].group :: j in sel
    requires forall i | i in sel && 0 <= i < |s.records| :: !s.records[i].deleted
    ensures WholeGroups(Rewritten(s.records, sel, Erase), s.groups)
  {
    var out := Rewritten(s.records, sel, Erase);
    RewrittenIn(s.records, sel, Erase);
    forall r | r in out && r.group.Some? ensures r.group.value < s.groups {
      var i :| 0 <= i < |s.records| && (r == s.records[i] || r == Erase.Apply(s.records[i]));
      assert s.records[i] in s.records;
    }
  }

  lemma SameGroupsWhole(s: State, next: State)
    requires WholeGroups(s.records, s.groups)
    requires next.groups == s.groups && |next.records| == |s.records|
    requires forall i | 0 <= i < |s.records| ::
               next.records[i].group == s.records[i].group && next.records[i].user == s.records[i].user &&
               next.records[i].deleted == s.records[i].deleted
    ensures WholeGroups(next.records, next.groups)
  {
    forall r | r in next.records && r.group.Some? ensures r.group.value < s.groups {
      var i :| 0 <= i < |next.records| && next.records[i] == r;
      assert s.records[i] in s.records;
    }
  }

  lemma EraseLegsKeepsWhole(s: State, user: int, id: int)
    requires WholeGroups(s.records, s.groups) && Legs(s, id, user).Some?
    ensures WholeGroups(Rewritten(s.records, Legs(s, id, user).value, Erase), s.groups)
  {
    EraseKeepsWhole(s, Legs(s, id, user).value);
  }

  lemma BulkEraseKeepsWhole(s: State, user: int, ids: set<int>)
    requires WholeGroups(s.records, s.groups)
    ensures WholeGroups(Rewritten(s.records, Doomed(s, user, ids), Erase), s.groups)
  {
    EraseKeepsWhole(s, Doomed(s, user, ids));
  }

  lemma SoftDeleteKeepsWhole(s: State, user: int, id: int, now: int)
    requires WholeGroups(s.records, s.groups) && DoSoftDelete(s, user, id, now).Ok?
    ensures WholeGroups(DoSoftDelete(s, user, id, now).value.records, s.groups)
  {
    if s.records[id].group.Some? {
      EraseLegsKeepsWhole(s, user, id);
    } else {
      EraseKeepsWhole(s, {id});
      assert s.records[id := Erase.Apply(s.records[id])] == Rewritten(s.records, {id}, Erase);
    }
  }

  /** The records a command appends: outside groups, or live legs of one fresh group. */
  lemma AppendCommandKeepsWhole(s: State, c: Command, now: int)
    requires WholeGroups(s.records, s.groups) && Do(s, c, now).Ok?
    requires c.Create? || c.CreateMany? || c.CreateTransfer? || c.Clone? || c.CloneTransfer?
    ensures WholeGroups(Do(s, c, now).value.records, Do(s, c, now).value.groups)
  {
    match c
    case Create(user, draft) => AppendKeepsWhole(s, [draft.ToRecord(user)], user, false);
    case CreateMany(user, drafts) => AppendKeepsWhole(s, ToRecords(user, drafts), user, false);
    case CreateTransfer(user, source, toAccount, toLiability, amount, objective) =>
      AppendKeepsWhole(s, [OriginLeg(user, s.groups, source, amount),
        DestinationLeg(user, s.groups, toAccount, toLiability, amount, objective)], user, true);
    case Clone(user, id, amount) =>
      var r := s.records[id];
      AppendKeepsWhole(s, [r.(amount := if amount.Some? then amount.value else r.amount)], user, false);
    case CloneTransfer(user, id, amount) =>
      var originals := Picked(s.records, Legs(s, id, user).value);
      var a := if amount.Some? then amount.value else Template(originals).amount;
      AppendKeepsWhole(s, ClonedLegs(originals, user, s.groups, a), user, true);
  }

  lemma UpdateKeepsWhole(s: State, user: int, id: int, patch: Patch, now: int)
    requires WholeGroups(s.records, s.groups) && DoUpdate(s, user, id, patch, now).Ok?
    ensures WholeGroups(DoUpdate(s, user, id, patch, now).value.records, s.groups)
  {
    hide WholeGroups, Affordable, Posted;
    SameGroupsWhole(s, DoUpdate(s, user, id, patch, now).value);
  }

  lemma UpdateTransferKeepsWhole(s: State, user: int, id: int, amount: Option<int>, objective: Option<Option<int>>, now: int)
    requires WholeGroups(s.records, s.groups) && DoUpdateTransfer(s, user, id, amount, objective, now).Ok?
    ensures WholeGroups(DoUpdateTransfer(s, user, id, amount, objective, now).value.records, s.groups)
  {
    hide WholeGroups, PostAll, AllEntries, Legs;
    SameGroupsWhole(s, DoUpdateTransfer(s, user, id, amount, objective, now).value);
  }

  lemma StepKeepsWholeGroups(s: State, c: Command, now: int)
    requires WholeGroups(s.records, s.groups)
    ensures WholeGroups(Step(s, c, now).records, Step(s, c, now).groups)
  {
    hide WholeGroups, Affordable, Posted, PostAll, AllEntries;
    if Do(s, c, now).Ok? {
      match c
      case Update(user, id, patch) => UpdateKeepsWhole(s, user, id, patch, now);
      case UpdateTransfer(user, id, amount, objective) => UpdateTransferKeepsWhole(s, user, id, amount, objective, now);
      case SoftDelete(user, id) => SoftDeleteKeepsWhole(s, user, id, now);
      case SoftDeleteMany(user, ids) => BulkEraseKeepsWhole(s, user, ids);
      case DeleteTransfer(user, id) => EraseLegsKeepsWhole(s, user, id);
      case Create(_, _) => AppendCommandKeepsWhole(s, c, now);
      case CreateMany(_, _) => AppendCommandKeepsWhole(s, c, now);
      case CreateTransfer(_, _, _, _, _, _) => AppendCommandKeepsWhole(s, c, now);
      case Clone(_, _, _) => AppendCommandKeepsWhole(s, c, now);
      case CloneTransfer(_, _, _) => AppendCommandKeepsWhole(s, c, now);
      case _ =>
    }
  }

  /** In every run, admissible or not, no transfer is ever left half deleted. */
  lemma {:induction false} RunKeepsWholeGroups(s: State, calls: seq<Call>)
    requires WholeGroups(s.records, s.groups)
    ensures WholeGroups(Run(s, calls).records, Run(s, calls).groups)
    decreases |calls|
  {
    if calls != [] {
      StepKeepsWholeGroups(s, calls[0].command, calls[0].now);
      RunKeepsWholeGroups(Step(s, calls[0].command, calls[0].now), calls[1..]);
    }
  }
}
