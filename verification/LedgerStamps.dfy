/** How long the completion date of an objective is kept, command by command and over runs. */
module LedgerStamps {
  import opened Options
  import opened LedgerModel
  import opened LedgerSums
  import opened LedgerBooks
  import opened LedgerRuns
  import opened LedgerSafety
  import opened LedgerTransfers

  // ---- Rows under a list of postings -----------------------------------------------------

  /** The deltas a list of entries posts to one row, in order. */
  function Hits(es: seq<Entry>, k: Key): seq<int> {
    if es == [] then [] else (if es[0].key == k then [es[0].delta] else []) + Hits(es[1..], k)
  }

  function MoveAll(row: Row, ds: seq<int>, now: int): Row
    decreases |ds|
  {
    if ds == [] then row else MoveAll(row.Moved(ds[0], now), ds[1..], now)
  }

  /** A row after sequential posting depends only on the entries that name it. */
  lemma {:induction false} PostAllRow(rows: Table, es: seq<Entry>, now: int, k: Key)
    requires PostAll(rows, es, now).Some? && k in rows
    ensures k in PostAll(rows, es, now).value
    ensures PostAll(rows, es, now).value[k] == MoveAll(rows[k], Hits(es, k), now)
    ensures k.kind == Account && Hits(es, k) != [] ==> PostAll(rows, es, now).value[k].balance >= 0
  {
    if es != [] {
      var next := Post(rows, es[0].key, es[0].delta, now).value;
      PostAllRow(next, es[1..], now, k);
      if es[0].key == k {
        assert ([es[0].delta] + Hits(es[1..], k))[1..] == Hits(es[1..], k);
        assert Hits(es[1..], k) == [] ==> MoveAll(next[k], Hits(es[1..], k), now) == next[k];
      } else {
        assert [] + Hits(es[1..], k) == Hits(es[1..], k);
      }
    }
  }

  lemma {:induction false} HitsAppend(a: seq<Entry>, b: seq<Entry>, k: Key)
    ensures Hits(a + b, k) == Hits(a, k) + Hits(b, k)
  {
    if a == [] {
      assert a + b == b;
    } else {
      assert (a + b)[1..] == a[1..] + b;
      HitsAppend(a[1..], b, k);
    }
  }

  // ---- When a list of postings keeps the date --------------------------------------------

  predicate Reaches(balance: int, target: Option<int>) {
    target.Some? && target.value > 0 && balance >= target.value
  }

  /** Every balance on the way reaches the target. */
  predicate Steady(balance: int, target: Option<int>, ds: seq<int>)
    decreases |ds|
  {
    ds == [] || (Reaches(balance + ds[0], target) && Steady(balance + ds[0], target, ds[1..]))
  }

  lemma {:induction false} DateIsNow(row: Row, ds: seq<int>, now: int)
    requires row.Goal? && row.completedAt.Some? == row.completed && (row.completed ==> row.completedAt == Some(now))
    ensures MoveAll(row, ds, now).Goal?
    ensures MoveAll(row, ds, now).completed ==> MoveAll(row, ds, now).completedAt == Some(now)
    decreases |ds|
  {
    if ds != [] {
      DateIsNow(row.Moved(ds[0], now), ds[1..], now);
    }
  }

  /** A goal completed before and after keeps its date exactly as far as it was steady on the way. */
  lemma {:induction false} MoveAllStamp(row: Row, ds: seq<int>, now: int)
    requires row.Goal? && row.completedAt.Some? && row.completed
    ensures MoveAll(row, ds, now).Goal?
    ensures var after := MoveAll(row, ds, now);
      after.completed ==>
        after.completedAt == if Steady(row.balance, row.target, ds) then row.completedAt else Some(now)
    decreases |ds|
  {
    if ds != [] {
      var next := row.Moved(ds[0], now);
      if Reaches(next.balance, next.target) {
        MoveAllStamp(next, ds[1..], now);
      } else {
        DateIsNow(next, ds[1..], now);
      }
    }
  }

  lemma {:induction false} UpIsSteady(balance: int, target: Option<int>, ds: seq<int>)
    requires Reaches(balance, target) && forall d | d in ds :: d >= 0
    ensures Steady(balance, target, ds)
    decreases |ds|
  {
    if ds != [] {
      assert ds[0] in ds && forall d | d in ds[1..] :: d in ds;
      UpIsSteady(balance + ds[0], target, ds[1..]);
    }
  }

  lemma {:induction false} DownIsSteady(row: Row, ds: seq<int>, now: int)
    requires row.Goal? && (forall d | d in ds :: d <= 0)
    requires MoveAll(row, ds, now).Goal? && MoveAll(row, ds, now).completed
    ensures Steady(row.balance, row.target, ds)
    decreases |ds|
  {
    if ds != [] {
      var next := row.Moved(ds[0], now);
      assert forall d | d in ds[1..] :: d in ds;
      DownIsSteady(next, ds[1..], now);
      if |ds| > 1 {
        assert ds[1] in ds && ds[1..][0] == ds[1];
      } else {
        assert MoveAll(next, ds[1..], now) == next;
      }
    }
  }

  lemma OneIsSteady(row: Row, d: int, now: int)
    requires row.Goal? && row.Moved(d, now).completed
    ensures Steady(row.balance, row.target, [d]) && MoveAll(row, [d], now) == row.Moved(d, now)
  {
    assert [d][1..] == [];
  }

  // ---- What a command posts to one row ---------------------------------------------------

  function NetDelta(minus: seq<Record>, plus: seq<Record>, k: Key): seq<int> {
    if Net(minus, plus, k) == 0 then [] else [Net(minus, plus, k)]
  }

  function LegDeltas(s: State, id: int, user: int, k: Key): seq<int>
    requires Legs(s, id, user).Some?
  {
    Hits(AllEntries(Picked(s.records, Legs(s, id, user).value), -1), k)
  }

  /** The deltas a committed ledger command posts to one row, in order. */
  function Deltas(s: State, c: Command, now: int, k: Key): seq<int>
    requires Do(s, c, now).Ok? && !IsDirectEdit(c)
  {
    match c
    case Create(user, draft) => NetDelta([], [draft.ToRecord(user)], k)
    case CreateMany(user, drafts) => NetDelta([], ToRecords(user, drafts), k)
    case Update(user, id, p) => NetDelta([s.records[id]], [p.Apply(s.records[id])], k)
    case SoftDelete(user, id) =>
      if s.records[id].group.Some? then LegDeltas(s, id, user, k) else NetDelta([s.records[id]], [], k)
    case SoftDeleteMany(user, ids) => if ids == {} then [] else NetDelta(Picked(s.records, Doomed(s, user, ids)), [], k)
    case CreateTransfer(user, source, toAccount, toLiability, amount, objective) =>
      Hits(AllEntries([OriginLeg(user, s.groups, source, amount),
        DestinationLeg(user, s.groups, toAccount, toLiability, amount, objective)], 1), k)
    case UpdateTransfer(user, id, amount, objective) =>
      var pair := Picked(s.records, Legs(s, id, user).value);
      Hits(AllEntries(pair, -1) + AllEntries(Edited(pair, Retouch(amount, objective)), 1), k)
    case DeleteTransfer(user, id) => LegDeltas(s, id, user, k)
    case Clone(user, id, amount) =>
      var r := s.records[id];
      NetDelta([], [r.(amount := if amount.Some? then amount.value else r.amount)], k)
    case CloneTransfer(user, id, amount) =>
      var originals := Picked(s.records, Legs(s, id, user).value);
      Hits(AllEntries(ClonedLegs(originals, user, s.groups,
        if amount.Some? then amount.value else Template(originals).amount), 1), k)
    case Pay(user, objective, amount) => if k == Key(Objective, objective) then [amount] else []
    case RemovePayment(user, id) =>
      if k == Key(Objective, s.payments[id].objective) then [-s.payments[id].amount] else []
  }

  lemma NetDeltaRow(rows: Table, minus: seq<Record>, plus: seq<Record>, now: int, k: Key)
    requires k in rows
    ensures Posted(rows, minus, plus, now)[k] == MoveAll(rows[k], NetDelta(minus, plus, k), now)
    ensures Affordable(rows, minus, plus) && k.kind == Account && NetDelta(minus, plus, k) != [] ==>
              Posted(rows, minus, plus, now)[k].balance >= 0
  {
    var d := Net(minus, plus, k);
    if d != 0 {
      assert [d][1..] == [];
      assert MoveAll(rows[k], [d], now) == MoveAll(rows[k].Moved(d, now), [], now);
    }
  }

  lemma SingleRow(row: Row, d: int, now: int)
    ensures MoveAll(row, [d], now) == row.Moved(d, now)
  {
    assert [d][1..] == [];
  }

  /** The row after a committed command is the row under its deltas; no account it posts to is below zero. */
  lemma CommandRow(s: State, c: Command, now: int, k: Key)
    requires Do(s, c, now).Ok? && !IsDirectEdit(c) && k in s.rows
    ensures k in Do(s, c, now).value.rows
    ensures Do(s, c, now).value.rows[k] == MoveAll(s.rows[k], Deltas(s, c, now, k), now)
    ensures k.kind == Account && Deltas(s, c, now, k) != [] ==> Do(s, c, now).value.rows[k].balance >= 0
  {
    hide PostAll, AllEntries, Net, MoveAll, NetDelta, Affordable, Hits;
    match c
    case Create(user, draft) => NetDeltaRow(s.rows, [], [draft.ToRecord(user)], now, k);
    case CreateMany(user, drafts) =>
      if drafts == [] {
        NothingMoves(s.rows[k], now, k);
      } else {
        NetDeltaRow(s.rows, [], ToRecords(user, drafts), now, k);
      }
    case Update(user, id, p) => NetDeltaRow(s.rows, [s.records[id]], [p.Apply(s.records[id])], now, k);
    case SoftDelete(user, id) =>
      if s.records[id].group.Some? {
        PostAllRow(s.rows, AllEntries(Picked(s.records, Legs(s, id, user).value), -1), now, k);
      } else {
        NetDeltaRow(s.rows, [s.records[id]], [], now, k);
      }
    case SoftDeleteMany(user, ids) =>
      if ids == {} {
        NothingMoves(s.rows[k], now, k);
      } else {
        NetDeltaRow(s.rows, Picked(s.records, Doomed(s, user, ids)), [], now, k);
      }
    case CreateTransfer(user, source, toAccount, toLiability, amount, objective) =>
      PostAllRow(s.rows, AllEntries([OriginLeg(user, s.groups, source, amount),
        DestinationLeg(user, s.groups, toAccount, toLiability, amount, objective)], 1), now, k);
    case UpdateTransfer(user, id, amount, objective) =>
      var pair := Picked(s.records, Legs(s, id, user).value);
      PostAllRow(s.rows, AllEntries(pair, -1) + AllEntries(Edited(pair, Retouch(amount, objective)), 1), now, k);
    case DeleteTransfer(user, id) =>
      PostAllRow(s.rows, AllEntries(Picked(s.records, Legs(s, id, user).value), -1), now, k);
    case Clone(user, id, amount) =>
      var r := s.records[id];
      NetDeltaRow(s.rows, [], [r.(amount := if amount.Some? then amount.value else r.amount)], now, k);
    case CloneTransfer(user, id, amount) =>
      var originals := Picked(s.records, Legs(s, id, user).value);
      PostAllRow(s.rows, AllEntries(ClonedLegs(originals, user, s.groups,
        if amount.Some? then amount.value else Template(originals).amount), 1), now, k);
    case Pay(user, objective, amount) =>
      NothingMoves(s.rows[k], now, k);
      SingleRow(s.rows[k], amount, now);
    case RemovePayment(user, id) =>
      NothingMoves(s.rows[k], now, k);
      SingleRow(s.rows[k], -s.payments[id].amount, now);
  }

  lemma NothingMoves(row: Row, now: int, k: Key)
    ensures MoveAll(row, [], now) == row && NetDelta([], [], k) == []
  {
  }

  // ---- Main results ----------------------------------------------------------------------

  lemma {:induction false} MovedAgrees(row: Row, ds: seq<int>, now: int)
    requires row.Goal? && ds != []
    ensures MoveAll(row, ds, now).Goal? && MoveAll(row, ds, now).Agrees()
    decreases |ds|
  {
    var next := row.Moved(ds[0], now);
    if |ds| == 1 {
      assert MoveAll(next, ds[1..], now) == next;
    } else {
      MovedAgrees(next, ds[1..], now);
    }
  }

  /**
   * Every row a committed ledger command posts to is settled, also when it ends as it was:
   * an account is not below zero, and an objective is completed exactly when it has a
   * positive target that its balance has reached. Every other row is left alone.
   */
  lemma AdjustedIsSettled(s: State, c: Command, now: int, k: Key)
    requires Do(s, c, now).Ok? && !IsDirectEdit(c) && k in s.rows
    ensures k in Do(s, c, now).value.rows
    ensures var before, after := s.rows[k], Do(s, c, now).value.rows[k];
      && after.Goal? == before.Goal?
      && if Deltas(s, c, now, k) == [] then after == before else Settled(k, after)
  {
    hide Deltas, Do;
    CommandRow(s, c, now, k);
    var ds := Deltas(s, c, now, k);
    if ds == [] {
      NothingMoves(s.rows[k], now, k);
    } else if s.rows[k].Goal? {
      MovedAgrees(s.rows[k], ds, now);
    } else {
      PlainStays(s.rows[k], ds, now);
    }
  }

  lemma {:induction false} PlainStays(row: Row, ds: seq<int>, now: int)
    requires !row.Goal?
    ensures !MoveAll(row, ds, now).Goal?
    decreases |ds|
  {
    if ds != [] {
      PlainStays(row.Moved(ds[0], now), ds[1..], now);
    }
  }

  /**
   * For every committed ledger command: an objective that is completed before and after it
   * keeps its completion date exactly as far as every balance on the way reached the target;
   * otherwise the date is the time of the command.
   */
  lemma StampLaw(s: State, c: Command, now: int, k: Key)
    requires Do(s, c, now).Ok? && !IsDirectEdit(c) && k in s.rows && s.rows[k].Goal? && Stamped(s.rows)
    requires s.rows[k].completed
    ensures k in Do(s, c, now).value.rows && Do(s, c, now).value.rows[k].Goal?
    ensures var before, after := s.rows[k], Do(s, c, now).value.rows[k];
      after.completed ==>
        after.completedAt ==
          if Steady(before.balance, before.target, Deltas(s, c, now, k)) then before.completedAt else Some(now)
  {
    hide Deltas;
    CommandRow(s, c, now, k);
    MoveAllStamp(s.rows[k], Deltas(s, c, now, k), now);
  }

  // ---- Commands that never reset a date --------------------------------------------------

  /** What request validation demands of money amounts. */
  predicate ValidAmounts(c: Command) {
    match c
    case Create(_, draft) => draft.amount >= 0
    case CreateMany(_, drafts) => forall d | d in drafts :: d.amount >= 0
    case Update(_, _, p) => p.amount.Some? ==> p.amount.value >= 0
    case CreateTransfer(_, _, _, _, amount, _) => amount >= 0
    case UpdateTransfer(_, _, amount, _) => amount.Some? ==> amount.value >= 0
    case Clone(_, _, amount) => amount.Some? ==> amount.value >= 0
    case CloneTransfer(_, _, amount) => amount.Some? ==> amount.value >= 0
    case _ => true
  }

  predicate NonNegative(rs: seq<Record>) {
    forall r | r in rs :: r.amount >= 0
  }

  /** On an objective, a leg posts its amount with the sign of the operation. */
  lemma EntriesSigned(r: Record, sign: int, e: Entry)
    requires r.amount >= 0 && (sign == 1 || sign == -1) && e in Entries(r, sign) && e.key.kind == Objective
    ensures e.delta * sign >= 0
  {
  }

  lemma {:induction false} AllEntriesSigned(rs: seq<Record>, sign: int, e: Entry)
    requires NonNegative(rs) && (sign == 1 || sign == -1)
    requires e in AllEntries(rs, sign) && e.key.kind == Objective
    ensures e.delta * sign >= 0
  {
    var init, last := rs[..|rs| - 1], rs[|rs| - 1];
    if e in Entries(last, sign) {
      assert last in rs;
      EntriesSigned(last, sign, e);
    } else {
      assert forall r | r in init :: r in rs;
      AllEntriesSigned(init, sign, e);
    }
  }

  lemma {:induction false} HitsFrom(es: seq<Entry>, k: Key, d: int)
    requires d in Hits(es, k)
    ensures Entry(k, d) in es
  {
    if es[0] != Entry(k, d) {
      HitsFrom(es[1..], k, d);
    }
  }

  lemma HitsSigned(rs: seq<Record>, sign: int, k: Key)
    requires NonNegative(rs) && (sign == 1 || sign == -1) && k.kind == Objective
    ensures forall d | d in Hits(AllEntries(rs, sign), k) :: d * sign >= 0
  {
    forall d | d in Hits(AllEntries(rs, sign), k)
      ensures d * sign >= 0
    {
      HitsFrom(AllEntries(rs, sign), k, d);
      AllEntriesSigned(rs, sign, Entry(k, d));
    }
  }

  lemma TouchHits(link: Option<int>, kind: Kind, delta: int, k: Key)
    ensures Hits(Touch(link, kind, delta), k) == if link.Some? && Key(kind, link.value) == k then [delta] else []
  {
    if link.Some? {
      assert Touch(link, kind, delta)[1..] == [];
    }
  }

  /** A leg posts to its objective once. */
  lemma EntriesHits(r: Record, sign: int, k: Key)
    requires k.kind == Objective
    ensures Hits(Entries(r, sign), k) == if r.objective == Some(k.id) then [r.amount * sign] else []
  {
    hide Hits, Touch;
    var o, d := Touch(r.origin, Account, -r.amount * sign), Touch(r.destination, Account, r.amount * sign);
    var l, g := Touch(r.liability, Liability, -r.amount * sign), Touch(r.objective, Objective, r.amount * sign);
    HitsAppend(o + d + l, g, k);
    HitsAppend(o + d, l, k);
    HitsAppend(o, d, k);
    TouchHits(r.origin, Account, -r.amount * sign, k);
    TouchHits(r.destination, Account, r.amount * sign, k);
    TouchHits(r.liability, Liability, -r.amount * sign, k);
    TouchHits(r.objective, Objective, r.amount * sign, k);
  }

  /** A transfer posts to its objective once, through its destination leg. */
  lemma PairHits(m: Movement, sign: int, k: Key)
    requires k.kind == Objective
    ensures Hits(AllEntries(m.Legs(), sign), k) == if m.objective == Some(k.id) then [m.amount * sign] else []
  {
    hide Hits, Entries;
    var a, b := m.Legs()[0], m.Legs()[1];
    AllEntriesTwo(a, b, sign);
    HitsAppend(Entries(a, sign), Entries(b, sign), k);
    EntriesHits(a, sign, k);
    EntriesHits(b, sign, k);
  }

  /** Taking legs back posts only downwards, cloning them only upwards, everything else once at most. */
  lemma LegDeltasDown(s: State, id: int, user: int, k: Key)
    requires Legs(s, id, user).Some? && NonNegative(s.records) && k.kind == Objective
    ensures forall d | d in LegDeltas(s, id, user, k) :: d <= 0
  {
    var legs := Legs(s, id, user).value;
    PickedNonNegative(s.records, legs);
    HitsSigned(Picked(s.records, legs), -1, k);
    assert forall d | d in LegDeltas(s, id, user, k) :: d * -1 >= 0;
  }

  lemma PickedNonNegative(rs: seq<Record>, sel: set<int>)
    requires NonNegative(rs)
    ensures NonNegative(Picked(rs, sel))
  {
    PickedIn(rs, sel);
  }

  lemma ClonedDeltasUp(s: State, c: Command, now: int, k: Key)
    requires c.CloneTransfer? && Do(s, c, now).Ok? && NonNegative(s.records) && ValidAmounts(c) && k.kind == Objective
    ensures forall d | d in Deltas(s, c, now, k) :: d >= 0
  {
    var legs := Legs(s, c.id, c.user).value;
    var originals := Picked(s.records, legs);
    PickedNonNegative(s.records, legs);
    assert Template(originals) in originals;
    var amount := if c.newAmount.Some? then c.newAmount.value else Template(originals).amount;
    var cloned := ClonedLegs(originals, c.user, s.groups, amount);
    HitsSigned(cloned, 1, k);
    assert forall d | d in Deltas(s, c, now, k) :: d * 1 >= 0;
  }

  lemma OtherDeltas(s: State, c: Command, now: int, k: Key)
    requires Do(s, c, now).Ok? && !IsDirectEdit(c) && !c.UpdateTransfer? && !c.CloneTransfer? && k.kind == Objective
    requires NonNegative(s.records)
    ensures |Deltas(s, c, now, k)| <= 1 || forall d | d in Deltas(s, c, now, k) :: d <= 0
  {
    hide PostAll, AllEntries, Net, Affordable, Hits, Posted;
    match c
    case CreateTransfer(user, source, toAccount, toLiability, amount, objective) =>
      PairHits(Movement(user, s.groups, source, toAccount, toLiability, amount, objective), 1, k);
    case SoftDelete(user, id) =>
      if s.records[id].group.Some? {
        LegDeltasDown(s, id, user, k);
      }
    case DeleteTransfer(user, id) => LegDeltasDown(s, id, user, k);
    case _ =>
  }

  /** A clone may post twice to an objective, so it is steady only if the objective had reached its target. */
  predicate MayClone(c: Command, row: Row)
    requires row.Goal?
  {
    c.CloneTransfer? ==> row.Reached()
  }

  lemma CommandIsSteady(s: State, c: Command, now: int, k: Key)
    requires Do(s, c, now).Ok? && !IsDirectEdit(c) && !c.UpdateTransfer?
    requires k in s.rows && s.rows[k].Goal? && k.kind == Objective
    requires NonNegative(s.records) && ValidAmounts(c) && MayClone(c, s.rows[k])
    requires k in Do(s, c, now).value.rows && Do(s, c, now).value.rows[k].Goal? && Do(s, c, now).value.rows[k].completed
    ensures Steady(s.rows[k].balance, s.rows[k].target, Deltas(s, c, now, k))
  {
    hide Deltas, Do;
    var row, ds := s.rows[k], Deltas(s, c, now, k);
    CommandRow(s, c, now, k);
    if c.CloneTransfer? {
      ClonedDeltasUp(s, c, now, k);
      UpIsSteady(row.balance, row.target, ds);
    } else {
      OtherDeltas(s, c, now, k);
      if |ds| == 1 {
        assert ds == [ds[0]];
        SingleRow(row, ds[0], now);
        OneIsSteady(row, ds[0], now);
      } else if |ds| > 1 {
        DownIsSteady(row, ds, now);
      }
    }
  }

  /**
   * An objective that is completed before and after a transaction, a transfer other than an
   * update, a payment or a payment removal keeps its completion date. A clone of a transfer
   * needs the objective to have reached its target, which a forced completion may lack.
   */
  lemma StampKept(s: State, c: Command, now: int, k: Key)
    requires Do(s, c, now).Ok? && !IsDirectEdit(c) && !c.UpdateTransfer?
    requires k in s.rows && s.rows[k].Goal? && k.kind == Objective && Stamped(s.rows)
    requires NonNegative(s.records) && ValidAmounts(c) && MayClone(c, s.rows[k])
    requires s.rows[k].completed
    ensures k in Do(s, c, now).value.rows && Do(s, c, now).value.rows[k].Goal?
    ensures var after := Do(s, c, now).value.rows[k];
      after.completed ==> after.completedAt == s.rows[k].completedAt
  {
    hide Deltas, Do, Steady;
    StampLaw(s, c, now, k);
    if Do(s, c, now).value.rows[k].completed {
      CommandIsSteady(s, c, now, k);
    }
  }

  /**
   * A transfer update takes the old amount back before it books the new one: an objective
   * that is completed before and after keeps its date exactly as far as the balance without
   * the transfer still reaches the target; otherwise the date is reset.
   */
  lemma TransferUpdateStamp(s: State, m: Movement, i: int, j: int, id: int, amount: int, now: int)
    requires m.Routed() && PairAt(s, m, i, j) && (id == i || id == j) && m.objective.Some?
    requires DoUpdateTransfer(s, m.user, id, Some(amount), None, now).Ok? && Stamped(s.rows)
    requires var k := Key(Objective, m.objective.value); k in s.rows && s.rows[k].Goal? && s.rows[k].completed
    ensures var k := Key(Objective, m.objective.value);
      var rows := DoUpdateTransfer(s, m.user, id, Some(amount), None, now).value.rows;
      && k in rows && rows[k].Goal?
      && rows[k].balance == s.rows[k].balance - m.amount + amount
      && (rows[k].completed <==> Reaches(rows[k].balance, s.rows[k].target))
      && (rows[k].completed ==>
            rows[k].completedAt ==
              if Reaches(s.rows[k].balance - m.amount, s.rows[k].target) then s.rows[k].completedAt else Some(now))
  {
    var k := Key(Objective, m.objective.value);
    var c := UpdateTransfer(m.user, id, Some(amount), None);
    UpdateDeltas(s, m, i, j, id, amount, now);
    CommandRow(s, c, now, k);
    StampLaw(s, c, now, k);
    TwoMoves(s.rows[k], -m.amount, amount, now);
  }

  lemma UpdateDeltas(s: State, m: Movement, i: int, j: int, id: int, amount: int, now: int)
    requires m.Routed() && PairAt(s, m, i, j) && (id == i || id == j) && m.objective.Some?
    requires DoUpdateTransfer(s, m.user, id, Some(amount), None, now).Ok?
    ensures Deltas(s, UpdateTransfer(m.user, id, Some(amount), None), now, Key(Objective, m.objective.value))
         == [-m.amount, amount]
  {
    hide Hits, AllEntries, PostAll;
    var k := Key(Objective, m.objective.value);
    var n := m.(amount := amount);
    PairLegs(s, m, i, j, id);
    assert Edited(m.Legs(), Retouch(Some(amount), None)) == n.Legs();
    HitsAppend(AllEntries(m.Legs(), -1), AllEntries(n.Legs(), 1), k);
    PairHits(m, -1, k);
    PairHits(n, 1, k);
  }

  lemma TwoMoves(row: Row, a: int, b: int, now: int)
    requires row.Goal?
    ensures var after := MoveAll(row, [a, b], now);
      after.Goal? && after.balance == row.balance + a + b && (after.completed <==> Reaches(row.balance + a + b, row.target))
    ensures Reaches(row.balance + a + b, row.target) ==>
      (Steady(row.balance, row.target, [a, b]) <==> Reaches(row.balance + a, row.target))
  {
    var mid := row.Moved(a, now);
    assert [a, b][1..] == [b];
    SingleRow(mid, b, now);
    assert MoveAll(row, [a, b], now) == MoveAll(mid, [b], now);
    assert [b][1..] == [];
    assert Steady(row.balance + a, row.target, [b]) <==> Reaches(row.balance + a + b, row.target);
  }

  // ---- Runs ------------------------------------------------------------------------------

  lemma RewrittenNonNegative(rs: seq<Record>, sel: set<int>, e: Edit)
    requires NonNegative(rs) && (e.Retouch? && e.amount.Some? ==> e.amount.value >= 0)
    ensures NonNegative(Rewritten(rs, sel, e))
  {
    forall r | r in Rewritten(rs, sel, e)
      ensures r.amount >= 0
    {
      var i :| 0 <= i < |rs| && Rewritten(rs, sel, e)[i] == r;
      assert rs[i] in rs;
    }
  }

  lemma ClonedNonNegative(s: State, c: Command, now: int)
    requires c.CloneTransfer? && Do(s, c, now).Ok? && NonNegative(s.records) && ValidAmounts(c)
    ensures NonNegative(Do(s, c, now).value.records)
  {
    hide PostAll, AllEntries, Legs, Rewritten, Picked;
    var legs := Legs(s, c.id, c.user).value;
    var originals := Picked(s.records, legs);
    PickedNonNegative(s.records, legs);
    assert Template(originals) in originals;
  }

  /** Validated amounts keep every stored amount non-negative. */
  lemma StepKeepsAmounts(s: State, c: Command, now: int)
    requires NonNegative(s.records) && ValidAmounts(c)
    ensures NonNegative(Step(s, c, now).records)
  {
    hide PostAll, AllEntries, Net, Affordable, Posted, Legs, Doomed, Picked, Rewritten;
    if Do(s, c, now).Ok? {
      match c
      case Update(user, id, p) => assert s.records[id] in s.records;
      case Clone(user, id, amount) => assert s.records[id] in s.records;
      case CloneTransfer(_, _, _) => ClonedNonNegative(s, c, now);
      case SoftDelete(user, id) =>
        if s.records[id].group.Some? {
          RewrittenNonNegative(s.records, Legs(s, id, user).value, Erase);
        } else {
          assert s.records[id] in s.records;
        }
      case SoftDeleteMany(user, ids) => RewrittenNonNegative(s.records, Doomed(s, user, ids), Erase);
      case DeleteTransfer(user, id) => RewrittenNonNegative(s.records, Legs(s, id, user).value, Erase);
      case UpdateTransfer(user, id, amount, objective) =>
        RewrittenNonNegative(s.records, Legs(s, id, user).value, Retouch(amount, objective));
      case _ =>
    }
  }

  /** A direct edit of this entity. */
  predicate Names(c: Command, k: Key) {
    match c
    case Open(key, _) => key == k
    case SetBalance(key, _) => key == k
    case EditGoal(_, id, _) => Key(Objective, id) == k
    case Close(key) => key == k
    case _ => false
  }

  lemma EditKeepsOthers(s: State, c: Command, now: int, k: Key)
    requires IsDirectEdit(c) && !Names(c, k) && k in s.rows
    ensures k in Step(s, c, now).rows && Step(s, c, now).rows[k] == s.rows[k]
  {
  }

  lemma StepKeepsStamped(s: State, c: Command, now: int)
    requires Stamped(s.rows)
    ensures Stamped(Step(s, c, now).rows)
  {
    if Do(s, c, now).Ok? && !IsDirectEdit(c) {
      CommandSettles(s, c, now);
    }
  }

  /** The call leaves the objective completed, and a transfer update does not dip below its target. */
  predicate StaysCompleted(s: State, call: Call, k: Key) {
    var c, now := call.command, call.now;
    && k in s.rows && s.rows[k].Goal? && ValidAmounts(c) && !Names(c, k) && MayClone(c, s.rows[k])
    && (c.UpdateTransfer? && Do(s, c, now).Ok? ==>
          Steady(s.rows[k].balance, s.rows[k].target, Deltas(s, c, now, k)))
    && var next := Step(s, c, now).rows; k in next && next[k].Goal? && next[k].completed
  }

  predicate AlwaysCompleted(s: State, calls: seq<Call>, k: Key)
    decreases |calls|
  {
    calls == [] ||
    (StaysCompleted(s, calls[0], k) && AlwaysCompleted(Step(s, calls[0].command, calls[0].now), calls[1..], k))
  }

  lemma StepKeepsStamp(s: State, call: Call, k: Key)
    requires NonNegative(s.records) && Stamped(s.rows) && k.kind == Objective
    requires StaysCompleted(s, call, k) && s.rows[k].completed
    ensures Step(s, call.command, call.now).rows[k].completedAt == s.rows[k].completedAt
  {
    hide Deltas, Steady, MayClone;
    var c, now := call.command, call.now;
    if Do(s, c, now).Ok? {
      if IsDirectEdit(c) {
        EditKeepsOthers(s, c, now, k);
      } else if c.UpdateTransfer? {
        StampLaw(s, c, now, k);
      } else {
        StampKept(s, c, now, k);
      }
    }
  }

  /** Over any run in which an objective stays completed, its completion date never changes. */
  lemma {:induction false} RunKeepsStamp(s: State, calls: seq<Call>, k: Key)
    requires NonNegative(s.records) && Stamped(s.rows) && k.kind == Objective
    requires k in s.rows && s.rows[k].Goal? && s.rows[k].completed && AlwaysCompleted(s, calls, k)
    ensures var end := Run(s, calls).rows;
      k in end && end[k].Goal? && end[k].completed && end[k].completedAt == s.rows[k].completedAt
    decreases |calls|
  {
    if calls != [] {
      hide StaysCompleted, Stamped, NonNegative;
      var c, now := calls[0].command, calls[0].now;
      StaysCompletedMeans(s, calls[0], k);
      StepKeepsStamp(s, calls[0], k);
      StepKeepsAmounts(s, c, now);
      StepKeepsStamped(s, c, now);
      RunKeepsStamp(Step(s, c, now), calls[1..], k);
    }
  }

  lemma StaysCompletedMeans(s: State, call: Call, k: Key)
    requires StaysCompleted(s, call, k)
    ensures var next := Step(s, call.command, call.now).rows;
      ValidAmounts(call.command) && k in next && next[k].Goal? && next[k].completed
  {
  }

  // ---- A reset date ----------------------------------------------------------------------

  /** What the first transfer of a ledger leaves when it goes from one account to another for an objective. */
  lemma FirstTransferRows(start: State, c: Command, m: Movement, k: Key, now: int)
    requires start.records == [] && c.CreateTransfer? && Do(start, c, now).Ok?
    requires m == Movement(c.user, start.groups, c.source, c.toAccount, c.toLiability, c.amount, c.objective)
    requires m.toAccount.Some? && m.toAccount != Some(m.source) && m.objective.Some? && k == Key(Objective, m.objective.value)
    requires m.Source() in start.rows && m.Target() in start.rows && k in start.rows
    ensures var s := Do(start, c, now).value;
      && m.Routed() && s.records == m.Legs() && PairAt(s, m, 0, 1)
      && m.Source() in s.rows && m.Target() in s.rows && k in s.rows
      && s.rows[m.Source()].balance == start.rows[m.Source()].balance - m.amount
      && s.rows[m.Target()].balance == start.rows[m.Target()].balance + m.amount
      && s.rows[k] == start.rows[k].Moved(m.amount, now)
  {
    hide PostAll, AllEntries, PairEntries;
    PairEntriesAre(m, 1);
    PostPair(start.rows, m, 1, now);
    PairDeltas(m);
  }

  lemma PairDeltas(m: Movement)
    requires m.Routed()
    ensures PairEntries(m, 1)[1].delta == if m.toAccount.Some? then m.amount else -m.amount
  {
  }

  /** Accounts of 100 and 0, an objective with target 50, and a transfer of 50 for it. */
  lemma OneGoal() returns (start: State, c: Command, m: Movement, k: Key)
    ensures start.records == [] && start.payments == [] && Stamped(start.rows) && c.CreateTransfer?
    ensures m == Movement(c.user, start.groups, c.source, c.toAccount, c.toLiability, c.amount, c.objective)
    ensures m.Routed() && m.toAccount.Some? && m.toAccount != Some(m.source) && m.amount == 50
    ensures m.objective.Some? && k == Key(Objective, m.objective.value) && m.Owned(start.rows)
    ensures m.Source() in start.rows && m.Target() in start.rows && k in start.rows
    ensures start.rows[m.Source()] == Plain(1, 100) && start.rows[m.Target()] == Plain(1, 0)
    ensures start.rows[k] == Goal(1, 0, Some(50), false, None)
  {
    k := Key(Objective, 3);
    start := State([], [], map[Key(Account, 1) := Plain(1, 100), Key(Account, 2) := Plain(1, 0),
                               k := Goal(1, 0, Some(50), false, None)], 0);
    c := CreateTransfer(1, 1, Some(2), None, 50, Some(3));
    m := Movement(1, 0, 1, Some(2), None, 50, Some(3));
  }

  /**
   * The transfer, made at time 0, completes the objective; raised to 60 at time 1 it leaves
   * the objective completed, with its date reset.
   */
  lemma TransferUpdateResetsDate()
    ensures exists start: State, c: Command, k: Key ::
      && start.records == [] && start.payments == [] && c.CreateTransfer? && Do(start, c, 0).Ok?
      && var s := Do(start, c, 0).value;
        && k in s.rows && s.rows[k].Goal? && s.rows[k].completed && s.rows[k].completedAt == Some(0)
        && DoUpdateTransfer(s, c.user, 0, Some(60), None, 1).Ok?
        && var after := DoUpdateTransfer(s, c.user, 0, Some(60), None, 1).value.rows;
          k in after && after[k].Goal? && after[k].completed && after[k].completedAt == Some(1)
  {
    var start, c, m, k := OneGoal();
    hide PairAt, DoUpdateTransfer, Stamped, Do;
    CreateAcceptedIff(start, c, 0);
    var s := Do(start, c, 0).value;
    FirstTransferRows(start, c, m, k, 0);
    CommandSettles(start, c, 0);
    PairUpdateAccepted(s, m, 60, 1);
    TransferUpdateStamp(s, m, 0, 1, 0, 60, 1);
  }

  /** The update of a pair of accounts is accepted when the balances on the way allow it. */
  lemma PairUpdateAccepted(s: State, m: Movement, amount: int, now: int)
    requires m.Routed() && m.toAccount.Some? && m.toAccount != Some(m.source) && PairAt(s, m, 0, 1)
    requires m.Source() in s.rows && m.Target() in s.rows && (m.objective.Some? ==> Key(Objective, m.objective.value) in s.rows)
    requires s.rows[m.Source()].balance + m.amount - amount >= 0 && s.rows[m.Source()].balance + m.amount >= 0
    requires s.rows[m.Target()].balance - m.amount >= 0 && s.rows[m.Target()].balance - m.amount + amount >= 0
    ensures DoUpdateTransfer(s, m.user, 0, Some(amount), None, now).Ok?
  {
    var n := m.(amount := amount);
    PairLegs(s, m, 0, 1, 0);
    assert Edited(m.Legs(), Retouch(Some(amount), None)) == n.Legs();
    PostAllAppend(s.rows, AllEntries(m.Legs(), -1), AllEntries(n.Legs(), 1), now);
    PairEntriesAre(m, -1);
    PairEntriesAre(n, 1);
    PostPair(s.rows, m, -1, now);
    var mid := PostAll(s.rows, AllEntries(m.Legs(), -1), now);
    assert mid.Some?;
    PostPair(mid.value, n, 1, now);
  }
}
