/**
 * The ledger as the repositories run it: tables updated in place, a net-delta map filled
 * and emptied by loops, and a database transaction that restores the tables when a
 * posting is refused. Every method is proved against the outcome on values.
 */
module LedgerStore {
  import opened Options
  import opened LedgerModel
  import opened LedgerSums
  import opened LedgerRuns

  /** The accumulated delta of a key that may not be in the map yet. */
  function At(net: map<Key, int>, k: Key): int {
    if k in net then net[k] else 0
  }

  predicate NetAffordable(rows: Table, net: map<Key, int>) {
    forall k | k in rows && k.kind == Account :: At(net, k) == 0 || rows[k].balance + At(net, k) >= 0
  }

  function NetPosted(rows: Table, net: map<Key, int>, now: int): Table {
    map k | k in rows :: if At(net, k) == 0 then rows[k] else rows[k].Moved(At(net, k), now)
  }

  /** What a caller sees of a finished command: the new tables and the error thrown, if any. */
  predicate Finished(before: State, c: Command, now: int, after: State, thrown: Option<Error>) {
    match Do(before, c, now)
    case Ok(next) => after == next && thrown.None?
    case Err(e) => after == before && thrown == Some(e)
  }

  /** A net-delta map that agrees with the link sums posts what the link sums say. */
  lemma NetIsPosted(rows: Table, net: map<Key, int>, minus: seq<Record>, plus: seq<Record>, now: int)
    requires forall k :: At(net, k) == Net(minus, plus, k)
    ensures NetAffordable(rows, net) <==> Affordable(rows, minus, plus)
    ensures NetPosted(rows, net, now) == Posted(rows, minus, plus, now)
  {
    if NetAffordable(rows, net) {
      forall k | k in rows && k.kind == Account
        ensures Net(minus, plus, k) == 0 || rows[k].balance + Net(minus, plus, k) >= 0
      {
        assert At(net, k) == 0 || rows[k].balance + At(net, k) >= 0;
      }
    }
    if Affordable(rows, minus, plus) {
      forall k | k in rows && k.kind == Account ensures At(net, k) == 0 || rows[k].balance + At(net, k) >= 0 {
        assert Net(minus, plus, k) == 0 || rows[k].balance + Net(minus, plus, k) >= 0;
      }
    }
  }

  /** Booking one more record of a selection. */
  lemma PickedPrefix(rs: seq<Record>, sel: set<int>, i: nat, k: Key)
    requires i < |rs|
    ensures LinkSum(Picked(rs[..i + 1], sel), k) ==
            LinkSum(Picked(rs[..i], sel), k) + if i in sel then LinkEffect(rs[i], k) else 0
  {
    assert rs[..i + 1][..i] == rs[..i];
    var sofar := Picked(rs[..i], sel);
    if i in sel {
      assert (sofar + [rs[i]])[..|sofar|] == sofar;
    } else {
      assert Picked(rs[..i + 1], sel) == sofar;
    }
  }

  class Repository {
    var records: seq<Record>
    var payments: seq<Payment>
    var rows: Table
    var groups: nat
    /** Opening value of every entity; only direct edits change it. */
    ghost var opening: map<Key, int>

    function Abs(): State
      reads this
    {
      State(records, payments, rows, groups)
    }

    /** The books are kept and the records are well shaped. */
    ghost predicate Kept()
      reads this
    {
      Books(Abs(), opening) && Shaped(Abs())
    }

    constructor ()
      ensures Abs() == State([], [], map[], 0) && Kept()
    {
      records, payments, rows, groups := [], [], map[], 0;
      opening := map[];
    }

    /** Roll the tables back to the start of the transaction. */
    method Rollback(start: State)
      modifies this
      ensures Abs() == start && opening == old(opening)
    {
      records, payments, rows, groups := start.records, start.payments, start.rows, start.groups;
    }

    /** `applyToEntity`. */
    method ApplyToEntity(k: Key, delta: int, now: int) returns (ok: bool)
      modifies this`rows
      ensures Post(old(rows), k, delta, now) == if ok then Some(rows) else None
    {
      if k !in rows {
        return true;
      }
      var row := rows[k];
      if k.kind == Account && row.balance + delta < 0 {
        return false;
      }
      rows := rows[k := row.Moved(delta, now)];
      return true;
    }

    /** `collectContributions`: one pass over the four link kinds. */
    method CollectContributions(tx: Record, sign: int, net: map<Key, int>) returns (out: map<Key, int>)
      ensures forall k :: At(out, k) == At(net, k) + sign * LinkEffect(tx, k)
    {
      out := net;
      var kinds := [Objective, Account, Asset, Liability];
      for n := 0 to |kinds|
        invariant forall k :: At(out, k) == At(net, k) + if k.kind in kinds[..n] then sign * LinkEffect(tx, k) else 0
      {
        var link := tx.Link(kinds[n]);
        if link.Some? {
          var key := Key(kinds[n], link.value);
          out := out[key := At(out, key) + sign * Contribution(tx.kind, tx.amount, kinds[n])];
        }
        assert kinds[..n + 1] == kinds[..n] + [kinds[n]];
      }
      assert kinds[..|kinds|] == kinds;
      forall k: Key ensures k.kind in kinds {
        match k.kind
        case Objective => assert kinds[0] == k.kind;
        case Account => assert kinds[1] == k.kind;
        case Asset => assert kinds[2] == k.kind;
        case Liability => assert kinds[3] == k.kind;
      }
    }

    /** Post every non-zero net delta, in whatever order the map yields its keys. */
    method ApplyNet(net: map<Key, int>, now: int) returns (ok: bool)
      modifies this`rows
      ensures ok <==> NetAffordable(old(rows), net)
      ensures ok ==> rows == NetPosted(old(rows), net, now)
    {
      var todo := net.Keys;
      while todo != {}
        invariant todo <= net.Keys && rows.Keys == old(rows).Keys
        invariant forall k | k in rows ::
                    rows[k] == if k in todo || At(net, k) == 0 then old(rows)[k] else old(rows)[k].Moved(net[k], now)
        invariant forall k | k in rows && k.kind == Account && k !in todo ::
                    At(net, k) == 0 || old(rows)[k].balance + At(net, k) >= 0
        decreases todo
      {
        var k :| k in todo;
        todo := todo - {k};
        if net[k] != 0 {
          ok := ApplyToEntity(k, net[k], now);
          if !ok {
            return false;
          }
        }
      }
      return true;
    }

    /** `applyLinkAdjustments`. */
    method ApplyLinkAdjustments(minus: Option<Record>, plus: Option<Record>, now: int) returns (ok: bool)
      modifies this`rows
      ensures var gone, come := if minus.Some? then [minus.value] else [], if plus.Some? then [plus.value] else [];
              && (ok <==> Affordable(old(rows), gone, come))
              && (ok ==> rows == Posted(old(rows), gone, come, now))
    {
      ghost var gone := if minus.Some? then [minus.value] else [];
      ghost var come := if plus.Some? then [plus.value] else [];
      var net: map<Key, int> := map[];
      if minus.Some? {
        net := CollectContributions(minus.value, -1, net);
        assert gone[..0] == [];
      }
      if plus.Some? {
        net := CollectContributions(plus.value, 1, net);
        assert come[..0] == [];
      }
      NetIsPosted(rows, net, gone, come, now);
      ok := ApplyNet(net, now);
    }

    /** `applyTransferAdjustment`: up to four postings, stopping at a refusal. */
    method ApplyTransferAdjustment(tx: Record, sign: int, now: int) returns (ok: bool)
      modifies this`rows
      ensures PostAll(old(rows), Entries(tx, sign), now) == if ok then Some(rows) else None
    {
      var es := Entries(tx, sign);
      ok := PostEntries(es, now);
    }

    method PostEntries(es: seq<Entry>, now: int) returns (ok: bool)
      modifies this`rows
      ensures PostAll(old(rows), es, now) == if ok then Some(rows) else None
    {
      for n := 0 to |es|
        invariant PostAll(rows, es[n..], now) == PostAll(old(rows), es, now)
      {
        assert es[n..][0] == es[n] && es[n..][1..] == es[n + 1..];
        ok := ApplyToEntity(es[n].key, es[n].delta, now);
        if !ok {
          return false;
        }
      }
      return true;
    }

    /** The adjustment of every leg of a list, in order. */
    method AdjustLegs(legs: seq<Record>, sign: int, now: int) returns (ok: bool)
      modifies this`rows
      ensures PostAll(old(rows), AllEntries(legs, sign), now) == if ok then Some(rows) else None
    {
      hide PostAll, Entries;
      NothingPosted(rows, now);
      for n := 0 to |legs|
        invariant PostAll(old(rows), AllEntries(legs[..n], sign), now) == Some(rows)
      {
        assert legs[..n + 1][..n] == legs[..n];
        PostAllAppend(old(rows), AllEntries(legs[..n], sign), Entries(legs[n], sign), now);
        ok := ApplyTransferAdjustment(legs[n], sign, now);
        if !ok {
          AllEntriesAppend(legs[..n + 1], legs[n + 1..], sign);
          assert legs[..n + 1] + legs[n + 1..] == legs;
          PostAllAppend(old(rows), AllEntries(legs[..n + 1], sign), AllEntries(legs[n + 1..], sign), now);
          return false;
        }
      }
      assert legs[..|legs|] == legs;
      return true;
    }

    /** Save an edit on every selected record. */
    method SaveEdits(sel: set<int>, e: Edit)
      modifies this`records
      ensures records == Rewritten(old(records), sel, e)
    {
      for i := 0 to |records|
        invariant |records| == |old(records)|
        invariant forall j | 0 <= j < |records| ::
                    records[j] == if j < i && j in sel then e.Apply(old(records)[j]) else old(records)[j]
      {
        if i in sel {
          records := records[i := e.Apply(records[i])];
        }
      }
    }

    // ---- Repository methods --------------------------------------------------------------

    method Create(user: int, draft: Draft, now: int) returns (thrown: Option<Error>)
      modifies this
      ensures Finished(old(Abs()), Command.Create(user, draft), now, Abs(), thrown) && opening == old(opening)
      ensures old(Kept()) ==> Kept()
    {
      ghost var c := Command.Create(user, draft);
      ghost var before := Abs();
      thrown := AppendLinked([draft.ToRecord(user)], now);
      if old(Kept()) {
        StepKeepsBooks(before, c, now, opening);
        ShapeKept(before, c, now);
      }
    }

    /** Save records and post their aggregated net deltas. */
    method AppendLinked(rs: seq<Record>, now: int) returns (thrown: Option<Error>)
      modifies this
      ensures opening == old(opening)
      ensures match AddRecords(old(Abs()), rs, now)
              case Ok(next) => Abs() == next && thrown.None?
              case Err(e) => Abs() == old(Abs()) && thrown == Some(e)
    {
      var start := Abs();
      records := records + rs;
      var net: map<Key, int> := map[];
      for n := 0 to |rs|
        modifies {}
        invariant forall k :: At(net, k) == LinkSum(rs[..n], k)
      {
        assert rs[..n + 1][..n] == rs[..n];
        net := CollectContributions(rs[n], 1, net);
      }
      assert rs[..|rs|] == rs;
      NetIsPosted(rows, net, [], rs, now);
      var ok := ApplyNet(net, now);
      if !ok {
        Rollback(start);
        return Some(NegativeBalance);
      }
      return None;
    }

    method CreateMany(user: int, drafts: seq<Draft>, now: int) returns (thrown: Option<Error>)
      modifies this
      ensures Finished(old(Abs()), Command.CreateMany(user, drafts), now, Abs(), thrown) && opening == old(opening)
      ensures old(Kept()) ==> Kept()
    {
      ghost var c := Command.CreateMany(user, drafts);
      ghost var before := Abs();
      if drafts == [] {
        return None;
      }
      var rs: seq<Record> := [];
      for n := 0 to |drafts|
        modifies {}
        invariant rs == ToRecords(user, drafts[..n])
      {
        rs := rs + [drafts[n].ToRecord(user)];
      }
      assert drafts[..|drafts|] == drafts;
      thrown := AppendLinked(rs, now);
      if old(Kept()) {
        StepKeepsBooks(before, c, now, opening);
        ShapeKept(before, c, now);
      }
    }

    method Update(user: int, id: int, patch: Patch, now: int) returns (thrown: Option<Error>)
      modifies this
      ensures Finished(old(Abs()), Command.Update(user, id, patch), now, Abs(), thrown) && opening == old(opening)
      ensures old(Kept() && Admissible(Abs(), Command.Update(user, id, patch))) ==> Kept()
    {
      ghost var c := Command.Update(user, id, patch);
      var start := Abs();
      if !Mine(start, id, user) {
        return Some(NotFound);
      }
      var previous := records[id];
      var merged := patch.Apply(previous);
      records := records[id := merged];
      var ok := ApplyLinkAdjustments(Some(previous), Some(merged), now);
      if !ok {
        Rollback(start);
        return Some(NegativeBalance);
      }
      if old(Kept() && Admissible(Abs(), c)) {
        StepKeepsBooks(start, c, now, opening);
        ShapeKept(start, c, now);
      }
      return None;
    }

    method SoftDelete(user: int, id: int, now: int) returns (thrown: Option<Error>)
      modifies this
      ensures Finished(old(Abs()), Command.SoftDelete(user, id), now, Abs(), thrown) && opening == old(opening)
      ensures old(Kept()) ==> Kept()
    {
      ghost var c := Command.SoftDelete(user, id);
      var start := Abs();
      if !Mine(start, id, user) {
        return Some(NotFound);
      }
      var record := records[id];
      if record.group.Some? {
        thrown := DeleteTransfer(user, id, now);
      } else {
        records := records[id := Erase.Apply(record)];
        var ok := ApplyLinkAdjustments(Some(record), None, now);
        if !ok {
          Rollback(start);
          return Some(NegativeBalance);
        }
        thrown := None;
      }
      if old(Kept()) {
        StepKeepsBooks(start, c, now, opening);
        ShapeKept(start, c, now);
      }
    }

    /** The net delta of taking back every selected record. */
    method CollectReversal(doomed: set<int>) returns (net: map<Key, int>)
      ensures forall k :: At(net, k) == -LinkSum(Picked(records, doomed), k)
    {
      net := map[];
      for i := 0 to |records|
        modifies {}
        invariant forall k :: At(net, k) == -LinkSum(Picked(records[..i], doomed), k)
      {
        if i in doomed {
          net := CollectContributions(records[i], -1, net);
        }
        forall k {
          PickedPrefix(records, doomed, i, k);
        }
      }
      assert records[..|records|] == records;
    }

    method SoftDeleteMany(user: int, ids: set<int>, now: int) returns (thrown: Option<Error>)
      modifies this
      ensures Finished(old(Abs()), Command.SoftDeleteMany(user, ids), now, Abs(), thrown) && opening == old(opening)
      ensures old(Kept() && Admissible(Abs(), Command.SoftDeleteMany(user, ids))) ==> Kept()
    {
      ghost var c := Command.SoftDeleteMany(user, ids);
      var start := Abs();
      if ids == {} {
        return None;
      }
      var doomed := Selected(start, user, ids);
      if doomed == {} {
        return Some(NotFound);
      }
      var touched := TouchedGroups(start, user, ids);
      if touched != {} {
        doomed := Siblings(records, user, touched);
      }
      LegsTouchGroups(start, user, ids);
      var net := CollectReversal(doomed);
      SaveEdits(doomed, Erase);
      NetIsPosted(rows, net, Picked(start.records, doomed), [], now);
      var ok := ApplyNet(net, now);
      if !ok {
        Rollback(start);
        return Some(NegativeBalance);
      }
      if old(Kept() && Admissible(Abs(), c)) {
        StepKeepsBooks(start, c, now, opening);
        ShapeKept(start, c, now);
      }
      return None;
    }

    method CreateTransfer(user: int, source: int, toAccount: Option<int>, toLiability: Option<int>,
                          amount: int, objective: Option<int>, now: int) returns (thrown: Option<Error>)
      modifies this
      ensures Finished(old(Abs()), Command.CreateTransfer(user, source, toAccount, toLiability, amount, objective),
                       now, Abs(), thrown) && opening == old(opening)
      ensures old(Kept()) ==> Kept()
    {
      ghost var c := Command.CreateTransfer(user, source, toAccount, toLiability, amount, objective);
      ghost var before := Abs();
      if toAccount.None? && toLiability.None? {
        return Some(DestinationRequired);
      }
      if toAccount.Some? && toLiability.Some? {
        return Some(InvalidDestination);
      }
      if !Owns(rows, user, Key(Account, source)) {
        return Some(NotFound);
      }
      if toAccount.Some? {
        if !Owns(rows, user, Key(Account, toAccount.value)) {
          return Some(NotFound);
        }
      } else if !Owns(rows, user, Key(Liability, toLiability.value)) {
        return Some(NotFound);
      }
      var origin := OriginLeg(user, groups, source, amount);
      var destination := DestinationLeg(user, groups, toAccount, toLiability, amount, objective);
      thrown := AppendLegs([origin, destination], now);
      if old(Kept()) {
        StepKeepsBooks(before, c, now, opening);
        ShapeKept(before, c, now);
      }
    }

    /** Save the legs of a fresh group and post their adjustments one after the other. */
    method AppendLegs(legs: seq<Record>, now: int) returns (thrown: Option<Error>)
      modifies this
      ensures opening == old(opening)
      ensures match AddLegs(old(Abs()), legs, now)
              case Ok(next) => Abs() == next && thrown.None?
              case Err(e) => Abs() == old(Abs()) && thrown == Some(e)
    {
      var start := Abs();
      records, groups := records + legs, groups + 1;
      var ok := AdjustLegs(legs, 1, now);
      if !ok {
        Rollback(start);
        return Some(NegativeBalance);
      }
      return None;
    }

    method UpdateTransfer(user: int, id: int, newAmount: Option<int>, newObjective: Option<Option<int>>, now: int)
      returns (thrown: Option<Error>)
      modifies this
      ensures Finished(old(Abs()), Command.UpdateTransfer(user, id, newAmount, newObjective), now, Abs(), thrown)
      ensures opening == old(opening)
      ensures old(Kept() && Admissible(Abs(), Command.UpdateTransfer(user, id, newAmount, newObjective))) ==> Kept()
    {
      ghost var c := Command.UpdateTransfer(user, id, newAmount, newObjective);
      var start := Abs();
      var legs := Legs(start, id, user);
      if legs.None? {
        return Some(NotFound);
      }
      var pair := Picked(records, legs.value);
      var e := Retouch(newAmount, newObjective);
      PostAllAppend(rows, AllEntries(pair, -1), AllEntries(Edited(pair, e), 1), now);
      var ok := AdjustLegs(pair, -1, now);
      if !ok {
        Rollback(start);
        return Some(NegativeBalance);
      }
      SaveEdits(legs.value, e);
      ok := AdjustLegs(Edited(pair, e), 1, now);
      if !ok {
        Rollback(start);
        return Some(NegativeBalance);
      }
      if old(Kept() && Admissible(Abs(), c)) {
        StepKeepsBooks(start, c, now, opening);
        ShapeKept(start, c, now);
      }
      return None;
    }

    method DeleteTransfer(user: int, id: int, now: int) returns (thrown: Option<Error>)
      modifies this
      ensures Finished(old(Abs()), Command.DeleteTransfer(user, id), now, Abs(), thrown) && opening == old(opening)
      ensures old(Kept() && Admissible(Abs(), Command.DeleteTransfer(user, id))) ==> Kept()
    {
      ghost var c := Command.DeleteTransfer(user, id);
      var start := Abs();
      var legs := Legs(start, id, user);
      if legs.None? {
        return Some(NotFound);
      }
      var ok := AdjustLegs(Picked(records, legs.value), -1, now);
      if !ok {
        Rollback(start);
        return Some(NegativeBalance);
      }
      SaveEdits(legs.value, Erase);
      if old(Kept() && Admissible(Abs(), c)) {
        StepKeepsBooks(start, c, now, opening);
        ShapeKept(start, c, now);
      }
      return None;
    }

    method Clone(user: int, id: int, newAmount: Option<int>, now: int) returns (thrown: Option<Error>)
      modifies this
      ensures Finished(old(Abs()), Command.Clone(user, id, newAmount), now, Abs(), thrown) && opening == old(opening)
      ensures old(Kept()) ==> Kept()
    {
      ghost var c := Command.Clone(user, id, newAmount);
      var start := Abs();
      if !Mine(start, id, user) {
        return Some(NotFound);
      }
      var original := records[id];
      if original.group.Some? {
        return Some(CloneOfTransfer);
      }
      var cloned := original;
      if newAmount.Some? {
        cloned := cloned.(amount := newAmount.value);
      }
      thrown := AppendLinked([cloned], now);
      if old(Kept()) {
        StepKeepsBooks(start, c, now, opening);
        ShapeKept(start, c, now);
      }
    }

    method CloneTransfer(user: int, id: int, newAmount: Option<int>, now: int) returns (thrown: Option<Error>)
      modifies this
      ensures Finished(old(Abs()), Command.CloneTransfer(user, id, newAmount), now, Abs(), thrown)
      ensures opening == old(opening)
      ensures old(Kept()) ==> Kept()
    {
      ghost var c := Command.CloneTransfer(user, id, newAmount);
      var start := Abs();
      var legs := Legs(start, id, user);
      if legs.None? {
        return Some(NotFound);
      }
      var originals := Picked(records, legs.value);
      if originals == [] {
        return Some(NotFound);
      }
      var amount := if newAmount.Some? then newAmount.value else Template(originals).amount;
      var cloned: seq<Record> := [];
      for n := 0 to |originals|
        modifies {}
        invariant cloned == ClonedLegs(originals[..n], user, groups, amount)
      {
        cloned := cloned + [ClonedLeg(originals[n], user, groups, amount)];
      }
      assert originals[..|originals|] == originals;
      thrown := AppendLegs(cloned, now);
      if old(Kept()) {
        StepKeepsBooks(start, c, now, opening);
        ShapeKept(start, c, now);
      }
    }

    /** `ObjectivePaymentRepository.create`. */
    method Pay(user: int, objective: int, amount: int, now: int) returns (thrown: Option<Error>)
      modifies this
      ensures Finished(old(Abs()), Command.Pay(user, objective, amount), now, Abs(), thrown) && opening == old(opening)
      ensures old(Kept()) ==> Kept()
    {
      ghost var c := Command.Pay(user, objective, amount);
      ghost var before := Abs();
      var k := Key(Objective, objective);
      if !Owns(rows, user, k) {
        return Some(NotFound);
      }
      payments := payments + [Payment(user, objective, amount, false)];
      rows := rows[k := rows[k].Moved(amount, now)];
      if old(Kept()) {
        StepKeepsBooks(before, c, now, opening);
        ShapeKept(before, c, now);
      }
      return None;
    }

    /** `ObjectivePaymentRepository.remove`. */
    method RemovePayment(user: int, id: int, now: int) returns (thrown: Option<Error>)
      modifies this
      ensures Finished(old(Abs()), Command.RemovePayment(user, id), now, Abs(), thrown) && opening == old(opening)
      ensures old(Kept()) ==> Kept()
    {
      ghost var c := Command.RemovePayment(user, id);
      ghost var before := Abs();
      if !(0 <= id < |payments|) || payments[id].deleted || payments[id].user != user {
        return Some(NotFound);
      }
      var payment := payments[id];
      payments := payments[id := payment.(deleted := true)];
      var k := Key(Objective, payment.objective);
      if k in rows {
        rows := rows[k := rows[k].Moved(-payment.amount, now)];
      }
      if old(Kept()) {
        StepKeepsBooks(before, c, now, opening);
        ShapeKept(before, c, now);
      }
      return None;
    }

    /** `FinancialObjectiveRepository.update`; the objective starts a new opening value. */
    method EditGoal(user: int, id: int, p: GoalPatch, now: int) returns (thrown: Option<Error>)
      modifies this
      ensures Finished(old(Abs()), Command.EditGoal(user, id, p), now, Abs(), thrown)
      ensures opening == OpeningAfter(old(Abs()), Command.EditGoal(user, id, p), now, old(opening))
      ensures old(Kept()) ==> Kept()
    {
      ghost var c := Command.EditGoal(user, id, p);
      ghost var before := Abs();
      var k := Key(Objective, id);
      if !Owns(rows, user, k) || !rows[k].Goal? {
        return Some(NotFound);
      }
      rows := rows[k := EditedGoal(rows[k], p, now)];
      opening := OpeningAfter(before, c, now, opening);
      if old(Kept()) {
        StepKeepsBooks(before, c, now, old(opening));
        ShapeKept(before, c, now);
      }
      return None;
    }
  }

  lemma LegsTouchGroups(s: State, user: int, ids: set<int>)
    ensures TouchedGroups(s, user, ids) != {} <==> SelectsLeg(s, user, ids)
  {
    if SelectsLeg(s, user, ids) {
      var i :| i in Selected(s, user, ids) && s.records[i].group.Some?;
      assert s.records[i].group.value in TouchedGroups(s, user, ids);
    }
  }

  lemma NothingPosted(rows: Table, now: int)
    ensures PostAll(rows, [], now) == Some(rows)
  {
  }

  lemma {:induction false} AllEntriesAppend(a: seq<Record>, b: seq<Record>, sign: int)
    ensures AllEntries(a + b, sign) == AllEntries(a, sign) + AllEntries(b, sign)
  {
    hide Entries;
    if b == [] {
      assert a + b == a;
    } else {
      var init, last := b[..|b| - 1], b[|b| - 1];
      assert (a + b)[..|a + b| - 1] == a + init;
      AllEntriesAppend(a, init, sign);
      assert AllEntries(a + b, sign) == AllEntries(a, sign) + AllEntries(init, sign) + Entries(last, sign);
    }
  }
}
