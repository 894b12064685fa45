/** What one committed command can and cannot do to accounts and to objective flags. */
module LedgerSafety {
  import opened Options
  import opened LedgerModel
  import opened LedgerSums
  import opened LedgerBooks
  import opened LedgerRuns

  // ---- What posting leaves behind --------------------------------------------------------

  /** A row the ledger wrote: accounts are not negative, goals carry flags that match their balance. */
  predicate Settled(k: Key, row: Row) {
    (k.kind == Account ==> row.balance >= 0) && (row.Goal? ==> row.Agrees())
  }

  /** The same rows of the same kinds, each one as before or settled. */
  predicate SettledOrSame(before: Table, after: Table) {
    && after.Keys == before.Keys
    && forall k | k in before ::
         after[k].Goal? == before[k].Goal? && (after[k] == before[k] || Settled(k, after[k]))
  }

  /** Completion dates are present exactly on completed goals. */
  predicate Stamped(rows: Table) {
    forall k | k in rows && rows[k].Goal? :: rows[k].completedAt.Some? == rows[k].completed
  }

  lemma {:induction false} PostAllSettles(rows: Table, es: seq<Entry>, now: int)
    requires PostAll(rows, es, now).Some? && Stamped(rows)
    ensures SettledOrSame(rows, PostAll(rows, es, now).value) && Stamped(PostAll(rows, es, now).value)
  {
    if es != [] {
      var next := Post(rows, es[0].key, es[0].delta, now).value;
      PostAllSettles(next, es[1..], now);
    }
  }

  lemma PostedSettles(rows: Table, minus: seq<Record>, plus: seq<Record>, now: int)
    requires Affordable(rows, minus, plus) && Stamped(rows)
    ensures SettledOrSame(rows, Posted(rows, minus, plus, now)) && Stamped(Posted(rows, minus, plus, now))
  {
  }

  /** A committed ledger command leaves every row as it was or settled, and dates in step with flags. */
  lemma CommandSettles(s: State, c: Command, now: int)
    requires Do(s, c, now).Ok? && !IsDirectEdit(c) && Stamped(s.rows)
    ensures SettledOrSame(s.rows, Do(s, c, now).value.rows) && Stamped(Do(s, c, now).value.rows)
  {
    match c
    case Create(user, draft) => PostedSettles(s.rows, [], [draft.ToRecord(user)], now);
    case CreateMany(user, drafts) =>
      if drafts != [] {
        PostedSettles(s.rows, [], ToRecords(user, drafts), now);
      }
    case Update(user, id, p) => PostedSettles(s.rows, [s.records[id]], [p.Apply(s.records[id])], now);
    case SoftDelete(user, id) =>
      if s.records[id].group.Some? {
        PostAllSettles(s.rows, AllEntries(Picked(s.records, Legs(s, id, user).value), -1), now);
      } else {
        PostedSettles(s.rows, [s.records[id]], [], now);
      }
    case SoftDeleteMany(user, ids) =>
      if ids != {} {
        PostedSettles(s.rows, Picked(s.records, Doomed(s, user, ids)), [], now);
      }
    case CreateTransfer(user, source, toAccount, toLiability, amount, objective) =>
      PostAllSettles(s.rows, AllEntries([OriginLeg(user, s.groups, source, amount),
        DestinationLeg(user, s.groups, toAccount, toLiability, amount, objective)], 1), now);
    case UpdateTransfer(user, id, amount, objective) =>
      var pair := Picked(s.records, Legs(s, id, user).value);
      PostAllSettles(s.rows, AllEntries(pair, -1) + AllEntries(Edited(pair, Retouch(amount, objective)), 1), now);
    case DeleteTransfer(user, id) =>
      PostAllSettles(s.rows, AllEntries(Picked(s.records, Legs(s, id, user).value), -1), now);
    case Clone(user, id, amount) =>
      var r := s.records[id];
      PostedSettles(s.rows, [], [r.(amount := if amount.Some? then amount.value else r.amount)], now);
    case CloneTransfer(user, id, amount) =>
      var originals := Picked(s.records, Legs(s, id, user).value);
      var a := if amount.Some? then amount.value else Template(originals).amount;
      PostAllSettles(s.rows, AllEntries(ClonedLegs(originals, user, s.groups, a), 1), now);
    case Pay(_, _, _) =>
    case RemovePayment(_, _) =>
  }

  // ---- Runs ------------------------------------------------------------------------------

  /** The table is typed, accounts are solvent and completion dates match completion flags. */
  predicate Sound(rows: Table) {
    && (forall k | k in rows :: rows[k].Goal? == (k.kind == Objective))
    && (forall k | k in rows && k.kind == Account :: rows[k].balance >= 0)
    && Stamped(rows)
  }

  /** Direct edits type a non-negative balance into accounts. */
  predicate SolventEdit(c: Command) {
    match c
    case Open(k, row) => k.kind == Account ==> row.balance >= 0
    case SetBalance(k, balance) => k.kind == Account ==> balance >= 0
    case _ => true
  }

  lemma EditKeepsSound(s: State, c: Command, now: int)
    requires Sound(s.rows) && SolventEdit(c) && IsDirectEdit(c)
    ensures Sound(Step(s, c, now).rows)
  {
  }

  lemma SettledIsSound(before: Table, after: Table)
    requires Sound(before) && SettledOrSame(before, after) && Stamped(after)
    ensures Sound(after)
  {
  }

  lemma StepKeepsSound(s: State, c: Command, now: int)
    requires Sound(s.rows) && SolventEdit(c)
    ensures Sound(Step(s, c, now).rows)
  {
    if IsDirectEdit(c) {
      EditKeepsSound(s, c, now);
    } else if Do(s, c, now).Ok? {
      CommandSettles(s, c, now);
      SettledIsSound(s.rows, Do(s, c, now).value.rows);
    }
  }

  /** No run, admissible or not, takes an account below zero or separates completion from its date. */
  lemma {:induction false} RunKeepsSound(s: State, calls: seq<Call>)
    requires Sound(s.rows) && forall call | call in calls :: SolventEdit(call.command)
    ensures Sound(Run(s, calls).rows)
    decreases |calls|
  {
    if calls != [] {
      StepKeepsSound(s, calls[0].command, calls[0].now);
      RunKeepsSound(Step(s, calls[0].command, calls[0].now), calls[1..]);
    }
  }

  // ---- Forced completion -----------------------------------------------------------------

  /**
   * A direct edit of an objective leaves its flag in line with its balance exactly when no
   * completion was forced, or the forced one says what the balance says; a flag and its
   * date stay together in any case.
   */
  lemma EditedGoalAgreesIff(g: Row, p: GoalPatch, now: int)
    requires g.Goal?
    ensures var e := EditedGoal(g, p, now);
      && e.Goal? && e.completedAt.Some? == e.completed
      && (e.Agrees() <==>
          (p.completed.None? && p.completedAt.None?) || (p.completed != Some(false)) == e.Reached())
  {
  }
}
