/** Batch creation against creating the same records one after the other. */
module LedgerBatch {
  import opened Options
  import opened LedgerModel
  import opened LedgerSums

  /** `create` called on each record in turn; the first refusal stops. */
  function InTurn(s: State, rs: seq<Record>, now: int): Result<State, Error>
    decreases |rs|
  {
    if rs == [] then Ok(s)
    else
      match AddRecords(s, [rs[0]], now)
      case Err(e) => Err(e)
      case Ok(next) => InTurn(next, rs[1..], now)
  }

  predicate Touched(rs: seq<Record>, k: Key) {
    exists r :: r in rs && LinkEffect(r, k) != 0
  }

  lemma LinkSumHead(rs: seq<Record>, k: Key)
    requires rs != []
    ensures LinkSum(rs, k) == LinkEffect(rs[0], k) + LinkSum(rs[1..], k)
    ensures Net([], [rs[0]], k) == LinkEffect(rs[0], k)
  {
    assert rs == [rs[0]] + rs[1..];
    SumsOfOne(rs[0], k);
    LinkSumAppend([rs[0]], rs[1..], k);
  }

  lemma {:induction false} UntouchedSum(rs: seq<Record>, k: Key)
    requires !Touched(rs, k)
    ensures LinkSum(rs, k) == 0
  {
    if rs != [] {
      assert forall r | r in rs[..|rs| - 1] :: r in rs;
      UntouchedSum(rs[..|rs| - 1], k);
    }
  }

  lemma TouchedHead(rs: seq<Record>, k: Key)
    requires rs != []
    ensures Touched(rs, k) <==> LinkEffect(rs[0], k) != 0 || Touched(rs[1..], k)
  {
    assert rs == [rs[0]] + rs[1..];
  }

  /** One created record moves exactly the rows it links to. */
  lemma AddOneRow(s: State, r: Record, now: int, k: Key)
    requires AddRecords(s, [r], now).Ok? && k in s.rows
    ensures var next, d := AddRecords(s, [r], now).value, LinkEffect(r, k);
            && k in next.rows && next.rows[k] == (if d == 0 then s.rows[k] else s.rows[k].Moved(d, now))
            && (d != 0 && k.kind == Account ==> next.rows[k].balance >= 0)
  {
    LinkSumHead([r], k);
  }

  /** Where one-by-one creation ends: every table but the balance rows. */
  lemma {:induction false} InTurnTables(s: State, rs: seq<Record>, now: int)
    requires InTurn(s, rs, now).Ok?
    ensures var end := InTurn(s, rs, now).value;
            end.records == s.records + rs && end.payments == s.payments && end.groups == s.groups
            && end.rows.Keys == s.rows.Keys
    decreases |rs|
  {
    if rs != [] {
      InTurnTables(AddRecords(s, [rs[0]], now).value, rs[1..], now);
      assert s.records + [rs[0]] + rs[1..] == s.records + rs;
    } else {
      assert s.records + rs == s.records;
    }
  }

  /** A row at the end of one-by-one creation, seen from the row and the records that touch it. */
  predicate RowAfter(before: Row, after: Row, rs: seq<Record>, k: Key) {
    && after.Goal? == before.Goal?
    && (after.Goal? ==> after.target == before.target)
    && after.balance == before.balance + LinkSum(rs, k)
    && (!Touched(rs, k) ==> after == before)
    && (Touched(rs, k) && k.kind == Account ==> after.balance >= 0)
    && (Touched(rs, k) && after.Goal? ==> after.completed == after.Reached())
  }

  lemma {:induction false} InTurnRow(s: State, rs: seq<Record>, now: int, k: Key)
    requires InTurn(s, rs, now).Ok? && k in s.rows
    ensures k in InTurn(s, rs, now).value.rows
    ensures RowAfter(s.rows[k], InTurn(s, rs, now).value.rows[k], rs, k)
    decreases |rs|
  {
    if rs != [] {
      var next := AddRecords(s, [rs[0]], now).value;
      AddOneRow(s, rs[0], now, k);
      LinkSumHead(rs, k);
      TouchedHead(rs, k);
      InTurnRow(next, rs[1..], now, k);
    }
  }

  lemma InTurnBalance(s: State, rs: seq<Record>, now: int, k: Key)
    requires InTurn(s, rs, now).Ok? && k in s.rows
    ensures var rows := InTurn(s, rs, now).value.rows;
      && k in rows && rows[k].balance == s.rows[k].balance + LinkSum(rs, k)
      && (k.kind == Account && LinkSum(rs, k) != 0 ==> rows[k].balance >= 0)
  {
    hide InTurn, LinkSum;
    InTurnRow(s, rs, now, k);
    if !Touched(rs, k) {
      UntouchedSum(rs, k);
    }
  }

  /**
   * A batch that succeeds one by one succeeds as a batch, with the same records and the
   * same balances.
   */
  lemma BatchMatchesInTurn(s: State, rs: seq<Record>, now: int)
    requires InTurn(s, rs, now).Ok?
    ensures AddRecords(s, rs, now).Ok?
    ensures var batch, turn := AddRecords(s, rs, now).value, InTurn(s, rs, now).value;
            && batch.records == turn.records && batch.rows.Keys == turn.rows.Keys == s.rows.Keys
            && forall k | k in s.rows :: batch.rows[k].balance == turn.rows[k].balance
  {
    hide InTurn;
    var turn := InTurn(s, rs, now).value;
    InTurnTables(s, rs, now);
    forall k | k in s.rows
      ensures turn.rows[k].balance == s.rows[k].balance + Net([], rs, k)
      ensures k.kind == Account && Net([], rs, k) != 0 ==> turn.rows[k].balance >= 0
    {
      InTurnBalance(s, rs, now, k);
    }
  }

  /**
   * The completion flag of a goal is the same both ways exactly when the batch moves it,
   * no record touches it, or its flag already matched its balance: a batch that nets to
   * zero does not re-evaluate the goal.
   */
  lemma BatchFlagsMatchIff(s: State, rs: seq<Record>, now: int, k: Key)
    requires InTurn(s, rs, now).Ok? && AddRecords(s, rs, now).Ok? && k in s.rows && s.rows[k].Goal?
    ensures var batch, turn := AddRecords(s, rs, now).value.rows, InTurn(s, rs, now).value.rows;
            && k in batch && k in turn && batch[k].Goal? && turn[k].Goal?
            && (batch[k].completed == turn[k].completed <==>
                LinkSum(rs, k) != 0 || !Touched(rs, k) || s.rows[k].completed == s.rows[k].Reached())
  {
    InTurnRow(s, rs, now, k);
    if !Touched(rs, k) {
      UntouchedSum(rs, k);
    }
  }

  /** One-by-one creation is accepted exactly when no prefix leaves a touched account below zero. */
  predicate PrefixesAffordable(rows: Table, rs: seq<Record>) {
    forall k, n | k in rows && k.kind == Account && 0 < n <= |rs| ::
      LinkEffect(rs[n - 1], k) == 0 || rows[k].balance + LinkSum(rs[..n], k) >= 0
  }

  lemma {:induction false} InTurnAcceptedIff(s: State, rs: seq<Record>, now: int)
    ensures InTurn(s, rs, now).Ok? <==> PrefixesAffordable(s.rows, rs)
    decreases |rs|
  {
    if rs != [] {
      var head, tail := rs[0], rs[1..];
      forall k ensures Net([], [head], k) == LinkEffect(head, k) == LinkSum(rs[..1], k) {
        LinkSumHead(rs, k);
        assert rs[..1] == [head];
      }
      if Affordable(s.rows, [], [head]) {
        var next := AddRecords(s, [head], now).value;
        InTurnAcceptedIff(next, tail, now);
        forall k, n | k in s.rows && k.kind == Account && 0 < n <= |tail|
          ensures s.rows[k].balance + LinkSum(rs[..n + 1], k) == next.rows[k].balance + LinkSum(tail[..n], k)
        {
          LinkSumHead(rs[..n + 1], k);
          assert rs[..n + 1][1..] == tail[..n];
        }
        PrefixShift(s.rows, next.rows, rs);
      } else {
        var k :| k in s.rows && k.kind == Account && Net([], [head], k) != 0 && s.rows[k].balance + Net([], [head], k) < 0;
        assert LinkEffect(rs[1 - 1], k) != 0 && s.rows[k].balance + LinkSum(rs[..1], k) < 0;
      }
    }
  }

  /** Prefixes of the tail seen from the rows after the head are the longer prefixes of the whole. */
  lemma PrefixShift(rows: Table, next: Table, rs: seq<Record>)
    requires rs != [] && rows.Keys == next.Keys
    requires forall k, n | k in rows && k.kind == Account && 0 < n <= |rs[1..]| ::
               rows[k].balance + LinkSum(rs[..n + 1], k) == next[k].balance + LinkSum(rs[1..][..n], k)
    requires forall k | k in rows && k.kind == Account ::
               LinkEffect(rs[0], k) == 0 || rows[k].balance + LinkSum(rs[..1], k) >= 0
    ensures PrefixesAffordable(rows, rs) <==> PrefixesAffordable(next, rs[1..])
  {
    var tail := rs[1..];
    if PrefixesAffordable(next, tail) {
      forall k, n | k in rows && k.kind == Account && 0 < n <= |rs|
        ensures LinkEffect(rs[n - 1], k) == 0 || rows[k].balance + LinkSum(rs[..n], k) >= 0
      {
        if n > 1 {
          assert tail[(n - 1) - 1] == rs[n - 1];
          assert LinkEffect(tail[(n - 1) - 1], k) == 0 || next[k].balance + LinkSum(tail[..n - 1], k) >= 0;
        }
      }
    }
    if PrefixesAffordable(rows, rs) {
      forall k, n | k in next && k.kind == Account && 0 < n <= |tail|
        ensures LinkEffect(tail[n - 1], k) == 0 || next[k].balance + LinkSum(tail[..n], k) >= 0
      {
        assert tail[n - 1] == rs[(n + 1) - 1];
        assert LinkEffect(rs[(n + 1) - 1], k) == 0 || rows[k].balance + LinkSum(rs[..n + 1], k) >= 0;
      }
    }
  }

  /** The batch accepts more: an expense covered by a later income passes only as a batch. */
  lemma BatchAcceptsMore()
    ensures exists s: State, rs: seq<Record> :: AddRecords(s, rs, 0).Ok? && InTurn(s, rs, 0).Err?
  {
    var spend := Record(1, Expense, 50, None, Some(1), None, None, None, None, None, false);
    var earn := spend.(kind := Income);
    var s := State([], [], map[Key(Account, 1) := Plain(1, 0)], 0);
    var rs := [spend, earn];
    forall k
      ensures LinkSum(rs, k) == LinkEffect(spend, k) + LinkEffect(earn, k)
      ensures LinkSum(rs[..1], k) == LinkEffect(spend, k)
    {
      assert rs[..1] == [spend];
      SumsOfOne(spend, k);
    }
    InTurnAcceptedIff(s, rs, 0);
    var k := Key(Account, 1);
    assert LinkEffect(rs[1 - 1], k) == -50 && s.rows[k].balance + LinkSum(rs[..1], k) < 0;
    assert AddRecords(s, rs, 0).Ok? && InTurn(s, rs, 0).Err?;
  }

  /** An income and an expense of 5 on an objective that was marked completed by hand, far from its target. */
  lemma CancellingBatch() returns (s: State, rs: seq<Record>, k: Key)
    ensures k in s.rows && s.rows[k] == Goal(1, 0, Some(100), true, Some(0))
    ensures LinkSum(rs, k) == 0 && Touched(rs, k)
    ensures AddRecords(s, rs, 0).Ok? && InTurn(s, rs, 0).Ok?
  {
    k := Key(Objective, 1);
    var earn := Record(1, Income, 5, Some(1), None, None, None, None, None, None, false);
    var spend := earn.(kind := Expense);
    s := State([], [], map[k := Goal(1, 0, Some(100), true, Some(0))], 0);
    rs := [earn, spend];
    SumsOfTwo(earn, spend, k);
    assert earn in rs && LinkEffect(earn, k) != 0;
    InTurnAcceptedIff(s, rs, 0);
  }

  /** Created one by one the two records clear the mark; created as a batch they leave it. */
  lemma BatchFlagsCanDiffer()
    ensures exists s: State, rs: seq<Record>, k: Key ::
              && AddRecords(s, rs, 0).Ok? && InTurn(s, rs, 0).Ok?
              && var batch, turn := AddRecords(s, rs, 0).value.rows, InTurn(s, rs, 0).value.rows;
                && k in batch && k in turn && batch[k].Goal? && turn[k].Goal?
                && batch[k].completed != turn[k].completed
  {
    hide InTurn, LinkSum;
    var s, rs, k := CancellingBatch();
    BatchFlagsMatchIff(s, rs, 0, k);
  }
}
