/** Monthly reconciliation of records typed in the application with imported ones. */
module Reconciliation {
  import opened Fingerprints
  import L = LedgerModel

  /** A record of the month; `imported` tells `source = import`. */
  datatype Row = Row(date: string, amount: nat, description: string, kind: L.TxType, imported: bool)
  {
    function Print(): string {
      Fingerprint(date, amount, description)
    }
  }

  datatype Bucket = Bucket(count: nat, income: nat, expense: nat)
  {
    function Add(r: Row): Bucket {
      if r.kind == L.Income then Bucket(count + 1, income + r.amount, expense)
      else Bucket(count + 1, income, expense + r.amount)
    }

    function Net(): int {
      income - expense
    }
  }

  datatype Report = Report(
    app: Bucket, imports: Bucket,
    matchedCount: nat, matchedAmount: nat,
    appOnlyCount: nat, appOnlyAmount: nat,
    extractOnlyCount: nat, extractOnlyAmount: nat,
    expected: int)

  // ---- Reference definitions -------------------------------------------------------------

  /** Totals of one side, transfers left out. */
  function SideBucket(rows: seq<Row>, imported: bool): Bucket {
    if rows == [] then Bucket(0, 0, 0)
    else
      var init, last := rows[..|rows| - 1], rows[|rows| - 1];
      if last.kind == L.Transfer || last.imported != imported then SideBucket(init, imported)
      else SideBucket(init, imported).Add(last)
  }

  /** Distinct fingerprints of one side with the amount of their first record. */
  function SidePrints(rows: seq<Row>, imported: bool): map<string, nat> {
    if rows == [] then map[]
    else
      var init, last := rows[..|rows| - 1], rows[|rows| - 1];
      var m := SidePrints(init, imported);
      if last.kind == L.Transfer || last.imported != imported || last.Print() in m then m
      else m[last.Print() := last.amount]
  }

  ghost function Pick(ks: set<string>): (k: string)
    requires ks != {}
    ensures k in ks
  {
    var k :| k in ks;
    k
  }

  /** Sum of the amounts of a set of fingerprints. */
  ghost function SumOver(m: map<string, nat>, ks: set<string>): nat
    requires ks <= m.Keys
  {
    if ks == {} then 0
    else m[Pick(ks)] + SumOver(m, ks - {Pick(ks)})
  }

  lemma {:induction false} SumOverAt(m: map<string, nat>, ks: set<string>, k: string)
    requires ks <= m.Keys && k in ks
    ensures SumOver(m, ks) == m[k] + SumOver(m, ks - {k})
    decreases ks
  {
    var j := Pick(ks);
    if j != k {
      SumOverAt(m, ks - {j}, k);
      SumOverAt(m, ks - {k}, j);
      assert ks - {j} - {k} == ks - {k} - {j};
    }
  }

  lemma {:induction false} SumOverUnion(m: map<string, nat>, a: set<string>, b: set<string>)
    requires a + b <= m.Keys && a !! b
    ensures SumOver(m, a + b) == SumOver(m, a) + SumOver(m, b)
    decreases a
  {
    if a == {} {
      assert a + b == b;
    } else {
      var k :| k in a;
      SumOverAt(m, a + b, k);
      SumOverAt(m, a, k);
      assert a + b - {k} == (a - {k}) + b;
      SumOverUnion(m, a - {k}, b);
    }
  }

  lemma {:induction false} SumOverAgrees(m: map<string, nat>, o: map<string, nat>, ks: set<string>)
    requires ks <= m.Keys && ks <= o.Keys && forall k | k in ks :: m[k] == o[k]
    ensures SumOver(m, ks) == SumOver(o, ks)
    decreases ks
  {
    if ks != {} {
      var k :| k in ks;
      SumOverAt(m, ks, k);
      SumOverAt(o, ks, k);
      SumOverAgrees(m, o, ks - {k});
    }
  }

  lemma SumAdd(m: map<string, nat>, ks: set<string>, k: string)
    requires ks + {k} <= m.Keys && k !in ks
    ensures |ks + {k}| == |ks| + 1 && SumOver(m, ks + {k}) == SumOver(m, ks) + m[k]
  {
    SumOverAt(m, ks + {k}, k);
    assert ks + {k} - {k} == ks;
  }

  /** The report by sets of distinct fingerprints. */
  ghost predicate IsReport(r: Report, rows: seq<Row>) {
    var a, e := SidePrints(rows, false), SidePrints(rows, true);
    && r.app == SideBucket(rows, false) && r.imports == SideBucket(rows, true)
    && r.matchedCount == |a.Keys * e.Keys| && r.matchedAmount == SumOver(a, a.Keys * e.Keys)
    && r.appOnlyCount == |a.Keys - e.Keys| && r.appOnlyAmount == SumOver(a, a.Keys - e.Keys)
    && r.extractOnlyCount == |e.Keys - a.Keys| && r.extractOnlyAmount == SumOver(e, e.Keys - a.Keys)
    && r.expected == if r.imports.count > 0 then r.imports.Net() else r.app.Net()
  }

  // ---- The loops -------------------------------------------------------------------------

  /** The first loop of `getReconciliation`: bucket totals and fingerprint maps. */
  method Collect(rows: seq<Row>)
    returns (app: Bucket, imports: Bucket, appFp: map<string, nat>, extractFp: map<string, nat>)
    ensures app == SideBucket(rows, false) && imports == SideBucket(rows, true)
    ensures appFp == SidePrints(rows, false) && extractFp == SidePrints(rows, true)
  {
    app, imports, appFp, extractFp := Bucket(0, 0, 0), Bucket(0, 0, 0), map[], map[];
    for i := 0 to |rows|
      invariant app == SideBucket(rows[..i], false) && imports == SideBucket(rows[..i], true)
      invariant appFp == SidePrints(rows[..i], false) && extractFp == SidePrints(rows[..i], true)
    {
      assert rows[..i + 1][..i] == rows[..i];
      var row := rows[i];
      if row.kind == L.Transfer {
        continue;
      }
      var fp := row.Print();
      if row.imported {
        imports := imports.Add(row);
        if fp !in extractFp {
          extractFp := extractFp[fp := row.amount];
        }
      } else {
        app := app.Add(row);
        if fp !in appFp {
          appFp := appFp[fp := row.amount];
        }
      }
    }
    assert rows[..|rows|] == rows;
  }

  /** Where a key goes when it is taken off the work list. */
  lemma MoveKey(keys: set<string>, other: set<string>, todo: set<string>, k: string)
    requires todo <= keys && k in todo
    ensures (keys - (todo - {k})) * other == (keys - todo) * other + if k in other then {k} else {}
    ensures keys - (todo - {k}) - other == keys - todo - other + if k in other then {} else {k}
    ensures k !in (keys - todo) * other && k !in keys - todo - other
  {
  }

  /** The four counters after the keys outside `todo`. */
  ghost predicate Compared(m: map<string, nat>, other: set<string>, todo: set<string>,
                           bothCount: nat, bothAmount: nat, onlyCount: nat, onlyAmount: nat)
  {
    && todo <= m.Keys
    && bothCount == |(m.Keys - todo) * other| && bothAmount == SumOver(m, (m.Keys - todo) * other)
    && onlyCount == |m.Keys - todo - other| && onlyAmount == SumOver(m, m.Keys - todo - other)
  }

  lemma CompareStep(m: map<string, nat>, other: set<string>, todo: set<string>, k: string,
                    bothCount: nat, bothAmount: nat, onlyCount: nat, onlyAmount: nat)
    requires Compared(m, other, todo, bothCount, bothAmount, onlyCount, onlyAmount) && k in todo
    ensures k in other ==> Compared(m, other, todo - {k}, bothCount + 1, bothAmount + m[k], onlyCount, onlyAmount)
    ensures k !in other ==> Compared(m, other, todo - {k}, bothCount, bothAmount, onlyCount + 1, onlyAmount + m[k])
  {
    MoveKey(m.Keys, other, todo, k);
    if k in other {
      SumAdd(m, (m.Keys - todo) * other, k);
    } else {
      SumAdd(m, m.Keys - todo - other, k);
    }
  }

  /** A pass over a fingerprint map, in any order: what the other side has and what it has not. */
  method Compare(m: map<string, nat>, other: map<string, nat>)
    returns (bothCount: nat, bothAmount: nat, onlyCount: nat, onlyAmount: nat)
    ensures bothCount == |m.Keys * other.Keys| && bothAmount == SumOver(m, m.Keys * other.Keys)
    ensures onlyCount == |m.Keys - other.Keys| && onlyAmount == SumOver(m, m.Keys - other.Keys)
  {
    bothCount, bothAmount, onlyCount, onlyAmount := 0, 0, 0, 0;
    var todo := m.Keys;
    while todo != {}
      invariant Compared(m, other.Keys, todo, bothCount, bothAmount, onlyCount, onlyAmount)
      decreases todo
    {
      var fp :| fp in todo;
      CompareStep(m, other.Keys, todo, fp, bothCount, bothAmount, onlyCount, onlyAmount);
      if fp in other {
        bothCount, bothAmount := bothCount + 1, bothAmount + m[fp];
      } else {
        onlyCount, onlyAmount := onlyCount + 1, onlyAmount + m[fp];
      }
      todo := todo - {fp};
    }
    assert m.Keys - todo == m.Keys;
  }

  /** `getReconciliation` on the rows of the month. */
  method GetReconciliation(rows: seq<Row>) returns (report: Report)
    ensures IsReport(report, rows)
  {
    var app, imports, appFp, extractFp := Collect(rows);
    var matchedCount, matchedAmount, appOnlyCount, appOnlyAmount := Compare(appFp, extractFp);
    var _, _, extractOnlyCount, extractOnlyAmount := Compare(extractFp, appFp);
    report := Report(app, imports, matchedCount, matchedAmount, appOnlyCount, appOnlyAmount,
                     extractOnlyCount, extractOnlyAmount, if imports.count > 0 then imports.Net() else app.Net());
  }

  // ---- Main results ----------------------------------------------------------------------

  predicate PlainDates(rows: seq<Row>) {
    forall r | r in rows :: '|' !in r.date
  }

  /** A fingerprint of a side comes from a record with that amount. */
  lemma {:induction false} PrintOrigin(rows: seq<Row>, imported: bool, fp: string) returns (r: Row)
    requires fp in SidePrints(rows, imported)
    ensures r in rows && r.kind != L.Transfer && r.imported == imported && r.Print() == fp
    ensures SidePrints(rows, imported)[fp] == r.amount
  {
    var init, last := rows[..|rows| - 1], rows[|rows| - 1];
    if fp in SidePrints(init, imported) {
      r := PrintOrigin(init, imported, fp);
    } else {
      r := last;
    }
  }

  /** The distinct fingerprints of a side are those of its records, transfers left out. */
  lemma {:induction false} PrintsOfSide(rows: seq<Row>, imported: bool, r: Row)
    requires r in rows && r.kind != L.Transfer && r.imported == imported
    ensures r.Print() in SidePrints(rows, imported)
  {
    var init := rows[..|rows| - 1];
    if r in init {
      PrintsOfSide(init, imported, r);
    }
  }

  /** The two sides agree on the amount of a common fingerprint: it is part of the fingerprint. */
  lemma SidesAgree(rows: seq<Row>, fp: string)
    requires PlainDates(rows) && fp in SidePrints(rows, false) && fp in SidePrints(rows, true)
    ensures SidePrints(rows, false)[fp] == SidePrints(rows, true)[fp]
  {
    var a := PrintOrigin(rows, false, fp);
    var b := PrintOrigin(rows, true, fp);
    FingerprintInjective(a.date, a.amount, a.description, b.date, b.amount, b.description);
  }

  /** A record that one side shows. */
  predicate Shown(r: Row, rows: seq<Row>, imported: bool) {
    r in rows && r.kind != L.Transfer && r.imported == imported
  }

  predicate SameRow(a: Row, b: Row) {
    a.date == b.date && a.amount == b.amount && Normalize(a.description) == Normalize(b.description)
  }

  /**
   * A record typed in the application has its fingerprint matched exactly when some imported
   * record has the same date, the same amount and the same normalised description.
   */
  lemma MatchedIff(rows: seq<Row>, a: Row)
    requires PlainDates(rows) && Shown(a, rows, false)
    ensures a.Print() in SidePrints(rows, false)
    ensures a.Print() in SidePrints(rows, true) <==> exists b :: Shown(b, rows, true) && SameRow(a, b)
  {
    PrintsOfSide(rows, false, a);
    if a.Print() in SidePrints(rows, true) {
      var b := PrintOrigin(rows, true, a.Print());
      FingerprintInjective(a.date, a.amount, a.description, b.date, b.amount, b.description);
      assert Shown(b, rows, true) && SameRow(a, b);
    }
    if b :| Shown(b, rows, true) && SameRow(a, b) {
      PrintsOfSide(rows, true, b);
      FingerprintInjective(a.date, a.amount, a.description, b.date, b.amount, b.description);
    }
  }

  lemma SplitKeys(m: map<string, nat>, other: set<string>)
    ensures |m.Keys| == |m.Keys * other| + |m.Keys - other|
    ensures SumOver(m, m.Keys) == SumOver(m, m.Keys * other) + SumOver(m, m.Keys - other)
  {
    SumOverUnion(m, m.Keys * other, m.Keys - other);
    assert m.Keys * other + (m.Keys - other) == m.Keys;
  }

  lemma MatchedEitherSide(rows: seq<Row>)
    requires PlainDates(rows)
    ensures var a, e := SidePrints(rows, false), SidePrints(rows, true);
            a.Keys * e.Keys == e.Keys * a.Keys && SumOver(a, a.Keys * e.Keys) == SumOver(e, e.Keys * a.Keys)
  {
    var a, e := SidePrints(rows, false), SidePrints(rows, true);
    assert a.Keys * e.Keys == e.Keys * a.Keys;
    forall k | k in a.Keys * e.Keys ensures a[k] == e[k] {
      SidesAgree(rows, k);
    }
    SumOverAgrees(a, e, a.Keys * e.Keys);
  }

  // ---- What the buckets add up -----------------------------------------------------------

  /** The rows of one side, transfers left out, in order. */
  function SideRows(rows: seq<Row>, imported: bool): seq<Row> {
    if rows == [] then []
    else if rows[0].imported == imported && rows[0].kind != L.Transfer then [rows[0]] + SideRows(rows[1..], imported)
    else SideRows(rows[1..], imported)
  }

  /** Sum of the amounts of the incomes, or of all the others. */
  function Total(rows: seq<Row>, incomes: bool): nat {
    if rows == [] then 0
    else (if (rows[0].kind == L.Income) == incomes then rows[0].amount else 0) + Total(rows[1..], incomes)
  }

  lemma {:induction false} SideRowsSnoc(rows: seq<Row>, r: Row, imported: bool)
    ensures SideRows(rows + [r], imported) ==
            if r.imported == imported && r.kind != L.Transfer then SideRows(rows, imported) + [r]
            else SideRows(rows, imported)
  {
    if rows == [] {
      assert [] + [r] == [r] && [r][1..] == [];
    } else {
      assert (rows + [r])[1..] == rows[1..] + [r];
      SideRowsSnoc(rows[1..], r, imported);
    }
  }

  lemma {:induction false} TotalSnoc(rows: seq<Row>, r: Row, incomes: bool)
    ensures Total(rows + [r], incomes) == Total(rows, incomes) + if (r.kind == L.Income) == incomes then r.amount else 0
  {
    if rows == [] {
      assert [] + [r] == [r] && [r][1..] == [];
    } else {
      assert (rows + [r])[1..] == rows[1..] + [r];
      TotalSnoc(rows[1..], r, incomes);
    }
  }

  /** A bucket counts the rows of its side and adds up its incomes and its other amounts. */
  lemma {:induction false} BucketAddsUp(rows: seq<Row>, imported: bool)
    ensures var b, side := SideBucket(rows, imported), SideRows(rows, imported);
      b.count == |side| && b.income == Total(side, true) && b.expense == Total(side, false)
  {
    if rows != [] {
      var init, last := rows[..|rows| - 1], rows[|rows| - 1];
      assert rows == init + [last];
      BucketAddsUp(init, imported);
      SideRowsSnoc(init, last, imported);
      TotalSnoc(SideRows(init, imported), last, true);
      TotalSnoc(SideRows(init, imported), last, false);
    }
  }

  /**
   * The expected amount is income less the rest of what was imported or, when nothing was
   * imported, of what was typed in.
   */
  lemma ExpectedIs(rows: seq<Row>, r: Report)
    requires IsReport(r, rows)
    ensures var typed, imported := SideRows(rows, false), SideRows(rows, true);
      && r.app == Bucket(|typed|, Total(typed, true), Total(typed, false))
      && r.imports == Bucket(|imported|, Total(imported, true), Total(imported, false))
      && r.expected == if imported != [] then Total(imported, true) - Total(imported, false)
                       else Total(typed, true) - Total(typed, false)
  {
    BucketAddsUp(rows, false);
    BucketAddsUp(rows, true);
  }

  /** Matched and "only" totals partition the distinct fingerprints of each side, in number and in amount. */
  lemma ReportPartitions(rows: seq<Row>, r: Report)
    requires PlainDates(rows) && IsReport(r, rows)
    ensures var a, e := SidePrints(rows, false), SidePrints(rows, true);
            && r.matchedCount + r.appOnlyCount == |a.Keys| && r.matchedAmount + r.appOnlyAmount == SumOver(a, a.Keys)
            && r.matchedCount + r.extractOnlyCount == |e.Keys|
            && r.matchedAmount + r.extractOnlyAmount == SumOver(e, e.Keys)
  {
    SplitKeys(SidePrints(rows, false), SidePrints(rows, true).Keys);
    SplitKeys(SidePrints(rows, true), SidePrints(rows, false).Keys);
    MatchedEitherSide(rows);
  }

  /** Every record imported becomes typed in and the other way round. */
  function Swapped(rows: seq<Row>): (out: seq<Row>)
    ensures |out| == |rows|
  {
    seq(|rows|, i requires 0 <= i < |rows| => rows[i].(imported := !rows[i].imported))
  }

  lemma {:induction false} SwappedSides(rows: seq<Row>, imported: bool)
    ensures SidePrints(Swapped(rows), imported) == SidePrints(rows, !imported)
    ensures SideBucket(Swapped(rows), imported) == SideBucket(rows, !imported)
  {
    if rows != [] {
      var n := |rows| - 1;
      assert Swapped(rows)[..n] == Swapped(rows[..n]);
      assert Swapped(rows)[n].Print() == rows[n].Print();
      SwappedSides(rows[..n], imported);
    }
  }

  /** Swapping the sources keeps the matched totals and exchanges everything else. */
  lemma SwapExchangesSides(rows: seq<Row>, r: Report, s: Report)
    requires PlainDates(rows) && IsReport(r, rows) && IsReport(s, Swapped(rows))
    ensures s.matchedCount == r.matchedCount && s.matchedAmount == r.matchedAmount
    ensures s.appOnlyCount == r.extractOnlyCount && s.appOnlyAmount == r.extractOnlyAmount
    ensures s.extractOnlyCount == r.appOnlyCount && s.extractOnlyAmount == r.appOnlyAmount
    ensures s.app == r.imports && s.imports == r.app
  {
    SwappedSides(rows, false);
    SwappedSides(rows, true);
    MatchedEitherSide(rows);
  }
}
