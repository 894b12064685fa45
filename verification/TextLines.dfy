/** A stable ascending sort by a key: what `Array.prototype.sort` promises. */
module StableSort {
  /** Elements equal to `x` stay behind it. */
  function Insert<T>(x: T, s: seq<T>, key: T -> real): seq<T> {
    if s == [] then [x]
    else if key(x) <= key(s[0]) then [x] + s
    else [s[0]] + Insert(x, s[1..], key)
  }

  function SortBy<T>(s: seq<T>, key: T -> real): seq<T> {
    if s == [] then [] else Insert(s[0], SortBy(s[1..], key), key)
  }

  predicate Ascending<T>(s: seq<T>, key: T -> real) {
    forall i, j :: 0 <= i < j < |s| ==> key(s[i]) <= key(s[j])
  }

  /** The elements with one key, in order. */
  function Having<T>(s: seq<T>, key: T -> real, k: real): seq<T> {
    if s == [] then []
    else if key(s[0]) == k then [s[0]] + Having(s[1..], key, k)
    else Having(s[1..], key, k)
  }

  lemma {:induction false} InsertHas<T>(x: T, s: seq<T>, key: T -> real)
    ensures multiset(Insert(x, s, key)) == multiset(s)[x := multiset(s)[x] + 1]
  {
    if s != [] && key(x) > key(s[0]) {
      InsertHas(x, s[1..], key);
      assert s == [s[0]] + s[1..];
    }
  }

  lemma {:induction false} InsertAscends<T>(x: T, s: seq<T>, key: T -> real)
    requires Ascending(s, key)
    ensures Ascending(Insert(x, s, key), key)
  {
    if s != [] && key(x) > key(s[0]) {
      var placed := Insert(x, s[1..], key);
      InsertAscends(x, s[1..], key);
      InsertHas(x, s[1..], key);
      forall i | 0 <= i < |placed|
        ensures key(s[0]) <= key(placed[i])
      {
        assert placed[i] in multiset(placed);
        assert placed[i] == x || placed[i] in s[1..];
      }
    }
  }

  lemma {:induction false} InsertBeforeEquals<T>(x: T, s: seq<T>, key: T -> real, k: real)
    ensures Having(Insert(x, s, key), key, k) == if key(x) == k then [x] + Having(s, key, k) else Having(s, key, k)
    decreases |s|
  {
    if s == [] {
    } else if key(x) <= key(s[0]) {
      assert ([x] + s)[1..] == s;
    } else {
      var placed := Insert(x, s[1..], key);
      InsertBeforeEquals(x, s[1..], key, k);
      assert ([s[0]] + placed)[1..] == placed;
    }
  }

  /** Sorted, the same elements, and equal keys keep their order. */
  lemma {:induction false} SortIsStable<T>(s: seq<T>, key: T -> real, k: real)
    ensures Ascending(SortBy(s, key), key)
    ensures multiset(SortBy(s, key)) == multiset(s)
    ensures Having(SortBy(s, key), key, k) == Having(s, key, k)
  {
    if s != [] {
      var rest := SortBy(s[1..], key);
      SortIsStable(s[1..], key, k);
      InsertHas(s[0], rest, key);
      InsertAscends(s[0], rest, key);
      InsertBeforeEquals(s[0], rest, key, k);
      assert s == [s[0]] + s[1..];
    }
  }
}

/** Grouping the positioned words of a page into text lines. */
module TextLines {
  import opened StableSort

  datatype Token = Token(x: real, y: real, text: string, absX: real, page: nat)

  datatype Line = Line(y: real, page: nat, tokens: seq<Token>)

  const MAX_LINES_PER_FILE := 20000

  /** Within the vertical tolerance of a line. */
  predicate Near(a: real, b: real) {
    -1.5 <= a - b <= 1.5
  }

  predicate Fits(l: Line, t: Token) {
    l.page == t.page && Near(l.y, t.y)
  }

  /** The horizontal position as a share of the widest one. */
  function Scaled(t: Token, maxX: real): Token
    requires maxX >= 1.0
  {
    var r := t.x / maxX;
    t.(x := if r <= 1.0 then r else 1.0)
  }

  /** A position is measured in shares of the widest one, one at most. */
  lemma ScaledIs(t: Token, maxX: real)
    requires maxX >= 1.0
    ensures var s := Scaled(t, maxX);
      && s.y == t.y && s.text == t.text && s.absX == t.absX && s.page == t.page
      && (t.x <= maxX ==> s.x * maxX == t.x) && (t.x > maxX ==> s.x == 1.0)
  {
    assert t.x / maxX * maxX == t.x;
  }

  function AllScaled(ts: seq<Token>, maxX: real): (out: seq<Token>)
    requires maxX >= 1.0
    ensures |out| == |ts| && forall i | 0 <= i < |ts| :: out[i] == Scaled(ts[i], maxX)
  {
    seq(|ts|, i requires 0 <= i < |ts| => Scaled(ts[i], maxX))
  }

  /** `lines.find`: the first line the token fits, or the number of lines. */
  function FindLine(lines: seq<Line>, t: Token): nat {
    if lines == [] || Fits(lines[0], t) then 0 else 1 + FindLine(lines[1..], t)
  }

  lemma {:induction false} FindLineIsFirst(lines: seq<Line>, t: Token)
    ensures FindLine(lines, t) <= |lines|
    ensures FindLine(lines, t) < |lines| ==> Fits(lines[FindLine(lines, t)], t)
    ensures forall i :: 0 <= i < FindLine(lines, t) ==> !Fits(lines[i], t)
  {
    if lines != [] && !Fits(lines[0], t) {
      FindLineIsFirst(lines[1..], t);
      assert forall i :: 1 <= i < FindLine(lines, t) ==> lines[i] == lines[1..][i - 1];
    }
  }

  function Place(lines: seq<Line>, t: Token): seq<Line> {
    FindLineIsFirst(lines, t);
    var k := FindLine(lines, t);
    if k < |lines| then lines[k := lines[k].(tokens := lines[k].tokens + [t])]
    else lines + [Line(t.y, t.page, [t])]
  }

  /** The lines before sorting, in the order their first tokens came. */
  function Grouped(ts: seq<Token>): seq<Line> {
    if ts == [] then [] else Place(Grouped(ts[..|ts| - 1]), ts[|ts| - 1])
  }

  function TokenX(t: Token): real {
    t.x
  }

  /** Lines read from the top, where `y` is largest. */
  function Depth(l: Line): real {
    0.0 - l.y
  }

  function Ordered(l: Line): Line {
    l.(tokens := SortBy(l.tokens, TokenX))
  }

  function EachOrdered(lines: seq<Line>): (out: seq<Line>)
    ensures |out| == |lines| && forall i | 0 <= i < |lines| :: out[i] == Ordered(lines[i])
  {
    seq(|lines|, i requires 0 <= i < |lines| => Ordered(lines[i]))
  }

  function Arranged(ts: seq<Token>): seq<Line> {
    SortBy(EachOrdered(Grouped(ts)), Depth)
  }

  // ---- The loops -------------------------------------------------------------------------

  method WidestX(ts: seq<Token>) returns (maxX: real)
    ensures maxX >= 1.0 && forall t | t in ts :: t.x <= maxX
    ensures maxX == 1.0 || exists t :: t in ts && t.x == maxX
  {
    maxX := 1.0;
    for i := 0 to |ts|
      invariant maxX >= 1.0 && forall j | 0 <= j < i :: ts[j].x <= maxX
      invariant maxX == 1.0 || exists t :: t in ts && t.x == maxX
    {
      if ts[i].x > maxX {
        maxX := ts[i].x;
      }
    }
  }

  /** `extractTextLines`, from the tokens on. */
  method ExtractTextLines(ts: seq<Token>) returns (lines: seq<Line>, ghost all: seq<Line>, maxX: real)
    ensures maxX >= 1.0 && (forall t | t in ts :: t.x <= maxX)
    ensures maxX == 1.0 || exists t :: t in ts && t.x == maxX
    ensures all == Arranged(AllScaled(ts, maxX))
    ensures lines == if |all| <= 20000 then all else all[..20000]
  {
    maxX := WidestX(ts);
    ghost var placed := AllScaled(ts, maxX);
    var grouped := [];
    for i := 0 to |ts|
      invariant grouped == Grouped(placed[..i])
    {
      var token := Scaled(ts[i], maxX);
      assert placed[..i + 1][..i] == placed[..i];
      FindLineIsFirst(grouped, token);
      var k := FindLine(grouped, token);
      if k < |grouped| {
        grouped := grouped[k := grouped[k].(tokens := grouped[k].tokens + [token])];
      } else {
        grouped := grouped + [Line(token.y, token.page, [token])];
      }
    }
    assert placed[..|ts|] == placed;
    ghost var before := grouped;
    for i := 0 to |grouped|
      invariant |grouped| == |before|
      invariant forall j | 0 <= j < i :: grouped[j] == Ordered(before[j])
      invariant forall j | i <= j < |grouped| :: grouped[j] == before[j]
    {
      grouped := grouped[i := Ordered(grouped[i])];
    }
    assert grouped == EachOrdered(before);
    lines := SortBy(grouped, Depth);
    all := lines;
    if |lines| > MAX_LINES_PER_FILE {
      lines := lines[..MAX_LINES_PER_FILE];
    }
  }

  // ---- The grouping is a partition -------------------------------------------------------

  function TokensOf(lines: seq<Line>): multiset<Token> {
    if lines == [] then multiset{} else multiset(lines[0].tokens) + TokensOf(lines[1..])
  }

  /** A token of the line gave it its height, and all its tokens are on its page, near it. */
  predicate Anchored(l: Line) {
    && (exists t :: t in l.tokens && t.y == l.y)
    && (forall t | t in l.tokens :: l.page == t.page && -1.5 <= l.y - t.y <= 1.5)
  }

  /** Two lines of one page are further apart than the tolerance. */
  predicate Apart(lines: seq<Line>) {
    forall i, j :: 0 <= i < |lines| && 0 <= j < |lines| && i != j && lines[i].page == lines[j].page ==>
      lines[i].y - lines[j].y > 1.5 || lines[j].y - lines[i].y > 1.5
  }

  /** No earlier line would have taken a token of a later one. */
  predicate Earliest(lines: seq<Line>) {
    forall i, j, t :: 0 <= i < j < |lines| && t in lines[j].tokens ==> !Fits(lines[i], t)
  }

  lemma {:induction false} TokensOfUpdate(lines: seq<Line>, k: nat, t: Token)
    requires k < |lines|
    ensures TokensOf(lines[k := lines[k].(tokens := lines[k].tokens + [t])]) == TokensOf(lines) + multiset{t}
  {
    var next := lines[k := lines[k].(tokens := lines[k].tokens + [t])];
    if k == 0 {
      assert next[1..] == lines[1..];
    } else {
      TokensOfUpdate(lines[1..], k - 1, t);
      assert next[1..] == lines[1..][k - 1 := lines[k].(tokens := lines[k].tokens + [t])];
    }
  }

  lemma {:induction false} TokensOfSnoc(lines: seq<Line>, l: Line)
    ensures TokensOf(lines + [l]) == TokensOf(lines) + multiset(l.tokens)
  {
    if lines == [] {
      assert (lines + [l])[1..] == [];
    } else {
      TokensOfSnoc(lines[1..], l);
      assert (lines + [l])[1..] == lines[1..] + [l];
    }
  }

  lemma PlaceTokens(lines: seq<Line>, t: Token)
    ensures TokensOf(Place(lines, t)) == TokensOf(lines) + multiset{t}
  {
    FindLineIsFirst(lines, t);
    var k := FindLine(lines, t);
    if k < |lines| {
      TokensOfUpdate(lines, k, t);
    } else {
      TokensOfSnoc(lines, Line(t.y, t.page, [t]));
    }
  }

  lemma PlaceAnchored(l: Line, t: Token)
    requires Anchored(l) && Fits(l, t)
    ensures Anchored(l.(tokens := l.tokens + [t]))
  {
    var a :| a in l.tokens && a.y == l.y;
    assert a in (l.tokens + [t]);
  }

  lemma PlaceKeepsAnchored(lines: seq<Line>, t: Token)
    requires forall l | l in lines :: Anchored(l)
    ensures forall l | l in Place(lines, t) :: Anchored(l)
  {
    FindLineIsFirst(lines, t);
    var k := FindLine(lines, t);
    if k < |lines| {
      assert lines[k] in lines;
      PlaceAnchored(lines[k], t);
    } else {
      assert t in [t];
      assert Anchored(Line(t.y, t.page, [t]));
    }
    hide Anchored, FindLine, Fits;
  }

  /** Adding a word to a line moves no line. */
  lemma TakenApart(lines: seq<Line>, k: nat, l: Line)
    requires Apart(lines) && k < |lines| && l.y == lines[k].y && l.page == lines[k].page
    ensures Apart(lines[k := l])
  {
    var next := lines[k := l];
    assert forall i | 0 <= i < |lines| :: next[i].y == lines[i].y && next[i].page == lines[i].page;
  }

  lemma OpenedApart(lines: seq<Line>, l: Line)
    requires Apart(lines)
    requires forall i | 0 <= i < |lines| :: lines[i].page == l.page ==> lines[i].y - l.y > 1.5 || l.y - lines[i].y > 1.5
    ensures Apart(lines + [l])
  {
  }

  lemma PlaceKeepsApart(lines: seq<Line>, t: Token)
    requires Apart(lines)
    ensures Apart(Place(lines, t))
  {
    FindLineIsFirst(lines, t);
    var k := FindLine(lines, t);
    hide Apart;
    if k < |lines| {
      TakenApart(lines, k, lines[k].(tokens := lines[k].tokens + [t]));
    } else {
      OpenedApart(lines, Line(t.y, t.page, [t]));
    }
  }

  lemma PlaceKeepsEarliest(lines: seq<Line>, t: Token)
    requires Earliest(lines)
    ensures Earliest(Place(lines, t))
  {
    FindLineIsFirst(lines, t);
    hide FindLine;
    var k := FindLine(lines, t);
    var next := Place(lines, t);
    forall i, j, u | 0 <= i < j < |next| && u in next[j].tokens
      ensures !Fits(next[i], u)
    {
      assert i < |lines| && next[i].y == lines[i].y && next[i].page == lines[i].page;
      if j == k && u !in (if j < |lines| then lines[j].tokens else []) {
        assert u == t && !Fits(lines[i], t);
      } else {
        assert j < |lines| && u in lines[j].tokens && !Fits(lines[i], u);
      }
    }
  }

  lemma NoLines()
    ensures Apart([]) && Earliest([]) && |TokensOf([])| == 0
  {
  }

  lemma {:induction false} GroupingPartitions(ts: seq<Token>)
    ensures forall l | l in Grouped(ts) :: Anchored(l)
    ensures Apart(Grouped(ts)) && Earliest(Grouped(ts))
    ensures TokensOf(Grouped(ts)) == multiset(ts)
  {
    hide Place, Anchored, Apart, Earliest, TokensOf;
    if ts == [] {
      NoLines();
    } else {
      var init, last := ts[..|ts| - 1], ts[|ts| - 1];
      GroupingPartitions(init);
      PlaceTokens(Grouped(init), last);
      PlaceKeepsAnchored(Grouped(init), last);
      PlaceKeepsApart(Grouped(init), last);
      PlaceKeepsEarliest(Grouped(init), last);
      assert ts == init + [last];
    }
  }

  // ---- The sorted lines ------------------------------------------------------------------

  lemma {:induction false} TokensOfInsert(l: Line, lines: seq<Line>)
    ensures TokensOf(Insert(l, lines, Depth)) == multiset(l.tokens) + TokensOf(lines)
  {
    if lines == [] || Depth(l) <= Depth(lines[0]) {
      assert ([l] + lines)[1..] == lines;
    } else {
      var placed := Insert(l, lines[1..], Depth);
      TokensOfInsert(l, lines[1..]);
      assert ([lines[0]] + placed)[1..] == placed;
    }
  }

  lemma {:induction false} TokensOfSorted(lines: seq<Line>)
    ensures TokensOf(SortBy(lines, Depth)) == TokensOf(lines)
  {
    if lines != [] {
      TokensOfSorted(lines[1..]);
      TokensOfInsert(lines[0], SortBy(lines[1..], Depth));
    }
  }

  lemma OrderedHolds(l: Line, t: Token)
    ensures t in Ordered(l).tokens <==> t in l.tokens
  {
    SortIsStable(l.tokens, TokenX, 0.0);
    assert t in multiset(Ordered(l).tokens) <==> t in multiset(l.tokens);
  }

  lemma OrderedKeeps(l: Line)
    requires Anchored(l)
    ensures Anchored(Ordered(l))
  {
    var a :| a in l.tokens && a.y == l.y;
    OrderedHolds(l, a);
    forall t | t in Ordered(l).tokens
      ensures Fits(Ordered(l), t)
    {
      OrderedHolds(l, t);
    }
  }

  lemma {:induction false} TokensOfOrdered(lines: seq<Line>)
    ensures TokensOf(EachOrdered(lines)) == TokensOf(lines)
  {
    if lines != [] {
      SortIsStable(lines[0].tokens, TokenX, 0.0);
      assert EachOrdered(lines)[1..] == EachOrdered(lines[1..]);
      TokensOfOrdered(lines[1..]);
    }
  }

  lemma {:induction false} ApartInsert(l: Line, lines: seq<Line>)
    requires Apart([l] + lines)
    ensures Apart(Insert(l, lines, Depth))
  {
    if lines != [] && Depth(l) > Depth(lines[0]) {
      var tail := lines[1..];
      var placed := Insert(l, tail, Depth);
      assert forall i | 0 <= i < |[l] + tail| :: ([l] + tail)[i] == ([l] + lines)[if i == 0 then 0 else i + 1];
      ApartInsert(l, tail);
      InsertHas(l, tail, Depth);
      forall i | 0 <= i < |placed| && placed[i].page == lines[0].page
        ensures !Near(placed[i].y, lines[0].y) && !Near(lines[0].y, placed[i].y)
      {
        assert placed[i] in multiset(placed);
        if placed[i] == l {
          assert ([l] + lines)[0] == l && ([l] + lines)[1] == lines[0];
        } else {
          var j :| 0 <= j < |tail| && tail[j] == placed[i];
          assert ([l] + lines)[j + 2] == tail[j] && ([l] + lines)[1] == lines[0];
        }
      }
    }
  }

  lemma ApartMembers(lines: seq<Line>, sorted: seq<Line>)
    requires lines != [] && Apart(lines) && Apart(sorted)
    requires multiset(sorted) == multiset(lines[1..])
    ensures Apart([lines[0]] + sorted)
  {
    var tail := lines[1..];
    forall i | 0 <= i < |sorted| && sorted[i].page == lines[0].page
      ensures !Near(sorted[i].y, lines[0].y) && !Near(lines[0].y, sorted[i].y)
    {
      assert sorted[i] in multiset(sorted);
      var j :| 0 <= j < |tail| && tail[j] == sorted[i];
      assert lines[j + 1] == sorted[i];
    }
  }

  lemma {:induction false} ApartSorted(lines: seq<Line>)
    requires Apart(lines)
    ensures Apart(SortBy(lines, Depth))
  {
    if lines != [] {
      var tail := lines[1..];
      ApartSorted(tail);
      SortIsStable(tail, Depth, 0.0);
      ApartMembers(lines, SortBy(tail, Depth));
      ApartInsert(lines[0], SortBy(tail, Depth));
    }
  }

  predicate Rightwards(ts: seq<Token>) {
    forall i, j | 0 <= i < j < |ts| :: ts[i].x <= ts[j].x
  }

  /** From the top of a page, where `y` is largest. */
  predicate Downwards(lines: seq<Line>) {
    forall i, j | 0 <= i < j < |lines| :: lines[i].y >= lines[j].y
  }

  lemma RightwardsIs(ts: seq<Token>)
    requires Ascending(ts, TokenX)
    ensures Rightwards(ts)
  {
    forall i, j | 0 <= i < j < |ts|
      ensures ts[i].x <= ts[j].x
    {
      assert TokenX(ts[i]) <= TokenX(ts[j]);
    }
  }

  lemma DownwardsIs(lines: seq<Line>)
    requires Ascending(lines, Depth)
    ensures Downwards(lines)
  {
    forall i, j | 0 <= i < j < |lines|
      ensures lines[i].y >= lines[j].y
    {
      assert Depth(lines[i]) <= Depth(lines[j]);
    }
  }

  /**
   * Before the cut every token lies in exactly one line, of its own page and near the token
   * that opened it; words run rightwards and lines downwards.
   */
  lemma LinesPartitionTokens(ts: seq<Token>)
    ensures TokensOf(Arranged(ts)) == multiset(ts)
    ensures forall l | l in Arranged(ts) :: Anchored(l) && Rightwards(l.tokens)
    ensures Apart(Arranged(ts)) && Downwards(Arranged(ts))
  {
    var grouped := Grouped(ts);
    var ordered := EachOrdered(grouped);
    GroupingPartitions(ts);
    TokensOfOrdered(grouped);
    TokensOfSorted(ordered);
    SortIsStable(ordered, Depth, 0.0);
    ApartSorted(ordered);
    DownwardsIs(Arranged(ts));
    forall l | l in Arranged(ts)
      ensures Anchored(l) && Rightwards(l.tokens)
    {
      assert l in multiset(Arranged(ts));
      var i :| 0 <= i < |ordered| && ordered[i] == l;
      assert grouped[i] in grouped;
      OrderedKeeps(grouped[i]);
      SortIsStable(grouped[i].tokens, TokenX, 0.0);
      RightwardsIs(l.tokens);
    }
  }

  // ---- When rows are what they look like -------------------------------------------------

  predicate Level(s: Token, t: Token) {
    s.page == t.page && -1.5 <= s.y - t.y <= 1.5
  }

  predicate Together(lines: seq<Line>, s: Token, t: Token) {
    exists l :: l in lines && s in l.tokens && t in l.tokens
  }

  /** No chain of close words that drifts further than the tolerance. */
  predicate NoDrift(ts: seq<Token>) {
    forall s, t, u | s in ts && t in ts && u in ts && Level(s, t) && Level(t, u) :: Level(s, u)
  }

  lemma {:induction false} TokenHasLine(lines: seq<Line>, t: Token)
    ensures t in TokensOf(lines) <==> exists l :: l in lines && t in l.tokens
  {
    if lines != [] {
      TokenHasLine(lines[1..], t);
      assert lines == [lines[0]] + lines[1..];
    }
  }

  /** Sorting changes neither which words a line holds nor which lines there are. */
  lemma TogetherArranged(ts: seq<Token>, s: Token, t: Token)
    ensures Together(Arranged(ts), s, t) <==> Together(Grouped(ts), s, t)
  {
    var grouped := Grouped(ts);
    var ordered := EachOrdered(grouped);
    SortIsStable(ordered, Depth, 0.0);
    forall l: Line, u: Token
      ensures u in Ordered(l).tokens <==> u in l.tokens
    {
      OrderedHolds(l, u);
    }
    if l :| l in Arranged(ts) && s in l.tokens && t in l.tokens {
      assert l in multiset(Arranged(ts));
      var i :| 0 <= i < |ordered| && ordered[i] == l;
      assert grouped[i] in grouped;
    }
    if g :| g in grouped && s in g.tokens && t in g.tokens {
      var i :| 0 <= i < |grouped| && grouped[i] == g;
      assert ordered[i] in multiset(Arranged(ts));
    }
  }

  /** One token sits in one line. */
  lemma OneLine(lines: seq<Line>, l: Line, m: Line, t: Token)
    requires Earliest(lines) && (forall k | k in lines :: Anchored(k))
    requires l in lines && m in lines && t in l.tokens && t in m.tokens
    ensures l == m
  {
    var i :| 0 <= i < |lines| && lines[i] == l;
    var j :| 0 <= j < |lines| && lines[j] == m;
    assert Fits(l, t) && Fits(m, t);
  }

  /** The line of a word, and the word that opened it. */
  lemma LineAndAnchor(ts: seq<Token>, s: Token) returns (l: Line, a: Token)
    requires s in ts
    ensures l in Grouped(ts) && s in l.tokens && a in l.tokens && a in ts
    ensures a.y == l.y && a.page == l.page && s.page == l.page && -1.5 <= l.y - s.y <= 1.5
  {
    GroupingPartitions(ts);
    assert s in multiset(ts);
    TokenHasLine(Grouped(ts), s);
    l :| l in Grouped(ts) && s in l.tokens;
    a :| a in l.tokens && a.y == l.y;
    TokenHasLine(Grouped(ts), a);
    assert a in multiset(ts);
  }

  lemma TogetherIsLevel(ts: seq<Token>, s: Token, t: Token)
    requires NoDrift(ts) && s in ts && t in ts
    ensures Together(Grouped(ts), s, t) <==> Level(s, t)
  {
    var lines := Grouped(ts);
    var l, a := LineAndAnchor(ts, s);
    var m, b := LineAndAnchor(ts, t);
    assert Level(a, s) && Level(s, a) && Level(b, t) && Level(t, b);
    GroupingPartitions(ts);
    hide Grouped, TokensOf, Earliest;
    if Together(lines, s, t) {
      TogetherOnLine(ts, s, t, l);
      assert Level(s, a) && Level(a, t);
    }
    if Level(s, t) {
      assert Level(a, t) && Level(a, b);
      assert l == m;
    }
  }

  lemma TogetherOnLine(ts: seq<Token>, s: Token, t: Token, l: Line)
    requires Together(Grouped(ts), s, t) && l in Grouped(ts) && s in l.tokens
    ensures t in l.tokens && l.page == t.page && -1.5 <= l.y - t.y <= 1.5
  {
    GroupingPartitions(ts);
    var k :| k in Grouped(ts) && s in k.tokens && t in k.tokens;
    OneLine(Grouped(ts), l, k, s);
  }

  /** Two words share a row exactly when they are level, precisely for tokens without drift. */
  lemma RowsAreLevelsIff(ts: seq<Token>)
    ensures NoDrift(ts) <==> forall s, t | s in ts && t in ts :: Together(Arranged(ts), s, t) <==> Level(s, t)
  {
    forall s, t
      ensures Together(Arranged(ts), s, t) <==> Together(Grouped(ts), s, t)
    {
      TogetherArranged(ts, s, t);
    }
    if NoDrift(ts) {
      forall s, t | s in ts && t in ts
        ensures Together(Grouped(ts), s, t) <==> Level(s, t)
      {
        TogetherIsLevel(ts, s, t);
      }
    } else {
      var s, t, u :| s in ts && t in ts && u in ts && Level(s, t) && Level(t, u) && !Level(s, u);
      LevelsNotRows(ts, s, t, u);
    }
  }

  lemma LevelsNotRows(ts: seq<Token>, s: Token, t: Token, u: Token)
    requires s in ts && t in ts && u in ts && !Level(s, u)
    ensures Together(Grouped(ts), s, t) && Together(Grouped(ts), t, u) ==> Together(Grouped(ts), s, u)
  {
    var lines := Grouped(ts);
    GroupingPartitions(ts);
    if Together(lines, s, t) && Together(lines, t, u) {
      var l :| l in lines && s in l.tokens && t in l.tokens;
      var m :| m in lines && t in m.tokens && u in m.tokens;
      OneLine(lines, l, m, t);
    }
  }

  // ---- Several pages ---------------------------------------------------------------------

  predicate PagesAscend(lines: seq<Line>) {
    forall i, j :: 0 <= i < j < |lines| ==> lines[i].page <= lines[j].page
  }

  predicate PagesInOrder(ts: seq<Token>) {
    forall i, j :: 0 <= i < j < |ts| ==> ts[i].page <= ts[j].page
  }

  /** No line of a page stands higher than a line of an earlier page. */
  predicate PagesStack(lines: seq<Line>) {
    forall l, m | l in lines && m in lines && l.page < m.page :: l.y >= m.y
  }

  /** Pages come in order, so lines are opened page by page. */
  lemma {:induction false} GroupedPages(ts: seq<Token>)
    requires PagesInOrder(ts)
    ensures PagesAscend(Grouped(ts))
    ensures forall l | l in Grouped(ts) :: ts != [] && l.page <= ts[|ts| - 1].page
  {
    if ts != [] {
      var init, last := ts[..|ts| - 1], ts[|ts| - 1];
      GroupedPages(init);
      if init != [] {
        assert init[|init| - 1].page <= last.page;
      }
      FindLineIsFirst(Grouped(init), last);
    }
  }

  lemma {:induction false} InsertKeepsPages(l: Line, lines: seq<Line>)
    requires PagesAscend([l] + lines) && PagesStack([l] + lines)
    ensures PagesAscend(Insert(l, lines, Depth))
  {
    if lines != [] && Depth(l) > Depth(lines[0]) {
      TailPages(l, lines);
      hide PagesStack;
      InsertKeepsPages(l, lines[1..]);
      InsertHas(l, lines[1..], Depth);
      hide PagesAscend;
      PlacedPages(l, lines, Insert(l, lines[1..], Depth));
    }
  }

  lemma PlacedPages(l: Line, lines: seq<Line>, placed: seq<Line>)
    requires lines != [] && PagesAscend([l] + lines) && l.page == lines[0].page && PagesAscend(placed)
    requires multiset(placed) == multiset(lines[1..])[l := multiset(lines[1..])[l] + 1]
    ensures PagesAscend([lines[0]] + placed)
  {
    var all, tail := [l] + lines, lines[1..];
    forall i | 0 <= i < |placed|
      ensures lines[0].page <= placed[i].page
    {
      assert placed[i] in multiset(placed);
      if placed[i] != l {
        var j :| 0 <= j < |tail| && tail[j] == placed[i];
        assert all[j + 2] == tail[j] && all[1] == lines[0];
      }
    }
  }

  /** A line that moves behind the next one is on its page. */
  lemma TailPages(l: Line, lines: seq<Line>)
    requires lines != [] && PagesAscend([l] + lines) && PagesStack([l] + lines)
    ensures PagesAscend([l] + lines[1..]) && PagesStack([l] + lines[1..])
    ensures l.y < lines[0].y ==> l.page == lines[0].page
  {
    var all, rest := [l] + lines, [l] + lines[1..];
    assert forall i | 0 <= i < |rest| :: rest[i] == all[if i == 0 then 0 else i + 1];
    assert forall k | k in rest :: k in all;
    assert all[0] == l && all[1] == lines[0] && l in all && lines[0] in all;
  }

  predicate SameLines(a: seq<Line>, b: seq<Line>) {
    (forall l | l in a :: l in b) && (forall l | l in b :: l in a)
  }

  lemma SamePages(lines: seq<Line>, sorted: seq<Line>)
    requires lines != [] && PagesAscend(lines) && PagesStack(lines) && PagesAscend(sorted)
    requires SameLines(sorted, lines[1..])
    ensures PagesAscend([lines[0]] + sorted) && PagesStack([lines[0]] + sorted)
  {
    var all := [lines[0]] + sorted;
    forall l | l in sorted
      ensures l in lines && lines[0].page <= l.page
    {
      var i :| 0 <= i < |lines[1..]| && lines[1..][i] == l;
      assert lines[i + 1] == l;
    }
    assert forall l | l in all :: l in lines;
    forall i | 0 <= i < |sorted|
      ensures lines[0].page <= sorted[i].page
    {
      assert sorted[i] in sorted;
    }
  }

  lemma {:induction false} SortKeepsPages(lines: seq<Line>)
    requires PagesAscend(lines) && PagesStack(lines)
    ensures PagesAscend(SortBy(lines, Depth))
  {
    if lines != [] {
      var tail := lines[1..];
      TailStacks(lines);
      SortKeepsPages(tail);
      hide PagesAscend, PagesStack, SortBy;
      SortIsStable(tail, Depth, 0.0);
      SameMembers(SortBy(tail, Depth), tail);
      SamePages(lines, SortBy(tail, Depth));
      InsertKeepsPages(lines[0], SortBy(tail, Depth));
      SortUnfolds(lines);
    } else {
      SortUnfolds(lines);
    }
  }

  lemma SortUnfolds(lines: seq<Line>)
    ensures SortBy(lines, Depth) == if lines == [] then [] else Insert(lines[0], SortBy(lines[1..], Depth), Depth)
  {
  }

  lemma TailStacks(lines: seq<Line>)
    requires lines != [] && PagesAscend(lines) && PagesStack(lines)
    ensures PagesAscend(lines[1..]) && PagesStack(lines[1..])
  {
    assert forall l | l in lines[1..] :: l in lines;
  }

  /**
   * The lines of all pages are sorted together by height. They stay in page order exactly
   * when, as they were grouped, no line of a page stands higher than a line of an earlier
   * page; otherwise the pages of the statement are interleaved.
   */
  lemma PagesStayInOrderIff(ts: seq<Token>)
    requires PagesInOrder(ts)
    ensures PagesAscend(Arranged(ts)) <==> PagesStack(Grouped(ts))
  {
    var ordered := EachOrdered(Grouped(ts));
    GroupedPages(ts);
    OrderedStacks(Grouped(ts));
    SortIsStable(ordered, Depth, 0.0);
    SameMembers(ordered, Arranged(ts));
    if PagesStack(Grouped(ts)) {
      OrderedPages(Grouped(ts));
      hide PagesAscend, PagesStack, SortBy;
      SortKeepsPages(ordered);
    }
    if PagesAscend(Arranged(ts)) {
      hide PagesStack, PagesAscend, Ascending, SortBy;
      AscendingStacks(Arranged(ts));
      StackMembers(Arranged(ts), ordered);
    }
  }

  /** Ordering the words of lines changes neither their pages nor their heights. */
  lemma OrderedStacks(lines: seq<Line>)
    ensures PagesStack(EachOrdered(lines)) <==> PagesStack(lines)
  {
    hide Ordered, PagesStack;
    var out := EachOrdered(lines);
    forall i | 0 <= i < |lines|
      ensures out[i].page == lines[i].page && out[i].y == lines[i].y
    {
      OrderedStays(lines[i]);
    }
    SameHeights(lines, out);
    SameHeights(out, lines);
  }

  lemma OrderedStays(l: Line)
    ensures Ordered(l).page == l.page && Ordered(l).y == l.y
  {
  }

  lemma SameHeights(a: seq<Line>, b: seq<Line>)
    requires |a| == |b| && (forall i | 0 <= i < |a| :: a[i].page == b[i].page && a[i].y == b[i].y)
    ensures PagesStack(a) ==> PagesStack(b)
  {
    if PagesStack(a) {
      forall l, m | l in b && m in b && l.page < m.page
        ensures l.y >= m.y
      {
        var i :| 0 <= i < |b| && b[i] == l;
        var j :| 0 <= j < |b| && b[j] == m;
        assert a[i] in a && a[j] in a;
      }
    }
  }

  lemma OrderedPages(lines: seq<Line>)
    requires PagesAscend(lines)
    ensures PagesAscend(EachOrdered(lines))
  {
  }

  lemma StackMembers(lines: seq<Line>, others: seq<Line>)
    requires PagesStack(lines) && SameLines(lines, others)
    ensures PagesStack(others)
  {
  }

  lemma AscendingStacks(lines: seq<Line>)
    requires Ascending(lines, Depth) && PagesAscend(lines)
    ensures PagesStack(lines)
  {
    forall l, m | l in lines && m in lines && l.page < m.page
      ensures l.y >= m.y
    {
      var i :| 0 <= i < |lines| && lines[i] == l;
      var j :| 0 <= j < |lines| && lines[j] == m;
      assert i < j && Depth(lines[i]) <= Depth(lines[j]);
    }
  }

  lemma SameMembers(a: seq<Line>, b: seq<Line>)
    requires multiset(a) == multiset(b)
    ensures SameLines(a, b)
  {
    forall l | l in a || l in b
      ensures l in a && l in b
    {
      assert l in multiset(a) <==> l in multiset(b);
    }
  }

  /** A word of a later page that stands higher is read before a word of an earlier one. */
  lemma HigherPageComesFirst(a: Token, b: Token)
    requires a.page < b.page && a.y < b.y
    ensures PagesInOrder([a, b]) && !PagesAscend(Arranged([a, b]))
  {
    assert PagesInOrder([a, b]);
    var lines := Grouped([a, b]);
    GroupingPartitions([a, b]);
    hide Anchored, TokensOf, Grouped, Apart, PagesAscend;
    var l := LineOf(lines, a, b, a);
    var m := LineOf(lines, a, b, b);
    assert !PagesStack(lines);
    PagesStayInOrderIff([a, b]);
  }

  lemma LineOf(lines: seq<Line>, a: Token, b: Token, t: Token) returns (l: Line)
    requires TokensOf(lines) == multiset([a, b]) && (forall k | k in lines :: Anchored(k))
    requires a.page != b.page && (t == a || t == b)
    ensures l in lines && l.page == t.page && l.y == t.y
  {
    assert t in multiset([a, b]);
    TokenHasLine(lines, t);
    l :| l in lines && t in l.tokens;
    var anchor :| anchor in l.tokens && anchor.y == l.y;
    TokenHasLine(lines, anchor);
    assert anchor in multiset([a, b]);
    assert anchor == a || anchor == b;
  }
}
