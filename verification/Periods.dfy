/** Concurrent find-or-create of a financial period over a table with a unique key. */
module Periods {
  import opened Options

  datatype Key = Key(user: int, year: int, month: int)

  /** A saved period; its id is its position in the table. */
  datatype Row = Row(key: Key, closed: bool)

  /** `findOrCreateCurrent`, or a plain `create` racing with it. */
  datatype Mode = FindOrCreate | CreateOnly

  /**
   * The next database statement of a call: the first lookup, the duplicate check inside
   * `create`, the insert, the lookup after a caught error; or its outcome.
   */
  datatype Pc = Find | Check | Insert | Refind | Done(id: nat) | Conflict

  datatype Caller = Caller(key: Key, mode: Mode, pc: Pc)

  datatype World = World(table: seq<Row>, callers: seq<Caller>)

  /** `findOne` by the unique key. */
  function Lookup(table: seq<Row>, key: Key): Option<nat> {
    if table == [] then None
    else if table[0].key == key then Some(0)
    else
      match Lookup(table[1..], key)
      case None => None
      case Some(i) => Some(i + 1)
  }

  /** An exception inside `create`: caught by `findOrCreateCurrent`, surfaced otherwise. */
  function AfterError(mode: Mode): Pc {
    if mode == FindOrCreate then Refind else Conflict
  }

  /** One statement of one caller; a finished caller stays as it is. */
  function Turn(w: World, i: nat): World
    requires i < |w.callers|
  {
    var c := w.callers[i];
    var found := Lookup(w.table, c.key);
    match c.pc
    case Find => w.(callers := w.callers[i := c.(pc := if found.Some? then Done(found.value) else Check)])
    case Check => w.(callers := w.callers[i := c.(pc := if found.Some? then AfterError(c.mode) else Insert)])
    case Insert =>
      // The unique constraint refuses a second row.
      if found.Some? then w.(callers := w.callers[i := c.(pc := AfterError(c.mode))])
      else World(w.table + [Row(c.key, false)], w.callers[i := c.(pc := Done(|w.table|))])
    case Refind => w.(callers := w.callers[i := c.(pc := if found.Some? then Done(found.value) else Conflict)])
    case Done(_) => w
    case Conflict => w
  }

  /** What may happen next: a caller's statement, or somebody closing a period. */
  datatype Event = Statement(caller: nat) | Close(id: nat)

  function Happen(w: World, e: Event): World {
    match e
    case Statement(i) => if i < |w.callers| then Turn(w, i) else w
    case Close(id) => if id < |w.table| then w.(table := w.table[id := w.table[id].(closed := true)]) else w
  }

  /** Statements only add open periods, at the end; closing marks one period and nothing else. */
  lemma HappenIs(w: World, e: Event)
    ensures var next := Happen(w, e);
      && (e.Statement? ==>
            next.table == w.table ||
            (e.caller < |w.callers| && next.table == w.table + [Row(w.callers[e.caller].key, false)]))
      && (e.Close? ==>
            && next.callers == w.callers && |next.table| == |w.table|
            && forall i | 0 <= i < |w.table| ::
                 next.table[i] == if i == e.id then Row(w.table[i].key, true) else w.table[i])
  {
  }

  /**
   * A creation that finds its key taken, by its own check or by the unique constraint, is a
   * conflict for a plain `create` and another lookup for `findOrCreateCurrent`.
   */
  lemma TakenKey(w: World, i: nat)
    requires i < |w.callers| && (w.callers[i].pc == Check || w.callers[i].pc == Insert)
    requires Lookup(w.table, w.callers[i].key).Some?
    ensures var next := Happen(w, Statement(i));
      && next.table == w.table && |next.callers| == |w.callers|
      && next.callers[i] == w.callers[i].(pc := next.callers[i].pc)
      && (w.callers[i].mode == CreateOnly ==> next.callers[i].pc == Conflict)
      && (w.callers[i].mode == FindOrCreate ==> next.callers[i].pc == Refind)
  {
  }

  /** Any interleaving. */
  function Interleave(w: World, events: seq<Event>): World
    decreases |events|
  {
    if events == [] then w else Interleave(Happen(w, events[0]), events[1..])
  }

  // ---- Invariant -------------------------------------------------------------------------

  predicate UniqueKeys(table: seq<Row>) {
    forall i, j | 0 <= i < j < |table| :: table[i].key != table[j].key
  }

  predicate CallerFine(c: Caller, table: seq<Row>) {
    && (c.pc.Done? ==> c.pc.id < |table| && table[c.pc.id].key == c.key)
    && (c.pc == Refind ==> Lookup(table, c.key).Some?)
    && (c.mode == FindOrCreate ==> c.pc != Conflict)
  }

  predicate Fine(w: World) {
    UniqueKeys(w.table) && forall i | 0 <= i < |w.callers| :: CallerFine(w.callers[i], w.table)
  }

  lemma {:induction false} LookupFinds(table: seq<Row>, key: Key)
    ensures Lookup(table, key).Some? ==> Lookup(table, key).value < |table| && table[Lookup(table, key).value].key == key
    ensures Lookup(table, key).None? ==> forall i | 0 <= i < |table| :: table[i].key != key
  {
    if table != [] {
      LookupFinds(table[1..], key);
      if Lookup(table, key).None? {
        forall i | 0 <= i < |table| ensures table[i].key != key {
          if i > 0 {
            assert table[i] == table[1..][i - 1];
          }
        }
      }
    }
  }

  /** With unique keys a lookup returns the one row that has the key. */
  lemma LookupIs(table: seq<Row>, key: Key, id: nat)
    requires UniqueKeys(table) && id < |table| && table[id].key == key
    ensures Lookup(table, key) == Some(id)
  {
    LookupFinds(table, key);
  }

  lemma TurnKeepsFine(w: World, i: nat)
    requires Fine(w) && i < |w.callers|
    ensures Fine(Turn(w, i))
  {
    var c, next := w.callers[i], Turn(w, i);
    LookupFinds(w.table, c.key);
    forall j | 0 <= j < |w.callers| && w.callers[j].pc == Refind && next.table != w.table
      ensures Lookup(next.table, w.callers[j].key).Some?
    {
      LookupFinds(w.table, w.callers[j].key);
      LookupFinds(next.table, w.callers[j].key);
      var at := Lookup(w.table, w.callers[j].key).value;
      assert next.table[at].key == w.table[at].key;
    }
  }

  lemma CloseKeepsFine(w: World, id: nat)
    requires Fine(w)
    ensures Fine(Happen(w, Close(id)))
  {
    var next := Happen(w, Close(id));
    forall j | 0 <= j < |w.callers| && w.callers[j].pc == Refind
      ensures Lookup(next.table, w.callers[j].key).Some?
    {
      LookupFinds(w.table, w.callers[j].key);
      LookupFinds(next.table, w.callers[j].key);
      var at := Lookup(w.table, w.callers[j].key).value;
      assert next.table[at].key == w.table[at].key;
    }
  }

  lemma {:induction false} InterleaveKeepsFine(w: World, events: seq<Event>)
    requires Fine(w)
    ensures Fine(Interleave(w, events))
    decreases |events|
  {
    if events != [] {
      match events[0]
      case Statement(i) =>
        if i < |w.callers| {
          TurnKeepsFine(w, i);
        }
        InterleaveKeepsFine(Happen(w, events[0]), events[1..]);
      case Close(id) =>
        CloseKeepsFine(w, id);
        InterleaveKeepsFine(Happen(w, events[0]), events[1..]);
    }
  }

  // ---- Progress --------------------------------------------------------------------------

  /** Statements a caller may still need. */
  function Rank(pc: Pc): nat {
    match pc
    case Find => 4
    case Check => 3
    case Insert => 2
    case Refind => 1
    case Done(_) => 0
    case Conflict => 0
  }

  /** How often a caller got its turn. */
  function Turns(events: seq<Event>, i: nat): nat {
    if events == [] then 0 else (if events[0] == Statement(i) then 1 else 0) + Turns(events[1..], i)
  }

  lemma {:induction false} RankFalls(w: World, events: seq<Event>, i: nat)
    requires i < |w.callers|
    ensures var end := Interleave(w, events);
            && |end.callers| == |w.callers|
            && end.callers[i].key == w.callers[i].key && end.callers[i].mode == w.callers[i].mode
            && Rank(end.callers[i].pc) <= if Rank(w.callers[i].pc) > Turns(events, i)
                                          then Rank(w.callers[i].pc) - Turns(events, i) else 0
    decreases |events|
  {
    if events != [] {
      RankFalls(Happen(w, events[0]), events[1..], i);
    }
  }

  // ---- Main results ----------------------------------------------------------------------

  predicate Starting(w: World) {
    && UniqueKeys(w.table)
    && forall c | c in w.callers :: c.pc == if c.mode == FindOrCreate then Find else Check
  }

  /** Number of rows with a key. */
  function RowsWith(table: seq<Row>, key: Key): nat {
    if table == [] then 0 else (if table[0].key == key then 1 else 0) + RowsWith(table[1..], key)
  }

  lemma {:induction false} UniqueCount(table: seq<Row>, key: Key)
    requires UniqueKeys(table)
    ensures RowsWith(table, key) == if Lookup(table, key).Some? then 1 else 0
  {
    if table != [] {
      assert forall i | 0 <= i < |table[1..]| :: table[1..][i] == table[i + 1];
      UniqueCount(table[1..], key);
      LookupFinds(table[1..], key);
    }
  }

  /**
   * For any number of callers and any interleaving: a `findOrCreateCurrent` that got four
   * turns has returned, without surfacing a conflict; the table then holds exactly one row
   * for its key, later lookups find it, and every finished caller of that key has that same row.
   */
  lemma EveryCallerGetsTheOneRow(w: World, events: seq<Event>, i: nat, j: nat)
    requires Starting(w) && i < |w.callers| && j < |w.callers|
    requires w.callers[i].mode == FindOrCreate && Turns(events, i) >= 4
    ensures var end := Interleave(w, events);
            && |end.callers| == |w.callers| && UniqueKeys(end.table)
            && end.callers[i].pc.Done?
            && RowsWith(end.table, w.callers[i].key) == 1
            && end.callers[i].pc.id < |end.table| && end.table[end.callers[i].pc.id].key == w.callers[i].key
            && Lookup(end.table, w.callers[i].key) == Some(end.callers[i].pc.id)
            && (w.callers[j].key == w.callers[i].key && end.callers[j].pc.Done? ==>
                end.callers[j].pc.id == end.callers[i].pc.id)
  {
    forall n | 0 <= n < |w.callers| ensures CallerFine(w.callers[n], w.table) {
      assert w.callers[n] in w.callers;
    }
    InterleaveKeepsFine(w, events);
    RankFalls(w, events, i);
    RankFalls(w, events, j);
    var end := Interleave(w, events);
    UniqueCount(end.table, w.callers[i].key);
    LookupIs(end.table, w.callers[i].key, end.callers[i].pc.id);
  }

  /** Rows are never lost or moved: an id stays the id of its key. */
  lemma {:induction false} RowsStay(w: World, events: seq<Event>, id: nat)
    requires id < |w.table|
    ensures id < |Interleave(w, events).table| && Interleave(w, events).table[id].key == w.table[id].key
    decreases |events|
  {
    if events != [] {
      RowsStay(Happen(w, events[0]), events[1..], id);
    }
  }

  // ---- The repository as it runs ---------------------------------------------------------

  /** The table and the calls in flight, updated in place one statement at a time. */
  class PeriodDatabase {
    var table: seq<Row>
    var callers: seq<Caller>

    function Abs(): World
      reads this
    {
      World(table, callers)
    }

    constructor (calls: seq<Caller>)
      requires forall c | c in calls :: c.pc == if c.mode == FindOrCreate then Find else Check
      ensures Abs() == World([], calls) && Starting(Abs())
    {
      table, callers := [], calls;
    }

    /** `findByYearMonth`: a scan for the key. */
    method FindByYearMonth(key: Key) returns (found: Option<nat>)
      ensures found == Lookup(table, key)
    {
      for i := 0 to |table|
        invariant Lookup(table, key) ==
                  match Lookup(table[i..], key) { case None => None case Some(n) => Some(i + n) }
      {
        assert table[i..][0] == table[i] && table[i..][1..] == table[i + 1..];
        if table[i].key == key {
          return Some(i);
        }
      }
      return None;
    }

    /** The next statement of caller `i`. */
    method Proceed(i: nat)
      requires i < |callers|
      modifies this
      ensures Abs() == Turn(old(Abs()), i)
    {
      var c := callers[i];
      if c.pc.Done? || c.pc == Conflict {
        return;
      }
      var found := FindByYearMonth(c.key);
      if c.pc == Insert && found.None? {
        table := table + [Row(c.key, false)];
        c := c.(pc := Done(|table| - 1));
      } else if c.pc == Check && found.None? {
        c := c.(pc := Insert);
      } else if c.pc == Check || c.pc == Insert {
        c := c.(pc := AfterError(c.mode));
      } else if found.Some? {
        c := c.(pc := Done(found.value));
      } else {
        c := c.(pc := if c.pc == Find then Check else Conflict);
      }
      callers := callers[i := c];
    }
  }
}
