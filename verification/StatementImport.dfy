/** Duplicate detection of the statement import, one file at a time. */
module StatementImport {
  import opened Options
  import opened Fingerprints
  import C = Categories
  import L = LedgerModel
  import LedgerSums

  // ---- First occurrences -----------------------------------------------------------------

  /** A fingerprint is new when it is neither known nor seen earlier in the file. */
  predicate NewAt(prints: seq<string>, known: set<string>, i: nat)
    requires i < |prints|
  {
    prints[i] !in known && prints[i] !in prints[..i]
  }

  /** Positions of the new fingerprints among the first `n`, in order. */
  function NewPositions(prints: seq<string>, known: set<string>, n: nat): seq<nat>
    requires n <= |prints|
  {
    if n == 0 then []
    else if NewAt(prints, known, n - 1) then NewPositions(prints, known, n - 1) + [n - 1]
    else NewPositions(prints, known, n - 1)
  }

  /** Exactly the first occurrences of unknown fingerprints, in order, each once. */
  lemma {:induction false} NewPositionsAre(prints: seq<string>, known: set<string>, n: nat)
    requires n <= |prints|
    ensures var ps := NewPositions(prints, known, n);
            && |ps| <= n
            && (forall p: nat :: p in ps <==> p < n && NewAt(prints, known, p))
            && (forall i, j | 0 <= i < j < |ps| :: ps[i] < ps[j])
  {
    if n > 0 {
      NewPositionsAre(prints, known, n - 1);
      var before, ps := NewPositions(prints, known, n - 1), NewPositions(prints, known, n);
      forall p: nat ensures p in ps <==> p < n && NewAt(prints, known, p) {
        assert p in ps <==> p in before || (p == n - 1 && NewAt(prints, known, p));
      }
      forall i | 0 <= i < |before| ensures before[i] < n - 1 {
        assert before[i] in before;
      }
    }
  }

  /** Every fingerprint of the file is known or has its first occurrence among the new positions. */
  lemma {:induction false} EveryPrintCovered(prints: seq<string>, known: set<string>, n: nat, i: nat)
    requires i < n <= |prints| && prints[i] !in known
    ensures exists p: nat :: p < n && p in NewPositions(prints, known, n) && prints[p] == prints[i]
  {
    NewPositionsAre(prints, known, n);
    if prints[i] in prints[..i] {
      var j :| 0 <= j < i && prints[j] == prints[i];
      EveryPrintCovered(prints, known, n, j);
    } else {
      assert NewAt(prints, known, i);
    }
  }

  /** No two kept fingerprints are equal and none was known. */
  lemma NewPrintsDistinct(prints: seq<string>, known: set<string>, n: nat, p: nat, q: nat)
    requires n <= |prints| && p in NewPositions(prints, known, n) && q in NewPositions(prints, known, n) && p != q
    ensures p < n && q < n && prints[p] != prints[q] && prints[p] !in known
  {
    NewPositionsAre(prints, known, n);
    if p < q {
      assert prints[p] in prints[..q];
    } else {
      assert prints[q] in prints[..p];
    }
  }

  lemma {:induction false} NothingNew(prints: seq<string>, known: set<string>, n: nat)
    requires n <= |prints| && forall i | 0 <= i < |prints| :: prints[i] in known
    ensures NewPositions(prints, known, n) == []
  {
    if n > 0 {
      NothingNew(prints, known, n - 1);
    }
  }

  // ---- One file --------------------------------------------------------------------------

  /** A parsed movement; amounts are positive cents. */
  datatype Parsed = Parsed(date: string, amount: nat, description: string, kind: L.TxType)
  {
    function Print(): string {
      Fingerprint(date, amount, description)
    }
  }

  function Prints(file: seq<Parsed>): (out: seq<string>)
    ensures |out| == |file|
  {
    seq(|file|, i requires 0 <= i < |file| => file[i].Print())
  }

  /** A saved record: the movement it was made of, and the columns that hold its owner, company and category. */
  datatype Saved = Saved(movement: Parsed, entry: C.Record)
  {
    predicate LiveOf(user: int) {
      entry.user == user && !entry.deleted
    }
  }

  function Dates(file: seq<Parsed>): set<string> {
    set p | p in file :: p.date
  }

  /** Fingerprints of the user's live records on the dates of the file (`findExistingFingerprints`). */
  function Existing(rows: seq<Saved>, user: int, dates: set<string>): set<string> {
    set r | r in rows && r.LiveOf(user) && r.movement.date in dates :: r.movement.Print()
  }

  datatype FileOptions = FileOptions(
    skipDuplicates: bool, assignCategories: bool, captureCompanies: bool,
    defaultCategory: Option<int>, defaultCompany: Option<int>, account: Option<int>, liability: Option<int>)

  /** The fingerprints a file is compared with. */
  function Known(rows: seq<Saved>, user: int, file: seq<Parsed>, options: FileOptions): set<string> {
    if options.skipDuplicates then Existing(rows, user, Dates(file)) else {}
  }

  /** The positions of the file that become records. */
  function Chosen(rows: seq<Saved>, user: int, file: seq<Parsed>, options: FileOptions): seq<nat> {
    NewPositions(Prints(file), Known(rows, user, file, options), |file|)
  }

  datatype Counts = Counts(parsed: nat, created: nat, skipped: nat, uncategorized: nat)

  datatype FileError = Unreadable | NoTransactions | Refused

  function Uncategorized(rows: seq<Saved>): nat {
    if rows == [] then 0
    else Uncategorized(rows[..|rows| - 1]) + if rows[|rows| - 1].entry.category.None? then 1 else 0
  }

  // ---- Companies and categories of a movement --------------------------------------------

  /** A company of the user. */
  datatype Company = Company(id: int, name: string)

  predicate Contains(s: string, t: string) {
    exists i | 0 <= i <= |s| :: t <= s[i..]
  }

  /** The name is part of the description or the description part of the name, letter case aside. */
  predicate Resembles(c: Company, description: string) {
    Contains(LowerAll(description), LowerAll(c.name)) || Contains(LowerAll(c.name), LowerAll(description))
  }

  lemma ContainsIff(s: string, t: string)
    ensures Contains(s, t) <==> exists a, b :: s == a + t + b
  {
    if i :| 0 <= i <= |s| && t <= s[i..] {
      assert s == s[..i] + t + s[i + |t|..];
    }
    if a, b :| s == a + t + b {
      assert 0 <= |a| <= |s| && s[|a|..] == t + b && t <= s[|a|..];
    }
  }

  /** A company is recognised when, in lower case, its name stands in the description or the other way round. */
  lemma ResemblesIff(c: Company, description: string)
    ensures Resembles(c, description) <==>
            (exists a, b :: LowerAll(description) == a + LowerAll(c.name) + b) ||
            (exists a, b :: LowerAll(c.name) == a + LowerAll(description) + b)
  {
    ContainsIff(LowerAll(description), LowerAll(c.name));
    ContainsIff(LowerAll(c.name), LowerAll(description));
  }

  /** The first company in the list that resembles the description. */
  function MatchCompany(companies: seq<Company>, description: string): (m: Option<int>)
    ensures m.Some? <==> exists c :: c in companies && Resembles(c, description)
    ensures m.Some? ==> exists i | 0 <= i < |companies| ::
              && companies[i].id == m.value && Resembles(companies[i], description)
              && forall j | 0 <= j < i :: !Resembles(companies[j], description)
  {
    if companies == [] then None
    else if Resembles(companies[0], description) then Some(companies[0].id)
    else
      assert companies == [companies[0]] + companies[1..];
      MatchCompany(companies[1..], description)
  }

  function CompanyOf(options: FileOptions, companies: seq<Company>, p: Parsed): Option<int> {
    if options.defaultCompany.Some? || !options.captureCompanies then options.defaultCompany
    else MatchCompany(companies, p.description)
  }

  /** `toTransactionDto`, in the columns that matter here. */
  function Request(user: int, options: FileOptions, companies: seq<Company>, p: Parsed): C.Record {
    C.Record(user, p.description, CompanyOf(options, companies, p), options.defaultCategory, None, C.Pending, false, false)
  }

  /** The record that batch creation makes of a movement. */
  function Made(user: int, options: FileOptions, companies: seq<Company>, rules: C.Rules, defaults: C.Companies,
                p: Parsed): Saved {
    Saved(p, C.BatchOne(rules, defaults, Request(user, options, companies, p), options.assignCategories))
  }

  /** `toTransactionDto`, in the columns that move money. */
  function Booked(options: FileOptions, p: Parsed): L.Draft {
    L.Draft(p.kind, p.amount, None, options.account, None, options.liability)
  }

  function Drafts(file: seq<Parsed>, ps: seq<nat>, options: FileOptions): (ds: seq<L.Draft>)
    requires forall p | p in ps :: p < |file|
    ensures |ds| == |ps| && forall i | 0 <= i < |ps| :: ps[i] in ps && ds[i] == Booked(options, file[ps[i]])
  {
    seq(|ps|, i requires 0 <= i < |ps| => assert ps[i] in ps; Booked(options, file[ps[i]]))
  }

  lemma ChosenInFile(rows: seq<Saved>, user: int, file: seq<Parsed>, options: FileOptions)
    ensures forall p | p in Chosen(rows, user, file, options) :: p < |file|
    ensures |Chosen(rows, user, file, options)| <= |file|
  {
    NewPositionsAre(Prints(file), Known(rows, user, file, options), |file|);
  }

  /** The batch that a file asks the ledger to create. */
  function Batch(rows: seq<Saved>, user: int, file: seq<Parsed>, options: FileOptions): L.Command {
    ChosenInFile(rows, user, file, options);
    L.CreateMany(user, Drafts(file, Chosen(rows, user, file, options), options))
  }

  /** The records made of the chosen positions. */
  predicate SavesOf(user: int, file: seq<Parsed>, ps: seq<nat>, rows: seq<Saved>) {
    && |rows| == |ps|
    && forall i | 0 <= i < |rows| :: ps[i] < |file| && rows[i].LiveOf(user) && rows[i].movement == file[ps[i]]
  }

  /** They are what batch creation makes of them. */
  predicate MadeOf(user: int, options: FileOptions, companies: seq<Company>, rules: C.Rules, defaults: C.Companies,
                   file: seq<Parsed>, ps: seq<nat>, rows: seq<Saved>) {
    && |rows| == |ps|
    && forall i | 0 <= i < |rows| ::
         ps[i] < |file| && rows[i] == Made(user, options, companies, rules, defaults, file[ps[i]])
  }

  lemma MadeAreSaves(user: int, options: FileOptions, companies: seq<Company>, rules: C.Rules, defaults: C.Companies,
                     file: seq<Parsed>, ps: seq<nat>, rows: seq<Saved>)
    requires MadeOf(user, options, companies, rules, defaults, file, ps, rows)
    ensures SavesOf(user, file, ps, rows)
  {
  }

  /** Records counted a second time as uncategorised, before their categories are looked at. */
  function Precounted(options: FileOptions, created: nat): nat {
    if options.assignCategories || options.defaultCategory.Some? then 0 else created
  }

  /** The saved records and the ledger state beside them. */
  datatype Stock = Stock(rows: seq<Saved>, ledger: L.State)

  /** What stays the same from file to file. */
  datatype Setting = Setting(user: int, options: FileOptions, companies: seq<Company>, rules: C.Rules, defaults: C.Companies)

  /** The records a file adds. */
  function Added(rows: seq<Saved>, g: Setting, file: seq<Parsed>): (out: seq<Saved>)
    ensures |out| == |Chosen(rows, g.user, file, g.options)|
  {
    var chosen := Chosen(rows, g.user, file, g.options);
    ChosenInFile(rows, g.user, file, g.options);
    seq(|chosen|, i requires 0 <= i < |chosen| =>
      assert chosen[i] in chosen;
      Made(g.user, g.options, g.companies, g.rules, g.defaults, file[chosen[i]]))
  }

  lemma MadeIsAdded(rows: seq<Saved>, g: Setting, file: seq<Parsed>, created: seq<Saved>)
    requires MadeOf(g.user, g.options, g.companies, g.rules, g.defaults, file, Chosen(rows, g.user, file, g.options), created)
    ensures created == Added(rows, g, file)
  {
    hide Made, Chosen;
  }

  /** The number reported as uncategorised, some counted twice. */
  function Reported(options: FileOptions, created: seq<Saved>): nat {
    Uncategorized(created) + Precounted(options, |created|)
  }

  /** How a file ends: without movements or refused by the ledger it fails, otherwise it is counted. */
  function Outcome(s: Stock, g: Setting, file: seq<Parsed>, now: int): Result<Counts, FileError> {
    if file == [] then Err(NoTransactions)
    else if L.Do(s.ledger, Batch(s.rows, g.user, file, g.options), now).Err? then Err(Refused)
    else
      var created := Added(s.rows, g, file);
      ChosenInFile(s.rows, g.user, file, g.options);
      Ok(Counts(|file|, |created|, |file| - |created|, Reported(g.options, created)))
  }

  /** What a file leaves behind. */
  function StockAfter(s: Stock, g: Setting, file: seq<Parsed>, now: int): Stock {
    match Outcome(s, g, file, now)
    case Err(_) => s
    case Ok(_) =>
      Stock(s.rows + Added(s.rows, g, file), L.Do(s.ledger, Batch(s.rows, g.user, file, g.options), now).value)
  }

  class ImportLedger {
    var rows: seq<Saved>
    var rules: C.Rules
    var defaults: C.Companies
    var ledger: L.State

    constructor (rules: C.Rules, defaults: C.Companies, ledger: L.State)
      ensures rows == [] && this.rules == rules && this.defaults == defaults && this.ledger == ledger
    {
      rows, this.rules, this.defaults, this.ledger := [], rules, defaults, ledger;
    }

    /** The deduplication loop: positions to save and the number of skipped movements. */
    method Deduplicate(prints: seq<string>, existing: set<string>) returns (ps: seq<nat>, skipped: nat)
      ensures ps == NewPositions(prints, existing, |prints|)
      ensures skipped + |ps| == |prints|
    {
      var seen: set<string> := {};
      ps, skipped := [], 0;
      for i := 0 to |prints|
        invariant ps == NewPositions(prints, existing, i) && skipped + |ps| == i
        invariant forall s :: s in seen || s in existing <==> s in existing || s in prints[..i]
      {
        if prints[i] in existing || prints[i] in seen {
          skipped := skipped + 1;
        } else {
          seen := seen + {prints[i]};
          ps := ps + [i];
        }
      }
    }

    /** Batch creation of the chosen movements. */
    method Save(user: int, file: seq<Parsed>, ps: seq<nat>, options: FileOptions, companies: seq<Company>)
      returns (created: seq<Saved>)
      requires forall p | p in ps :: p < |file|
      modifies this`rows
      ensures rows == old(rows) + created
      ensures MadeOf(user, options, companies, rules, defaults, file, ps, created)
    {
      created := [];
      for i := 0 to |ps|
        modifies {}
        invariant MadeOf(user, options, companies, rules, defaults, file, ps[..i], created)
      {
        assert ps[i] in ps;
        created := created + [Made(user, options, companies, rules, defaults, file[ps[i]])];
      }
      assert ps[..|ps|] == ps;
      rows := rows + created;
    }

    /** The number of created records that have no category. */
    method CountUncategorized(created: seq<Saved>) returns (n: nat)
      ensures n == Uncategorized(created)
    {
      n := 0;
      for i := 0 to |created|
        invariant n == Uncategorized(created[..i])
      {
        assert created[..i + 1][..i] == created[..i];
        if created[i].entry.category.None? {
          n := n + 1;
        }
      }
      assert created[..|created|] == created;
    }

    /** The body of `processFile` after parsing. */
    method Process(user: int, file: seq<Parsed>, options: FileOptions, companies: seq<Company>, now: int)
      returns (r: Result<Counts, FileError>)
      modifies this`rows, this`ledger
      ensures var g, s := Setting(user, options, companies, rules, defaults), old(Stock(rows, ledger));
        r == Outcome(s, g, file, now) && Stock(rows, ledger) == StockAfter(s, g, file, now)
    {
      hide Made, NewAt, Known, MadeOf, Precounted;
      if file == [] {
        return Err(NoTransactions);
      }
      ghost var g := Setting(user, options, companies, rules, defaults);
      ChosenInFile(rows, user, file, options);
      var ps, skipped := Deduplicate(Prints(file), Known(rows, user, file, options));
      if ps == [] {
        NothingAdded(rows, g, file, now, ledger);
        return Ok(Counts(|file|, 0, skipped, 0));
      }
      var outcome := L.Do(ledger, Batch(rows, user, file, options), now);
      if outcome.Err? {
        return Err(Refused);
      }
      ledger := outcome.value;
      var created := Save(user, file, ps, options, companies);
      MadeIsAdded(old(rows), g, file, created);
      var uncategorized := CountUncategorized(created);
      return Ok(Counts(|file|, |created|, skipped, uncategorized + Precounted(options, |ps|)));
    }

    /** `processFile` after parsing. */
    method ProcessFile(user: int, file: seq<Parsed>, options: FileOptions, companies: seq<Company>, now: int)
      returns (r: Result<Counts, FileError>)
      modifies this`rows, this`ledger
      ensures var g, s := Setting(user, options, companies, rules, defaults), old(Stock(rows, ledger));
        r == Outcome(s, g, file, now) && Stock(rows, ledger) == StockAfter(s, g, file, now)
      ensures r == Err(NoTransactions) <==> file == []
      ensures r == Err(Refused) <==>
                file != [] && L.Do(old(ledger), Batch(old(rows), user, file, options), now).Err?
      ensures r.Err? ==> rows == old(rows) && ledger == old(ledger)
      ensures r.Ok? ==> L.Do(old(ledger), Batch(old(rows), user, file, options), now) == Ok(ledger)
      ensures r.Ok? ==>
                var chosen := Chosen(old(rows), user, file, options);
                && old(rows) <= rows
                && MadeOf(user, options, companies, rules, defaults, file, chosen, rows[|old(rows)|..])
                && r.value.parsed == |file| && r.value.created == |chosen|
                && r.value.parsed == r.value.created + r.value.skipped
      // The reported number of uncategorised records is right exactly when it was not counted twice.
      ensures r.Ok? ==>
                var created := rows[|old(rows)|..];
                && (r.value.uncategorized == Uncategorized(created) <==>
                      options.assignCategories || options.defaultCategory.Some? || created == [])
                && (!options.assignCategories && options.defaultCategory.None? &&
                    (forall c | c in created :: c.entry.category.None?) ==>
                      r.value.uncategorized == 2 * r.value.created)
    {
      hide Made, Known, Chosen, MadeOf, Precounted, Reported, Added, Uncategorized;
      ghost var g, s := Setting(user, options, companies, rules, defaults), Stock(rows, ledger);
      r := Process(user, file, options, companies, now);
      AddedIs(s.rows, g, file);
      if r.Ok? {
        assert rows[|s.rows|..] == Added(s.rows, g, file);
        ChosenInFile(s.rows, user, file, options);
        ReportedIs(options, Added(s.rows, g, file));
      }
    }
  }

  lemma NothingAdded(rows: seq<Saved>, g: Setting, file: seq<Parsed>, now: int, ledger: L.State)
    requires Chosen(rows, g.user, file, g.options) == [] && file != []
    ensures var s := Stock(rows, ledger);
      Outcome(s, g, file, now) == Ok(Counts(|file|, 0, |file|, 0)) && StockAfter(s, g, file, now) == s
  {
    assert Added(rows, g, file) == [] && rows + [] == rows;
  }

  lemma AddedIs(rows: seq<Saved>, g: Setting, file: seq<Parsed>)
    ensures MadeOf(g.user, g.options, g.companies, g.rules, g.defaults, file, Chosen(rows, g.user, file, g.options),
                   Added(rows, g, file))
  {
    hide Made, Chosen;
    ChosenInFile(rows, g.user, file, g.options);
    var chosen := Chosen(rows, g.user, file, g.options);
    forall i | 0 <= i < |chosen|
      ensures chosen[i] in chosen
    {
    }
  }

  lemma ReportedIs(options: FileOptions, created: seq<Saved>)
    ensures Reported(options, created) == Uncategorized(created) <==>
              options.assignCategories || options.defaultCategory.Some? || created == []
    ensures !options.assignCategories && options.defaultCategory.None?
            && (forall c | c in created :: c.entry.category.None?) ==>
              Reported(options, created) == 2 * |created|
  {
    if forall c | c in created :: c.entry.category.None? {
      AllUncategorized(created);
    }
  }

  /**
   * The record of a movement is live, the user's and outside transfers, with the text of the
   * movement. A default category of the job wins, else a rule for the text if categories are
   * to be assigned, else the default category of the company: the one the job names or, if
   * companies are to be captured, the first that the text resembles.
   */
  lemma MadeIs(user: int, options: FileOptions, companies: seq<Company>, rules: C.Rules, defaults: C.Companies, p: Parsed)
    ensures var e := Made(user, options, companies, rules, defaults, p).entry;
      var key, found := C.RuleKey(user, Normalize(p.description)), MatchCompany(companies, p.description);
      var known := options.assignCategories && key.normalized != "" && key in rules;
      && e.user == user && e.description == p.description && !e.leg && !e.deleted
      && (options.defaultCompany.Some? ==> e.company == options.defaultCompany)
      && (options.defaultCompany.None? ==> e.company == if options.captureCompanies then found else None)
      && (e.status == C.Categorized <==> e.category.Some?)
      && (options.defaultCategory.Some? ==> e.category == options.defaultCategory && e.subcategory.None?)
      && (options.defaultCategory.None? && known ==>
            e.category == Some(rules[key].category) && e.subcategory == rules[key].subcategory)
      && (options.defaultCategory.None? && !known ==>
            e.category == if e.company.Some? && C.CompanyKey(user, e.company.value) in defaults
                          then defaults[C.CompanyKey(user, e.company.value)] else None)
  {
  }

  // ---- What the ledger makes of a file ----------------------------------------------------

  function Signed(m: Parsed): int {
    if m.kind == L.Income then m.amount else 0 - m.amount
  }

  /** Income less everything else, over the chosen positions. */
  function Total(file: seq<Parsed>, ps: seq<nat>): int
    requires forall p | p in ps :: p < |file|
  {
    if ps == [] then 0
    else
      var init, last := ps[..|ps| - 1], ps[|ps| - 1];
      assert last in ps && forall p | p in init :: p in ps;
      Total(file, init) + Signed(file[last])
  }

  lemma {:induction false} DraftsMove(user: int, file: seq<Parsed>, ps: seq<nat>, options: FileOptions, id: int)
    requires forall p | p in ps :: p < |file|
    ensures L.LinkSum(L.ToRecords(user, Drafts(file, ps, options)), L.Key(L.Account, id)) ==
            if options.account == Some(id) then Total(file, ps) else 0
  {
    var k := L.Key(L.Account, id);
    var rs := L.ToRecords(user, Drafts(file, ps, options));
    if ps != [] {
      var init, last := ps[..|ps| - 1], ps[|ps| - 1];
      assert last in ps && forall p | p in init :: p in ps;
      DraftsMove(user, file, init, options, id);
      var record := Booked(options, file[last]).ToRecord(user);
      assert rs == L.ToRecords(user, Drafts(file, init, options)) + [record];
      LedgerSums.LinkSumAppend(L.ToRecords(user, Drafts(file, init, options)), [record], k);
      LedgerSums.SumsOfOne(record, k);
    }
  }

  /** Sum of the amounts over the chosen positions. */
  function Volume(file: seq<Parsed>, ps: seq<nat>): nat
    requires forall p | p in ps :: p < |file|
  {
    if ps == [] then 0
    else
      var init, last := ps[..|ps| - 1], ps[|ps| - 1];
      assert last in ps && forall p | p in init :: p in ps;
      Volume(file, init) + file[last].amount
  }

  lemma {:induction false} DraftsBook(user: int, file: seq<Parsed>, ps: seq<nat>, options: FileOptions, k: L.Key)
    requires k.kind != L.Account && forall p | p in ps :: p < |file|
    ensures L.LinkSum(L.ToRecords(user, Drafts(file, ps, options)), k) ==
            if k.kind == L.Liability && options.liability == Some(k.id) then 0 - Volume(file, ps) else 0
  {
    var rs := L.ToRecords(user, Drafts(file, ps, options));
    if ps != [] {
      var init, last := ps[..|ps| - 1], ps[|ps| - 1];
      assert last in ps && forall p | p in init :: p in ps;
      DraftsBook(user, file, init, options, k);
      var record := Booked(options, file[last]).ToRecord(user);
      assert rs == L.ToRecords(user, Drafts(file, init, options)) + [record];
      LedgerSums.LinkSumAppend(L.ToRecords(user, Drafts(file, init, options)), [record], k);
      LedgerSums.SumsOfOne(record, k);
    }
  }

  /** Besides the account, the batch of a file takes its amounts off the linked liability and moves nothing else. */
  lemma BatchMovesOthers(s: L.State, user: int, file: seq<Parsed>, ps: seq<nat>, options: FileOptions, now: int, k: L.Key)
    requires (forall p | p in ps :: p < |file|) && k in s.rows && k.kind != L.Account
    requires L.Do(s, L.CreateMany(user, Drafts(file, ps, options)), now).Ok?
    ensures var rows := L.Do(s, L.CreateMany(user, Drafts(file, ps, options)), now).value.rows;
      k in rows && rows[k].balance == s.rows[k].balance -
        if k.kind == L.Liability && options.liability == Some(k.id) then Volume(file, ps) else 0
  {
    DraftsBook(user, file, ps, options, k);
  }

  /**
   * The ledger refuses the batch of a file exactly when the linked account is live, the
   * movements do not cancel out and the account would end below zero; otherwise the account
   * moves by their total.
   */
  lemma BatchAcceptedIff(s: L.State, user: int, file: seq<Parsed>, ps: seq<nat>, options: FileOptions, now: int)
    requires forall p | p in ps :: p < |file|
    ensures var c, total := L.CreateMany(user, Drafts(file, ps, options)), Total(file, ps);
      var k := L.Key(L.Account, if options.account.Some? then options.account.value else 0);
      var live := options.account.Some? && k in s.rows;
      && (L.Do(s, c, now).Err? <==> live && total != 0 && s.rows[k].balance + total < 0)
      && (live && L.Do(s, c, now).Ok? ==>
            k in L.Do(s, c, now).value.rows && L.Do(s, c, now).value.rows[k].balance == s.rows[k].balance + total)
  {
    var drafts := Drafts(file, ps, options);
    forall id: int
      ensures L.Net([], L.ToRecords(user, drafts), L.Key(L.Account, id)) ==
              if options.account == Some(id) then Total(file, ps) else 0
    {
      DraftsMove(user, file, ps, options, id);
    }
  }

  lemma {:induction false} AllUncategorized(created: seq<Saved>)
    requires forall r | r in created :: r.entry.category.None?
    ensures Uncategorized(created) == |created|
  {
    if created != [] {
      assert forall r | r in created[..|created| - 1] :: r in created;
      assert created[|created| - 1] in created;
      AllUncategorized(created[..|created| - 1]);
    }
  }

  // ---- Main results ----------------------------------------------------------------------

  /**
   * Looking only at the dates of the file loses nothing: a movement counts as known
   * exactly when the user has a live record with its date, amount and normalised text.
   */
  lemma KnownIffLive(rows: seq<Saved>, user: int, file: seq<Parsed>, p: Parsed)
    requires p in file && '|' !in p.date && forall r | r in rows :: '|' !in r.movement.date
    ensures p.Print() in Existing(rows, user, Dates(file)) <==>
            exists r :: r in rows && r.entry.user == user && !r.entry.deleted && SameMovement(r.movement, p)
  {
    forall r | r in rows ensures r.movement.Print() == p.Print() <==> SameMovement(r.movement, p) {
      FingerprintInjective(r.movement.date, r.movement.amount, r.movement.description, p.date, p.amount, p.description);
    }
    if r :| r in rows && r.LiveOf(user) && SameMovement(r.movement, p) {
      assert r.movement.date in Dates(file);
    }
  }

  predicate SameMovement(a: Parsed, b: Parsed) {
    a.date == b.date && a.amount == b.amount && Normalize(a.description) == Normalize(b.description)
  }

  lemma PrintExists(rows: seq<Saved>, user: int, file: seq<Parsed>, r: Saved)
    requires r in rows && r.LiveOf(user) && r.movement.date in Dates(file)
    ensures r.movement.Print() in Existing(rows, user, Dates(file))
  {
  }

  /** A larger table knows at least as many fingerprints. */
  lemma ExistingGrows(before: seq<Saved>, after: seq<Saved>, user: int, dates: set<string>)
    requires before <= after
    ensures Existing(before, user, dates) <= Existing(after, user, dates)
  {
    forall s | s in Existing(before, user, dates) ensures s in Existing(after, user, dates) {
      var r :| r in before && r.LiveOf(user) && r.movement.date in dates && r.movement.Print() == s;
      assert r in after;
    }
  }

  /** The record made of a chosen position is found again. */
  lemma SavedPrintExists(after: seq<Saved>, saved: seq<Saved>, user: int, file: seq<Parsed>, ps: seq<nat>, p: nat)
    requires SavesOf(user, file, ps, saved) && p in ps && p < |file| && forall r | r in saved :: r in after
    ensures Prints(file)[p] in Existing(after, user, Dates(file))
  {
    var k :| 0 <= k < |ps| && ps[k] == p;
    assert saved[k] in saved && file[p] in file;
    PrintExists(after, user, file, saved[k]);
  }

  /** Every print of a list is known afterwards when the old ones stay known and the new ones became known. */
  lemma AllPrintsKnown(prints: seq<string>, known: set<string>, again: set<string>)
    requires known <= again
    requires forall p: nat | p < |prints| && p in NewPositions(prints, known, |prints|) :: prints[p] in again
    ensures forall i | 0 <= i < |prints| :: prints[i] in again
  {
    forall i | 0 <= i < |prints| && prints[i] !in known ensures prints[i] in again {
      EveryPrintCovered(prints, known, |prints|, i);
    }
  }

  /** After a file was imported, importing it again with duplicates skipped creates nothing. */
  lemma ReimportCreatesNothing(before: seq<Saved>, after: seq<Saved>, user: int, file: seq<Parsed>, options: FileOptions,
                               companies: seq<Company>, rules: C.Rules, defaults: C.Companies)
    requires options.skipDuplicates && before <= after
    requires MadeOf(user, options, companies, rules, defaults, file, Chosen(before, user, file, options), after[|before|..])
    ensures Chosen(after, user, file, options) == []
  {
    MadeAreSaves(user, options, companies, rules, defaults, file, Chosen(before, user, file, options), after[|before|..]);
    hide MadeOf, NewAt;
    var prints, known := Prints(file), Existing(before, user, Dates(file));
    var again := Existing(after, user, Dates(file));
    ExistingGrows(before, after, user, Dates(file));
    forall p: nat | p < |prints| && p in NewPositions(prints, known, |prints|) ensures prints[p] in again {
      SavedPrintExists(after, after[|before|..], user, file, NewPositions(prints, known, |prints|), p);
    }
    AllPrintsKnown(prints, known, again);
    NothingNew(prints, again, |file|);
  }

  /**
   * A movement of the file becomes a record exactly when it is no repetition of an earlier one
   * of the file and, where duplicates are skipped, no live record of the user is that movement.
   */
  lemma ChosenIff(rows: seq<Saved>, user: int, file: seq<Parsed>, options: FileOptions, p: nat)
    requires p < |file| && '|' !in file[p].date
    requires (forall r | r in rows :: '|' !in r.movement.date) && forall q | q in file :: '|' !in q.date
    ensures p in Chosen(rows, user, file, options) <==>
            && (forall j | 0 <= j < p :: !SameMovement(file[j], file[p]))
            && (options.skipDuplicates ==>
                  forall r | r in rows && r.entry.user == user && !r.entry.deleted :: !SameMovement(r.movement, file[p]))
  {
    NewPositionsAre(Prints(file), Known(rows, user, file, options), |file|);
    KnownIffLive(rows, user, file, file[p]);
    var prints := Prints(file);
    forall j | 0 <= j < p
      ensures prints[j] == prints[p] <==> SameMovement(file[j], file[p])
    {
      assert file[j] in file;
      FingerprintInjective(file[j].date, file[j].amount, file[j].description,
                           file[p].date, file[p].amount, file[p].description);
    }
    hide SameMovement;
    assert prints[p] in prints[..p] <==> exists j :: 0 <= j < p && prints[j] == prints[p];
  }

  /** The ledger gets one record for each record added, with its amount and side, on the account and liability of the job. */
  lemma LedgerMatchesRecords(s: Stock, g: Setting, file: seq<Parsed>, now: int, i: nat)
    requires Outcome(s, g, file, now).Ok? && i < |Added(s.rows, g, file)|
    ensures var next, row := StockAfter(s, g, file, now), Added(s.rows, g, file)[i];
      && |next.ledger.records| == |s.ledger.records| + |Added(s.rows, g, file)|
      && next.ledger.records[|s.ledger.records| + i] ==
           L.Record(g.user, row.movement.kind, row.movement.amount, None, g.options.account, None, g.options.liability,
                    None, None, None, false)
  {
    hide Made, L.Affordable, L.Posted;
    ChosenInFile(s.rows, g.user, file, g.options);
    assert Chosen(s.rows, g.user, file, g.options)[i] in Chosen(s.rows, g.user, file, g.options);
    MadeMovement(g, file[Chosen(s.rows, g.user, file, g.options)[i]]);
    hide Chosen;
  }

  lemma MadeMovement(g: Setting, p: Parsed)
    ensures Made(g.user, g.options, g.companies, g.rules, g.defaults, p).movement == p
  {
  }

  /** No two of the records made of a file are the same movement, and none was known. */
  lemma CreatedAreDistinct(before: seq<Saved>, created: seq<Saved>, user: int, file: seq<Parsed>, options: FileOptions,
                           companies: seq<Company>, rules: C.Rules, defaults: C.Companies, i: nat, j: nat)
    requires MadeOf(user, options, companies, rules, defaults, file, Chosen(before, user, file, options), created)
    requires i < j < |created|
    ensures !SameMovement(created[i].movement, created[j].movement)
    ensures created[i].movement.Print() !in Known(before, user, file, options)
  {
    MadeAreSaves(user, options, companies, rules, defaults, file, Chosen(before, user, file, options), created);
    hide SameMovement, NewAt, Known, NewPositions;
    var prints, known := Prints(file), Known(before, user, file, options);
    var chosen := Chosen(before, user, file, options);
    NewPositionsAre(prints, known, |file|);
    assert chosen[i] in chosen && chosen[j] in chosen;
    NewPrintsDistinct(prints, known, |file|, chosen[i], chosen[j]);
    if SameMovement(created[i].movement, created[j].movement) {
      SamePrint(created[i].movement, created[j].movement);
    }
  }

  lemma SamePrint(a: Parsed, b: Parsed)
    requires SameMovement(a, b)
    ensures a.Print() == b.Print()
  {
  }

  /** From position `n` on, no live record of the user is the same movement as an earlier one. */
  predicate NothingTwice(rows: seq<Saved>, n: nat, user: int) {
    forall i, j | 0 <= i < j < |rows| && n <= j ::
      && rows[i].entry.user == user && !rows[i].entry.deleted
      && rows[j].entry.user == user && !rows[j].entry.deleted ==>
        !SameMovement(rows[i].movement, rows[j].movement)
  }

  /** A record made of a file is not a movement of an earlier live record. */
  lemma CreatedIsNew(before: seq<Saved>, created: seq<Saved>, user: int, file: seq<Parsed>, options: FileOptions,
                     companies: seq<Company>, rules: C.Rules, defaults: C.Companies, i: nat, j: nat)
    requires MadeOf(user, options, companies, rules, defaults, file, Chosen(before, user, file, options), created)
    requires options.skipDuplicates && i < |before| && before[i].LiveOf(user) && j < |created|
    ensures !SameMovement(before[i].movement, created[j].movement)
  {
    MadeAreSaves(user, options, companies, rules, defaults, file, Chosen(before, user, file, options), created);
    hide NewAt, NewPositions, MadeOf;
    var chosen := Chosen(before, user, file, options);
    NewPositionsAre(Prints(file), Known(before, user, file, options), |file|);
    assert chosen[j] in chosen && NewAt(Prints(file), Known(before, user, file, options), chosen[j]);
    ChosenIsUnknown(before, user, file, options, chosen[j]);
    assert before[i] in before && file[chosen[j]] in file;
    if before[i].movement.date in Dates(file) {
      PrintExists(before, user, file, before[i]);
    }
    if SameMovement(before[i].movement, created[j].movement) {
      SamePrint(before[i].movement, created[j].movement);
    }
  }

  lemma ChosenIsUnknown(before: seq<Saved>, user: int, file: seq<Parsed>, options: FileOptions, p: nat)
    requires p < |file| && NewAt(Prints(file), Known(before, user, file, options), p)
    ensures file[p].Print() !in Known(before, user, file, options)
  {
  }

  /** Importing one more file makes no movement a second time. */
  lemma FileAddsNothingTwice(before: seq<Saved>, created: seq<Saved>, user: int, file: seq<Parsed>, options: FileOptions,
                             companies: seq<Company>, rules: C.Rules, defaults: C.Companies, n: nat)
    requires MadeOf(user, options, companies, rules, defaults, file, Chosen(before, user, file, options), created)
    requires options.skipDuplicates && NothingTwice(before, n, user)
    ensures NothingTwice(before + created, n, user)
  {
    hide MadeOf, SameMovement, Chosen;
    var rows := before + created;
    forall i, j | 0 <= i < j < |rows| && n <= j && rows[i].LiveOf(user) && rows[j].LiveOf(user)
      ensures !SameMovement(rows[i].movement, rows[j].movement)
    {
      if i >= |before| {
        CreatedAreDistinct(before, created, user, file, options, companies, rules, defaults, i - |before|, j - |before|);
      } else if j >= |before| {
        CreatedIsNew(before, created, user, file, options, companies, rules, defaults, i, j - |before|);
      }
    }
  }
}
