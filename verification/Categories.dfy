/** Automatic categorisation: learnt rules, company defaults and the batch caches. */
module Categories {
  import opened Options
  import opened Fingerprints

  datatype Status = Categorized | Pending

  /** The columns of a transaction record that decide or hold its category; `leg` marks transfer legs. */
  datatype Record = Record(
    user: int, description: string, company: Option<int>,
    category: Option<int>, subcategory: Option<int>, status: Status, leg: bool, deleted: bool)
  {
    /** A record outside transfers is CATEGORIZED exactly when it has a category. */
    predicate Tagged() {
      !leg ==> (status == Categorized <==> category.Some?)
    }
  }

  datatype Rule = Rule(category: int, subcategory: Option<int>)
  datatype RuleKey = RuleKey(user: int, normalized: string)
  datatype CompanyKey = CompanyKey(user: int, id: int)

  type Rules = map<RuleKey, Rule>
  /** Default category of each live company. */
  type Companies = map<CompanyKey, Option<int>>

  // ---- Direct lookups --------------------------------------------------------------------

  /** What a found or missing rule does to a record. */
  function ApplyRule(r: Record, rule: Option<Rule>): Record {
    match rule
    case Some(x) => r.(category := Some(x.category), subcategory := x.subcategory, status := Categorized)
    case None => r.(category := None, status := Pending)
  }

  function FindRule(rules: Rules, user: int, normalized: string): Option<Rule> {
    if normalized != "" && RuleKey(user, normalized) in rules then Some(rules[RuleKey(user, normalized)]) else None
  }

  /** `applyAutoCategory` without preloaded rules. */
  function AutoCategory(rules: Rules, r: Record, explicit: Option<int>): Record {
    if explicit.Some? then r.(category := explicit, status := Categorized)
    else ApplyRule(r, FindRule(rules, r.user, Normalize(r.description)))
  }

  function CompanyDefault(companies: Companies, user: int, id: int): Option<int> {
    if CompanyKey(user, id) in companies then companies[CompanyKey(user, id)] else None
  }

  function WithDefault(r: Record, default: Option<int>): Record {
    if default.Some? then r.(category := default, status := Categorized) else r
  }

  /** The company's default category, when nothing else gave one. */
  function WithCompany(companies: Companies, r: Record): Record {
    if r.category.None? && r.company.Some? then WithDefault(r, CompanyDefault(companies, r.user, r.company.value))
    else r
  }

  function Direct(rules: Rules, companies: Companies, r: Record, explicit: Option<int>): Record {
    WithCompany(companies, AutoCategory(rules, r, explicit))
  }

  /** One record of a batch, by direct lookups. */
  function BatchOne(rules: Rules, companies: Companies, r: Record, assign: bool): Record {
    if assign then Direct(rules, companies, r, r.category)
    else WithCompany(companies, r.(status := if r.category.None? then Pending else Categorized))
  }

  /** `upsertRule`. */
  function Learnt(rules: Rules, user: int, normalized: string, rule: Rule): Rules {
    rules[RuleKey(user, normalized) := rule]
  }

  /** `learnRule` of `create`: only explicit categories with a description teach. */
  function AfterCreate(rules: Rules, r: Record): Rules {
    if r.category.Some? && Normalize(r.description) != "" then
      Learnt(rules, r.user, Normalize(r.description), Rule(r.category.value, r.subcategory))
    else rules
  }

  datatype Patch = Patch(
    description: Option<string>, company: Option<Option<int>>,
    category: Option<Option<int>>, subcategory: Option<Option<int>>)
  {
    function Merge(r: Record): Record {
      r.(description := if description.Some? then description.value else r.description,
         company := if company.Some? then company.value else r.company,
         category := if category.Some? then category.value else r.category,
         subcategory := if subcategory.Some? then subcategory.value else r.subcategory)
    }

    /** `fields.category_id ?? previous.category_id`. */
    function NewCategory(previous: Record): Option<int> {
      if category.Some? && category.value.Some? then category.value else previous.category
    }

    function NewSubcategory(previous: Record): Option<int> {
      if subcategory.Some? && subcategory.value.Some? then subcategory.value else previous.subcategory
    }
  }

  /** What a clone request may change. */
  datatype Overrides = Overrides(description: Option<string>, category: Option<int>, company: Option<int>)
  {
    function Copy(r: Record): Record {
      r.(description := if description.Some? then description.value else r.description,
         category := if category.Some? then category else r.category,
         company := if company.Some? then company else r.company)
    }
  }

  /** Records the chained update reaches: same user, live, lower-cased description equal to the normal form. */
  predicate Similar(r: Record, user: int, normalized: string) {
    r.user == user && !r.deleted && LowerAll(r.description) == normalized
  }

  /** An update that assigns or keeps a category teaches its rule. */
  predicate Teaches(previous: Record, p: Patch) {
    p.NewCategory(previous).Some? && Normalize(p.Merge(previous).description) != ""
  }

  function RulesAfterUpdate(rules: Rules, previous: Record, p: Patch): Rules {
    if Teaches(previous, p) then
      Learnt(rules, previous.user, Normalize(p.Merge(previous).description),
             Rule(p.NewCategory(previous).value, p.NewSubcategory(previous)))
    else rules
  }

  /** Another record after an update with `apply_to_similar`. */
  function Chained(r: Record, previous: Record, p: Patch, similar: bool): Record {
    if similar && Teaches(previous, p) && Similar(r, previous.user, Normalize(p.Merge(previous).description)) then
      r.(category := p.NewCategory(previous), subcategory := p.NewSubcategory(previous), status := Categorized)
    else r
  }

  predicate AllTagged(rs: seq<Record>) {
    forall r | r in rs :: r.Tagged()
  }

  // ---- The repository --------------------------------------------------------------------

  class CategoryStore {
    var records: seq<Record>
    var rules: Rules
    var companies: Companies

    constructor (companies: Companies)
      ensures records == [] && rules == map[] && this.companies == companies
    {
      records, rules, this.companies := [], map[], companies;
    }

    /** `create`. */
    method Create(r: Record)
      requires !r.leg
      modifies this
      ensures records == old(records) + [Direct(old(rules), old(companies), r, r.category)]
      ensures rules == AfterCreate(old(rules), r) && companies == old(companies)
      ensures old(AllTagged(records)) ==> AllTagged(records)
    {
      var saved := AutoCategory(rules, r, r.category);
      if saved.category.None? && saved.company.Some? {
        var default := CompanyDefault(companies, r.user, saved.company.value);
        if default.Some? {
          saved := saved.(category := default, status := Categorized);
        }
      }
      if r.category.Some? {
        var normalized := Normalize(r.description);
        if normalized != "" {
          rules := Learnt(rules, r.user, normalized, Rule(r.category.value, r.subcategory));
        }
      }
      records := records + [saved];
    }

    /** Rules for the descriptions of the records without category, loaded once. */
    method Preload(user: int, batch: seq<Record>) returns (preloaded: map<string, Rule>)
      ensures forall s | s in preloaded :: FindRule(rules, user, s) == Some(preloaded[s])
    {
      preloaded := map[];
      for i := 0 to |batch|
        invariant forall s | s in preloaded :: FindRule(rules, user, s) == Some(preloaded[s])
      {
        if batch[i].category.None? {
          var normalized := Normalize(batch[i].description);
          var rule := FindRule(rules, user, normalized);
          if rule.Some? {
            preloaded := preloaded[normalized := rule.value];
          }
        }
      }
    }

    /** The categorisation loop of `createMany`, with the preloaded rules. */
    method CategorizeBatch(user: int, batch: seq<Record>, assign: bool) returns (out: seq<Record>)
      requires forall r | r in batch :: r.user == user
      ensures |out| == |batch|
      ensures forall i | 0 <= i < |batch| ::
                out[i] == if assign then AutoCategory(rules, batch[i], batch[i].category)
                          else batch[i].(status := if batch[i].category.None? then Pending else Categorized)
    {
      out := [];
      var preloaded: map<string, Rule> := map[];
      if assign {
        preloaded := Preload(user, batch);
      }
      for i := 0 to |batch|
        invariant |out| == i
        invariant forall j | 0 <= j < i ::
                    out[j] == if assign then AutoCategory(rules, batch[j], batch[j].category)
                              else batch[j].(status := if batch[j].category.None? then Pending else Categorized)
      {
        var r := batch[i];
        assert r in batch;
        if !assign {
          r := r.(status := if r.category.None? then Pending else Categorized);
        } else if r.category.Some? {
          r := r.(status := Categorized);
        } else {
          var normalized := Normalize(r.description);
          if normalized in preloaded {
            r := ApplyRule(r, Some(preloaded[normalized]));
          } else {
            r := ApplyRule(r, FindRule(rules, r.user, normalized));
          }
        }
        out := out + [r];
      }
    }

    /** The company loop of `createMany`, with its cache of default categories. */
    method FillCompanies(user: int, batch: seq<Record>) returns (out: seq<Record>)
      requires forall r | r in batch :: r.user == user
      ensures |out| == |batch| && forall i | 0 <= i < |batch| :: out[i] == WithCompany(companies, batch[i])
    {
      out := [];
      var cache: map<int, Option<int>> := map[];
      for i := 0 to |batch|
        invariant |out| == i && forall j | 0 <= j < i :: out[j] == WithCompany(companies, batch[j])
        invariant forall id | id in cache :: cache[id] == CompanyDefault(companies, user, id)
      {
        var r := batch[i];
        assert r in batch;
        if r.category.None? && r.company.Some? {
          var id := r.company.value;
          if id !in cache {
            cache := cache[id := CompanyDefault(companies, user, id)];
          }
          r := WithDefault(r, cache[id]);
        }
        out := out + [r];
      }
    }

    /** `createMany`: every record gets what direct lookups would give it; no rule is learnt. */
    method CreateMany(user: int, batch: seq<Record>, assign: bool)
      requires forall r | r in batch :: r.user == user && !r.leg
      modifies this`records
      ensures |records| == |old(records)| + |batch| && records[..|old(records)|] == old(records)
      ensures forall i | 0 <= i < |batch| ::
                records[|old(records)| + i] == BatchOne(rules, companies, batch[i], assign)
      ensures old(AllTagged(records)) ==> AllTagged(records)
    {
      var categorized := CategorizeBatch(user, batch, assign);
      forall r | r in categorized ensures r.user == user {
        var i :| 0 <= i < |batch| && categorized[i] == r;
        assert batch[i] in batch;
      }
      var filled := FillCompanies(user, categorized);
      forall i | 0 <= i < |batch|
        ensures filled[i] == BatchOne(rules, companies, batch[i], assign) && filled[i].Tagged()
      {
        assert batch[i] in batch;
      }
      records := records + filled;
    }

    /** `update`, with the chained update of similar records. */
    method Update(user: int, id: nat, p: Patch, similar: bool) returns (found: bool)
      modifies this
      ensures found <==> id < |old(records)| && old(records)[id].user == user && !old(records)[id].deleted
      ensures !found ==> records == old(records) && rules == old(rules)
      ensures companies == old(companies)
      ensures found ==>
                var previous := old(records)[id];
                && rules == RulesAfterUpdate(old(rules), previous, p)
                && |records| == |old(records)|
                && records[id] == Direct(rules, companies, p.Merge(previous), p.NewCategory(previous))
                && forall j | 0 <= j < |records| && j != id :: records[j] == Chained(old(records)[j], previous, p, similar)
      ensures old(AllTagged(records)) ==> AllTagged(records)
    {
      if id >= |records| || records[id].user != user || records[id].deleted {
        return false;
      }
      var previous := records[id];
      var merged := p.Merge(previous);
      var category := p.NewCategory(previous);
      if category.Some? {
        var normalized := Normalize(merged.description);
        if normalized != "" {
          rules := Learnt(rules, user, normalized, Rule(category.value, p.NewSubcategory(previous)));
          if similar {
            for j := 0 to |records|
              invariant |records| == |old(records)| && rules == RulesAfterUpdate(old(rules), previous, p)
              invariant companies == old(companies)
              invariant forall i | 0 <= i < |records| ::
                          records[i] == if i < j && i != id then Chained(old(records)[i], previous, p, true)
                                        else old(records)[i]
            {
              if j != id && Similar(records[j], user, normalized) {
                records := records[j := records[j].(category := category, subcategory := p.NewSubcategory(previous),
                                                    status := Categorized)];
              }
            }
          }
        }
      }
      records := records[id := Direct(rules, companies, merged, category)];
      if old(AllTagged(records)) {
        forall i | 0 <= i < |records| ensures records[i].Tagged() {
          assert old(records)[i] in old(records);
        }
      }
      return true;
    }

    /** `clone`: description, category and company may be overridden; a leg is refused. */
    method Clone(user: int, id: nat, o: Overrides) returns (ok: bool)
      modifies this`records
      ensures ok <==> id < |old(records)| && old(records)[id].user == user && !old(records)[id].deleted
                      && !old(records)[id].leg
      ensures !ok ==> records == old(records)
      ensures ok ==>
                var copy := o.Copy(old(records)[id]);
                records == old(records) + [Direct(rules, companies, copy, copy.category)]
      ensures old(AllTagged(records)) ==> AllTagged(records)
    {
      if id >= |records| || records[id].user != user || records[id].deleted || records[id].leg {
        return false;
      }
      var copy := o.Copy(records[id]);
      var saved := AutoCategory(rules, copy, copy.category);
      if saved.category.None? && saved.company.Some? {
        saved := WithDefault(saved, CompanyDefault(companies, user, saved.company.value));
      }
      records := records + [saved];
      return true;
    }

    /** The two legs that a transfer, new or cloned, appends: marked CATEGORIZED without any category. */
    method AppendLegs(user: int, description: string, company: Option<int>)
      modifies this`records
      ensures var leg := Record(user, description, company, None, None, Categorized, true, false);
        records == old(records) + [leg, leg]
      ensures old(AllTagged(records)) ==> AllTagged(records)
    {
      var leg := Record(user, description, company, None, None, Categorized, true, false);
      records := records + [leg, leg];
    }

    /** Soft removal of some records. */
    method Remove(ids: set<nat>)
      modifies this`records
      ensures |records| == |old(records)|
      ensures forall i | 0 <= i < |records| ::
                records[i] == if i in ids then old(records)[i].(deleted := true) else old(records)[i]
      ensures old(AllTagged(records)) ==> AllTagged(records)
    {
      for n := 0 to |records|
        invariant |records| == |old(records)|
        invariant forall i | 0 <= i < |records| ::
                    records[i] == if i < n && i in ids then old(records)[i].(deleted := true) else old(records)[i]
      {
        if n in ids {
          records := records[n := records[n].(deleted := true)];
        }
      }
      if old(AllTagged(records)) {
        forall i | 0 <= i < |records|
          ensures records[i].Tagged()
        {
          assert old(records)[i] in old(records);
        }
      }
    }
  }

  // ---- Main results ----------------------------------------------------------------------

  /** `create` called on each record in turn: the rules each one sees and the records saved. */
  function InTurn(rules: Rules, companies: Companies, batch: seq<Record>): seq<Record>
    decreases |batch|
  {
    if batch == [] then []
    else
      [Direct(rules, companies, batch[0], batch[0].category)] +
      InTurn(AfterCreate(rules, batch[0]), companies, batch[1..])
  }

  /** The category of the learnt rule for a text, if there is one. */
  predicate HasRule(rules: Rules, user: int, description: string) {
    Normalize(description) != "" && RuleKey(user, Normalize(description)) in rules
  }

  /** The default category of a company, if there is one. */
  function DefaultOf(companies: Companies, user: int, company: Option<int>): Option<int> {
    if company.Some? && CompanyKey(user, company.value) in companies then companies[CompanyKey(user, company.value)]
    else None
  }

  /**
   * What categorisation makes of a record: a category given by hand stays, with the
   * subcategory the record has; else the rule for its text decides both; else the default of
   * its company gives the category. Nothing else of the record changes.
   */
  lemma DirectIs(rules: Rules, companies: Companies, r: Record, explicit: Option<int>)
    ensures var out := Direct(rules, companies, r, explicit);
      && out == r.(category := out.category, subcategory := out.subcategory, status := out.status)
      && (out.status == Categorized <==> out.category.Some?)
      && (explicit.Some? ==> out.category == explicit && out.subcategory == r.subcategory)
      && (explicit.None? && HasRule(rules, r.user, r.description) ==>
            var rule := rules[RuleKey(r.user, Normalize(r.description))];
            out.category == Some(rule.category) && out.subcategory == rule.subcategory)
      && (explicit.None? && !HasRule(rules, r.user, r.description) ==>
            out.category == DefaultOf(companies, r.user, r.company) && out.subcategory == r.subcategory)
  {
  }

  /**
   * What an update asks for: an absent field keeps the stored value and a present one
   * replaces it; but a category or subcategory taken away is kept for the categorisation.
   */
  lemma MergeIs(r: Record, p: Patch)
    ensures var m := p.Merge(r);
      && m == r.(description := m.description, company := m.company, category := m.category, subcategory := m.subcategory)
      && (p.description.None? ==> m.description == r.description) && (p.description.Some? ==> Some(m.description) == p.description)
      && (p.company.None? ==> m.company == r.company) && (p.company.Some? ==> Some(m.company) == p.company)
      && (p.category.None? ==> m.category == r.category) && (p.category.Some? ==> Some(m.category) == p.category)
      && (p.subcategory.None? ==> m.subcategory == r.subcategory) && (p.subcategory.Some? ==> Some(m.subcategory) == p.subcategory)
    ensures p.category.Some? && p.category.value.Some? ==> p.NewCategory(r) == p.category.value
    ensures p.category.None? || p.category.value.None? ==> p.NewCategory(r) == r.category
    ensures p.subcategory.Some? && p.subcategory.value.Some? ==> p.NewSubcategory(r) == p.subcategory.value
    ensures p.subcategory.None? || p.subcategory.value.None? ==> p.NewSubcategory(r) == r.subcategory
  {
  }

  /** A clone takes the fields given and keeps the others. */
  lemma CopyIs(r: Record, o: Overrides)
    ensures var c := o.Copy(r);
      && c == r.(description := c.description, category := c.category, company := c.company)
      && (o.description.None? ==> c.description == r.description) && (o.description.Some? ==> Some(c.description) == o.description)
      && (o.category.None? ==> c.category == r.category) && (o.category.Some? ==> c.category == o.category)
      && (o.company.None? ==> c.company == r.company) && (o.company.Some? ==> c.company == o.company)
  {
  }

  /** A creation with a category and a text teaches the rule of that text, and no other creation teaches any. */
  lemma CreationTeaches(rules: Rules, r: Record)
    ensures var after, key := AfterCreate(rules, r), RuleKey(r.user, Normalize(r.description));
      && (r.category.Some? && key.normalized != "" ==>
            key in after && after[key].category == r.category.value && after[key].subcategory == r.subcategory)
      && (r.category.None? || key.normalized == "" ==> after == rules)
      && forall k | k != key :: (k in after <==> k in rules) && (k in rules ==> after[k] == rules[k])
  {
  }

  /** An update that leaves a category and a text teaches the rule of that text. */
  lemma UpdateTeaches(rules: Rules, previous: Record, p: Patch)
    ensures var after := RulesAfterUpdate(rules, previous, p);
      var key, category := RuleKey(previous.user, Normalize(p.Merge(previous).description)), p.NewCategory(previous);
      && (category.Some? && key.normalized != "" ==>
            key in after && after[key] == Rule(category.value, p.NewSubcategory(previous)))
      && (category.None? || key.normalized == "" ==> after == rules)
      && forall k | k != key :: (k in after <==> k in rules) && (k in rules ==> after[k] == rules[k])
  {
  }

  /** The chained update changes a record exactly when it is asked for, something was taught, and the record is a live one of the user with that very text in lower case. */
  lemma ChainedIff(r: Record, previous: Record, p: Patch, similar: bool)
    ensures var out, category := Chained(r, previous, p, similar), p.NewCategory(previous);
      var normalized := Normalize(p.Merge(previous).description);
      if similar && category.Some? && normalized != "" && r.user == previous.user && !r.deleted
         && LowerAll(r.description) == normalized
      then out == r.(category := category, subcategory := p.NewSubcategory(previous), status := Categorized)
      else out == r
  {
  }

  /** Without explicit categories a batch categorises exactly like single creations. */
  lemma {:induction false} BatchMatchesInTurn(rules: Rules, companies: Companies, batch: seq<Record>, i: nat)
    requires i < |batch| && forall r | r in batch :: r.category.None?
    ensures |InTurn(rules, companies, batch)| == |batch|
    ensures InTurn(rules, companies, batch)[i] == BatchOne(rules, companies, batch[i], true)
    decreases |batch|
  {
    assert batch[0] in batch && forall r | r in batch[1..] :: r in batch;
    assert AfterCreate(rules, batch[0]) == rules;
    if |batch| > 1 {
      BatchMatchesInTurn(rules, companies, batch[1..], if i > 0 then i - 1 else 0);
    } else {
      assert batch[1..] == [];
    }
  }

  /**
   * A category given by hand is found again: after the update, any uncategorised record
   * whose description has the same normal form gets that category and subcategory.
   */
  lemma TaughtRuleIsFound(rules: Rules, companies: Companies, previous: Record, p: Patch, r: Record)
    requires Teaches(previous, p) && r.user == previous.user
    requires Normalize(r.description) == Normalize(p.Merge(previous).description)
    ensures var out := Direct(RulesAfterUpdate(rules, previous, p), companies, r, None);
            && out.category == p.NewCategory(previous) && out.status == Categorized
            && out.subcategory == p.NewSubcategory(previous)
  {
  }

  /**
   * The chained update reaches a record that the taught rule matches exactly when the
   * record's description is already single-spaced and trimmed.
   */
  lemma ChainedReachesIff(r: Record, previous: Record, p: Patch)
    requires Teaches(previous, p) && r.user == previous.user && !r.deleted
    requires Normalize(r.description) == Normalize(p.Merge(previous).description)
    ensures Similar(r, previous.user, Normalize(p.Merge(previous).description)) <==> Clean(LowerAll(r.description))
  {
    NormalizedIsClean(r.description);
    if Clean(LowerAll(r.description)) {
      CleanIsNormalized(LowerAll(r.description));
      LowerAllTwice(r.description);
    }
  }

  /** A record whose text starts with a blank is matched by the rule but missed by the chained update. */
  lemma ChainedMissesBlank()
    ensures exists previous: Record, p: Patch, r: Record ::
      && Teaches(previous, p) && r.user == previous.user && !r.deleted
      && Normalize(r.description) == Normalize(p.Merge(previous).description)
      && !Similar(r, previous.user, Normalize(p.Merge(previous).description))
  {
    var previous := Record(1, "a", None, None, None, Pending, false, false);
    var p := Patch(None, None, Some(Some(7)), None);
    var r := previous.(description := " a");
    OneLetter();
    assert p.Merge(previous).description == "a";
    assert Teaches(previous, p);
    assert !Clean(LowerAll(r.description)) by {
      assert LowerAll(" a")[0] == ' ' && IsSpace(' ');
    }
    ChainedReachesIff(r, previous, p);
  }

  lemma OneLetter()
    ensures Normalize("a") == "a" && Normalize(" a") == "a"
  {
    assert LowerAll("a") == "a" && LowerAll(" a") == " a";
    assert "a"[1..] == "" && " a"[1..] == "a";
    assert Collapsed("a", false) == "a" && Collapsed("a", true) == "a";
    assert Collapsed(" a", false) == " " + Collapsed("a", true);
    assert " " + "a" == " a";
    assert TrimLeft(" a") == TrimLeft("a") && TrimLeft("a") == "a" && TrimRight("a") == "a";
  }

  lemma LowerAllTwice(s: string)
    ensures LowerAll(LowerAll(s)) == LowerAll(s)
  {
    forall i | 0 <= i < |s| ensures LowerAll(LowerAll(s))[i] == LowerAll(s)[i] {
      LowerTwice(s[i]);
    }
  }
}
