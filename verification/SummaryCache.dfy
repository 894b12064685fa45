/** The generation-numbered cache of transaction summaries. */
module SummaryCache {
  import opened Options
  import opened Text
  import Amounts

  // ---- Keys ------------------------------------------------------------------------------

  /** A summary request with both dates stated. */
  datatype Query = Query(dateFrom: string, dateTo: string, groupBy: Option<string>, kind: Option<string>)
  {
    /** The parts the key and the computation see; the defaults are `day` and no type filter. */
    function Parts(): Canonical {
      Canonical(dateFrom, dateTo, if groupBy.Some? then groupBy.value else "day", if kind.Some? then kind.value else "")
    }

    /** No part contains the key separator: YYYY-MM-DD dates and enumeration values. */
    predicate Plain() {
      ':' !in Parts().dateFrom && ':' !in Parts().dateTo && ':' !in Parts().groupBy && ':' !in Parts().kind
    }
  }

  datatype Canonical = Canonical(dateFrom: string, dateTo: string, groupBy: string, kind: string)

  /** `summaryKey` with the generation suffix. */
  function SummaryKey(user: nat, q: Query, gen: nat): string {
    var p := q.Parts();
    "tx:summary:" + (Amounts.Digits(user) + ":" + (p.dateFrom + ":" + (p.dateTo + ":" + (p.groupBy + ":" +
      (p.kind + ":" + ("g" + Amounts.Digits(gen)))))))
  }

  function GenKey(user: nat): string {
    "tx:summary:" + ("gen" + ":" + Amounts.Digits(user))
  }

  /** A request without grouping means `day` and one without a type means all. */
  lemma PartsAre(q: Query)
    ensures q.Parts().dateFrom == q.dateFrom && q.Parts().dateTo == q.dateTo
    ensures q.groupBy.None? ==> q.Parts().groupBy == "day"
    ensures q.groupBy.Some? ==> Some(q.Parts().groupBy) == q.groupBy
    ensures q.kind.None? ==> q.Parts().kind == ""
    ensures q.kind.Some? ==> Some(q.Parts().kind) == q.kind
  {
  }

  lemma DigitsHaveNoColon(n: nat)
    ensures ':' !in Amounts.Digits(n) && Amounts.Digits(n) != "gen"
  {
    Amounts.ValueDigits(n);
    assert Amounts.Digits(n)[0] in Amounts.Digits(n);
    assert "gen"[0] == 'g';
  }

  lemma DigitsInjective(m: nat, n: nat)
    requires Amounts.Digits(m) == Amounts.Digits(n)
    ensures m == n
  {
    Amounts.ValueDigits(m);
    Amounts.ValueDigits(n);
  }

  /** Equal keys come from the same user, the same request and the same generation. */
  lemma KeyInjective(u: nat, q: Query, g: nat, v: nat, r: Query, h: nat)
    requires q.Plain() && r.Plain() && SummaryKey(u, q, g) == SummaryKey(v, r, h)
    ensures u == v && q.Parts() == r.Parts() && g == h
  {
    var p, o := q.Parts(), r.Parts();
    var p5, o5 := "g" + Amounts.Digits(g), "g" + Amounts.Digits(h);
    var p4, o4 := p.kind + ":" + p5, o.kind + ":" + o5;
    var p3, o3 := p.groupBy + ":" + p4, o.groupBy + ":" + o4;
    var p2, o2 := p.dateTo + ":" + p3, o.dateTo + ":" + o3;
    var p1, o1 := p.dateFrom + ":" + p2, o.dateFrom + ":" + o2;
    var p0, o0 := Amounts.Digits(u) + ":" + p1, Amounts.Digits(v) + ":" + o1;
    DropPrefix("tx:summary:", p0, o0);
    DigitsHaveNoColon(u);
    DigitsHaveNoColon(v);
    SplitAt(Amounts.Digits(u), p1, Amounts.Digits(v), o1, ':');
    SplitAt(p.dateFrom, p2, o.dateFrom, o2, ':');
    SplitAt(p.dateTo, p3, o.dateTo, o3, ':');
    SplitAt(p.groupBy, p4, o.groupBy, o4, ':');
    SplitAt(p.kind, p5, o.kind, o5, ':');
    DropPrefix("g", Amounts.Digits(g), Amounts.Digits(h));
    DigitsInjective(u, v);
    DigitsInjective(g, h);
  }

  /** No summary is stored under a generation key. */
  lemma KeysApart(u: nat, q: Query, g: nat, v: nat)
    ensures SummaryKey(u, q, g) != GenKey(v)
  {
    if SummaryKey(u, q, g) == GenKey(v) {
      var p := q.Parts();
      var tail := p.dateFrom + ":" + (p.dateTo + ":" + (p.groupBy + ":" + (p.kind + ":" + ("g" + Amounts.Digits(g)))));
      DropPrefix("tx:summary:", Amounts.Digits(u) + ":" + tail, "gen" + ":" + Amounts.Digits(v));
      DigitsHaveNoColon(u);
      SplitAt(Amounts.Digits(u), tail, "gen", Amounts.Digits(v), ':');
    }
  }

  lemma GenKeyInjective(u: nat, v: nat)
    requires GenKey(u) == GenKey(v)
    ensures u == v
  {
    DropPrefix("tx:summary:", "gen" + ":" + Amounts.Digits(u), "gen" + ":" + Amounts.Digits(v));
    SplitAt("gen", Amounts.Digits(u), "gen", Amounts.Digits(v), ':');
    DigitsInjective(u, v);
  }

  // ---- The cache -------------------------------------------------------------------------

  const DAY_MS := 86_400_000
  const MIN_TTL := 38_250
  const MAX_TTL := 51_750

  /** Summaries live 45 seconds with a jitter of fifteen per cent. */
  lemma Lifetimes()
    ensures 100 * MIN_TTL == 85 * 45_000 && 100 * MAX_TTL == 115 * 45_000
  {
  }

  datatype Stored<S> = Generation(n: nat) | Summary(value: S)
  datatype Item<S> = Item(stored: Stored<S>, expires: int)

  type Cache<S> = map<string, Item<S>>

  /** `get`: an entry is there until it expires. */
  function Get<S>(cache: Cache<S>, key: string, now: int): Option<Stored<S>> {
    if key in cache && now < cache[key].expires then Some(cache[key].stored) else None
  }

  /** `summaryGen`. */
  function CurrentGen<S>(cache: Cache<S>, user: nat, now: int): nat {
    match Get(cache, GenKey(user), now)
    case Some(Generation(n)) => n
    case _ => 0
  }

  /** An entry is there until the moment it expires. */
  lemma GetIff<S>(cache: Cache<S>, key: string, now: int)
    ensures Get(cache, key, now).Some? <==> key in cache && cache[key].expires > now
    ensures Get(cache, key, now).Some? ==> Get(cache, key, now).value == cache[key].stored
  {
  }

  /** The invalidation makes the next generation current for a day and touches nothing else. */
  lemma InvalidatedIs<S>(cache: Cache<S>, user: nat, now: int, later: int)
    ensures var next := Invalidated(cache, user, now);
      && (forall key | key != GenKey(user) :: (key in next <==> key in cache) && (key in cache ==> next[key] == cache[key]))
      && (now <= later < now + 24 * 60 * 60 * 1000 ==> CurrentGen(next, user, later) == CurrentGen(cache, user, now) + 1)
      && (later >= now + 24 * 60 * 60 * 1000 ==> CurrentGen(next, user, later) == 0)
  {
  }

  /** `invalidateSummary`. */
  function Invalidated<S>(cache: Cache<S>, user: nat, now: int): Cache<S> {
    cache[GenKey(user) := Item(Generation(CurrentGen(cache, user, now) + 1), now + DAY_MS)]
  }

  /**
   * A summary still in the cache, given the user's generation item. Under the current
   * generation it is up to date, unless it dies by the time up to which a write that was not
   * followed by an invalidation may show; under an older one it dies within one lifetime of the
   * last write; once the counter has lapsed, the leftovers die within one lifetime of
   * the lapse.
   */
  predicate EntryFine<S(==)>(item: Item<S>, gen: nat, counter: Option<Item<S>>, current: S, now: int, stale: int) {
    && item.stored.Summary? && item.expires <= now + MAX_TTL
    && match counter
       case None => gen == 0 && (item.stored.value == current || item.expires <= stale)
       case Some(c) =>
         && c.stored.Generation? && c.stored.n >= 1 && c.expires <= now + DAY_MS
         && if now < c.expires then
              gen <= c.stored.n &&
              if gen == c.stored.n then item.stored.value == current || item.expires <= stale
              else item.expires <= c.expires - DAY_MS + MAX_TTL
            else if gen == 0 then item.stored.value == current || item.expires <= stale
            else item.expires <= c.expires + MAX_TTL
  }

  function Counter<S>(cache: Cache<S>, user: nat): Option<Item<S>> {
    if GenKey(user) in cache then Some(cache[GenKey(user)]) else None
  }

  /** Generation items hold positive counters. */
  predicate CounterFine<S>(counter: Option<Item<S>>, now: int) {
    counter.Some? ==>
      counter.value.stored.Generation? && counter.value.stored.n >= 1 && counter.value.expires <= now + DAY_MS
  }

  /** Every live summary of every user is fine; `stale` says for each user up to when an unnoticed write may show. */
  ghost predicate Agreement<L(!new), S(!new)>(cache: Cache<S>, ledgers: nat -> L, compute: (L, Canonical) -> S, now: int,
                                              stale: nat -> int) {
    && (forall u: nat :: CounterFine(Counter(cache, u), now))
    && forall u: nat, q: Query, g: nat |
         q.Plain() && SummaryKey(u, q, g) in cache && now < cache[SummaryKey(u, q, g)].expires ::
         EntryFine(cache[SummaryKey(u, q, g)], g, Counter(cache, u), compute(ledgers(u), q.Parts()), now, stale(u))
  }

  /**
   * The guard of a write: the counter was never set, is alive, or lapsed at least one
   * summary lifetime ago.
   */
  predicate SafeWrite<S>(cache: Cache<S>, user: nat, now: int) {
    match Counter(cache, user)
    case None => true
    case Some(c) => now < c.expires || now >= c.expires + MAX_TTL
  }

  /** Once no unnoticed write can show, a hit under the current generation is the summary of the current ledger. */
  lemma HitIsFresh<L(!new), S(!new)>(cache: Cache<S>, ledgers: nat -> L, compute: (L, Canonical) -> S, now: int,
                                     stale: nat -> int, u: nat, q: Query)
    requires Agreement(cache, ledgers, compute, now, stale) && q.Plain() && stale(u) <= now
    requires Get(cache, SummaryKey(u, q, CurrentGen(cache, u, now)), now).Some?
    ensures Get(cache, SummaryKey(u, q, CurrentGen(cache, u, now)), now) ==
            Some(Summary(compute(ledgers(u), q.Parts())))
  {
    var g := CurrentGen(cache, u, now);
    assert EntryFine(cache[SummaryKey(u, q, g)], g, Counter(cache, u), compute(ledgers(u), q.Parts()), now, stale(u));
    assert CounterFine(Counter(cache, u), now);
  }

  /** Storing the fresh summary under the current generation keeps the agreement. */
  lemma StoreKeepsAgreement<L(!new), S(!new)>(cache: Cache<S>, ledgers: nat -> L, compute: (L, Canonical) -> S,
                                              now: int, stale: nat -> int, u: nat, q: Query, ttl: int)
    requires Agreement(cache, ledgers, compute, now, stale) && q.Plain() && MIN_TTL <= ttl <= MAX_TTL
    ensures Agreement(cache[SummaryKey(u, q, CurrentGen(cache, u, now)) :=
                            Item(Summary(compute(ledgers(u), q.Parts())), now + ttl)], ledgers, compute, now, stale)
  {
    var gen := CurrentGen(cache, u, now);
    var key := SummaryKey(u, q, gen);
    var next := cache[key := Item(Summary(compute(ledgers(u), q.Parts())), now + ttl)];
    forall v: nat ensures Counter(next, v) == Counter(cache, v) {
      KeysApart(u, q, gen, v);
    }
    assert CounterFine(Counter(cache, u), now);
    forall v: nat, r: Query, g: nat |
      r.Plain() && SummaryKey(v, r, g) in next && now < next[SummaryKey(v, r, g)].expires
      ensures EntryFine(next[SummaryKey(v, r, g)], g, Counter(next, v), compute(ledgers(v), r.Parts()), now, stale(v))
    {
      if SummaryKey(v, r, g) == key {
        KeyInjective(u, q, gen, v, r, g);
      } else {
        assert EntryFine(cache[SummaryKey(v, r, g)], g, Counter(cache, v), compute(ledgers(v), r.Parts()), now, stale(v));
      }
    }
  }

  /**
   * A guarded write followed by the invalidation brings the agreement with the new ledger, and
   * ends whatever earlier unnoticed writes of the user could still show.
   */
  lemma WriteKeepsAgreement<L(!new), S(!new)>(cache: Cache<S>, ledgers: nat -> L, compute: (L, Canonical) -> S,
                                              now: int, stale: nat -> int, u: nat, after: nat -> L, staleAfter: nat -> int)
    requires Agreement(cache, ledgers, compute, now, stale) && SafeWrite(cache, u, now)
    requires forall v: nat | v != u :: after(v) == ledgers(v) && staleAfter(v) == stale(v)
    ensures Agreement(Invalidated(cache, u, now), after, compute, now, staleAfter)
  {
    var next := Invalidated(cache, u, now);
    assert CounterFine(Counter(cache, u), now);
    forall v: nat ensures CounterFine(Counter(next, v), now) && (v != u ==> Counter(next, v) == Counter(cache, v)) {
      if GenKey(v) == GenKey(u) {
        GenKeyInjective(v, u);
      }
      assert CounterFine(Counter(cache, v), now);
    }
    forall v: nat, r: Query, g: nat |
      r.Plain() && SummaryKey(v, r, g) in next && now < next[SummaryKey(v, r, g)].expires
      ensures EntryFine(next[SummaryKey(v, r, g)], g, Counter(next, v), compute(after(v), r.Parts()), now, staleAfter(v))
    {
      KeysApart(v, r, g, u);
      assert EntryFine(cache[SummaryKey(v, r, g)], g, Counter(cache, v), compute(ledgers(v), r.Parts()), now, stale(v));
    }
  }

  /** A write that is not followed by the invalidation can show for one summary lifetime and no longer. */
  lemma UnnoticedWriteKeepsAgreement<L(!new), S(!new)>(cache: Cache<S>, ledgers: nat -> L,
                                                       compute: (L, Canonical) -> S, now: int, stale: nat -> int,
                                                       u: nat, after: nat -> L, staleAfter: nat -> int)
    requires Agreement(cache, ledgers, compute, now, stale)
    requires forall v: nat | v != u :: after(v) == ledgers(v) && staleAfter(v) == stale(v)
    requires staleAfter(u) >= now + MAX_TTL
    ensures Agreement(cache, after, compute, now, staleAfter)
  {
    forall v: nat ensures CounterFine(Counter(cache, v), now) {
    }
    forall v: nat, r: Query, g: nat |
      r.Plain() && SummaryKey(v, r, g) in cache && now < cache[SummaryKey(v, r, g)].expires
      ensures EntryFine(cache[SummaryKey(v, r, g)], g, Counter(cache, v), compute(after(v), r.Parts()), now, staleAfter(v))
    {
      assert EntryFine(cache[SummaryKey(v, r, g)], g, Counter(cache, v), compute(ledgers(v), r.Parts()), now, stale(v));
    }
  }

  /** The passing of time keeps the agreement. */
  lemma TimeKeepsAgreement<L(!new), S(!new)>(cache: Cache<S>, ledgers: nat -> L, compute: (L, Canonical) -> S,
                                             now: int, stale: nat -> int, later: int)
    requires Agreement(cache, ledgers, compute, now, stale) && now <= later
    ensures Agreement(cache, ledgers, compute, later, stale)
  {
    forall v: nat ensures CounterFine(Counter(cache, v), later) {
      assert CounterFine(Counter(cache, v), now);
    }
    forall v: nat, r: Query, g: nat |
      r.Plain() && SummaryKey(v, r, g) in cache && later < cache[SummaryKey(v, r, g)].expires
      ensures EntryFine(cache[SummaryKey(v, r, g)], g, Counter(cache, v), compute(ledgers(v), r.Parts()), later, stale(v))
    {
      assert EntryFine(cache[SummaryKey(v, r, g)], g, Counter(cache, v), compute(ledgers(v), r.Parts()), now, stale(v));
    }
  }

  // ---- The service -----------------------------------------------------------------------

  /** Summary keys hold summaries. */
  ghost predicate Typed<S(!new)>(cache: Cache<S>) {
    forall u: nat, q: Query, g: nat | SummaryKey(u, q, g) in cache :: cache[SummaryKey(u, q, g)].stored.Summary?
  }

  /** The key of a request under the current generation. */
  function CurrentKey<S>(cache: Cache<S>, user: nat, q: Query, now: int): string {
    SummaryKey(user, q, CurrentGen(cache, user, now))
  }

  lemma StoreKeepsTyped<S(!new)>(cache: Cache<S>, key: string, s: S, expires: int)
    requires Typed(cache)
    ensures Typed(cache[key := Item(Summary(s), expires)])
  {
  }

  lemma WriteKeepsTyped<S(!new)>(cache: Cache<S>, user: nat, now: int)
    requires Typed(cache)
    ensures Typed(Invalidated(cache, user, now))
  {
    forall u: nat, q: Query, g: nat
      ensures SummaryKey(u, q, g) != GenKey(user)
    {
      KeysApart(u, q, g, user);
    }
  }

  class SummaryService<L(!new), S(!new)> {
    var cache: Cache<S>
    var ledgers: nat -> L
    var now: int
    const compute: (L, Canonical) -> S
    /** Up to when writes that were not followed by an invalidation may show. */
    ghost var stale: nat -> int

    ghost predicate Agrees()
      reads this
    {
      Agreement(cache, ledgers, compute, now, stale)
    }

    constructor (compute: (L, Canonical) -> S, ledgers: nat -> L, now: int)
      ensures Agrees() && cache == map[] && this.compute == compute && this.ledgers == ledgers && this.now == now
      ensures forall u: nat :: stale(u) == now
    {
      cache, this.ledgers, this.now := map[], ledgers, now;
      this.compute := compute;
      stale := _ => now;
    }

    /**
     * `getSummary`: what the cache holds, else a fresh summary; in agreement it is fresh either
     * way once no unnoticed write can show.
     */
    method GetSummary(user: nat, q: Query, ttl: int) returns (summary: S)
      requires Typed(cache) && MIN_TTL <= ttl <= MAX_TTL
      modifies this`cache
      ensures Typed(cache)
      ensures var key := CurrentKey(old(cache), user, q, now);
        match Get(old(cache), key, now)
        case Some(hit) => hit == Summary(summary) && cache == old(cache)
        case None =>
          && summary == compute(ledgers(user), q.Parts())
          && cache == old(cache)[key := Item(Summary(summary), now + ttl)]
      ensures old(Agrees()) && q.Plain() ==> Agrees()
      ensures old(Agrees()) && q.Plain() && stale(user) <= now ==> summary == compute(ledgers(user), q.Parts())
    {
      var key := SummaryKey(user, q, CurrentGen(cache, user, now));
      var cached := Get(cache, key, now);
      if Agrees() && q.Plain() {
        StoreKeepsAgreement(cache, ledgers, compute, now, stale, user, q, ttl);
        if cached.Some? && stale(user) <= now {
          HitIsFresh(cache, ledgers, compute, now, stale, user, q);
        }
      }
      if cached.Some? {
        return cached.value.value;
      }
      summary := compute(ledgers(user), q.Parts());
      StoreKeepsTyped(cache, key, summary, now + ttl);
      cache := cache[key := Item(Summary(summary), now + ttl)];
    }

    /** Any write of the service: the user's ledger changes, then the generation moves on. */
    method Write(user: nat, ledger: L)
      requires Typed(cache)
      modifies this`ledgers, this`cache, this`stale
      ensures Typed(cache)
      ensures stale(user) == now && forall v: nat | v != user :: stale(v) == old(stale)(v)
      ensures ledgers(user) == ledger && forall v: nat | v != user :: ledgers(v) == old(ledgers)(v)
      ensures cache == Invalidated(old(cache), user, now)
      ensures old(Agrees() && SafeWrite(cache, user, now)) ==> Agrees()
    {
      var was := ledgers;
      ghost var before, t := stale, now;
      ledgers := (v: nat) => if v == user then ledger else was(v);
      stale := (v: nat) => if v == user then t else before(v);
      if old(Agrees() && SafeWrite(cache, user, now)) {
        WriteKeepsAgreement(cache, was, compute, now, before, user, ledgers, stale);
      }
      WriteKeepsTyped(cache, user, now);
      cache := Invalidated(cache, user, now);
    }

    /** A write past the service, as by transfers, the import and the accrual: no generation moves on. */
    method WriteUnnoticed(user: nat, ledger: L)
      modifies this`ledgers, this`stale
      ensures ledgers(user) == ledger && forall v: nat | v != user :: ledgers(v) == old(ledgers)(v)
      ensures stale(user) == now + 51_750 && forall v: nat | v != user :: stale(v) == old(stale)(v)
      ensures old(Agrees()) ==> Agrees()
    {
      var was := ledgers;
      ghost var before, t := stale, now;
      ledgers := (v: nat) => if v == user then ledger else was(v);
      stale := (v: nat) => if v == user then t + MAX_TTL else before(v);
      if old(Agrees()) {
        UnnoticedWriteKeepsAgreement(cache, was, compute, now, before, user, ledgers, stale);
      }
    }

    /** Time passes. */
    method Wait(ms: nat)
      modifies this`now
      ensures now == old(now) + ms && (old(Agrees()) ==> Agrees())
    {
      if Agrees() {
        TimeKeepsAgreement(cache, ledgers, compute, now, stale, now + ms);
      }
      now := now + ms;
    }
  }

  // ---- When the guard is needed ----------------------------------------------------------

  /** Hits of one user are up to date. */
  ghost predicate HitsFresh<L(!new), S(!new)>(cache: Cache<S>, ledger: L, compute: (L, Canonical) -> S, now: int, u: nat) {
    forall q: Query | q.Plain() && Get(cache, SummaryKey(u, q, CurrentGen(cache, u, now)), now).Some? ::
      Get(cache, SummaryKey(u, q, CurrentGen(cache, u, now)), now) == Some(Summary(compute(ledger, q.Parts())))
  }

  /** Some ledger has another summary for the request. */
  ghost predicate Contradictable<L(!new), S(!new)>(compute: (L, Canonical) -> S, p: Canonical, s: Stored<S>) {
    exists l: L :: s != Summary(compute(l, p))
  }

  /**
   * Every live summary of a generation is one that no ledger contradicts: that of a request
   * whose summary is always the same, as with a range of dates that ends before it starts.
   */
  ghost predicate NoneContradictable<L(!new), S(!new)>(cache: Cache<S>, compute: (L, Canonical) -> S, now: int,
                                                       u: nat, gen: nat) {
    forall q: Query | q.Plain() && Get(cache, SummaryKey(u, q, gen), now).Some? ::
      !Contradictable(compute, q.Parts(), Get(cache, SummaryKey(u, q, gen), now).value)
  }

  /**
   * A write past the service leaves hits up to date, whatever the new ledger is, exactly when
   * no summary that a ledger could contradict is alive under the current generation.
   */
  lemma UnnoticedWriteIsSafeIff<L(!new), S(!new)>(cache: Cache<S>, compute: (L, Canonical) -> S, now: int, u: nat)
    ensures (forall l: L :: HitsFresh(cache, l, compute, now, u)) <==>
            NoneContradictable(cache, compute, now, u, CurrentGen(cache, u, now))
  {
    var gen := CurrentGen(cache, u, now);
    if !NoneContradictable(cache, compute, now, u, gen) {
      var q: Query :| q.Plain() && Get(cache, SummaryKey(u, q, gen), now).Some?
        && Contradictable(compute, q.Parts(), Get(cache, SummaryKey(u, q, gen), now).value);
      var s, p := Get(cache, SummaryKey(u, q, gen), now).value, q.Parts();
      var l: L :| s != Summary(compute(l, p));
      assert !HitsFresh(cache, l, compute, now, u);
    } else {
      forall l: L
        ensures HitsFresh(cache, l, compute, now, u)
      {
        forall q: Query | q.Plain() && Get(cache, SummaryKey(u, q, gen), now).Some?
          ensures Get(cache, SummaryKey(u, q, gen), now) == Some(Summary(compute(l, q.Parts())))
        {
          var s, p := Get(cache, SummaryKey(u, q, gen), now).value, q.Parts();
          assert !Contradictable(compute, p, s);
        }
      }
    }
  }

  /**
   * A write that finds the counter lapsed restarts it at one. Whatever the new ledger is,
   * hits stay up to date exactly when no first-generation summary that a ledger could
   * contradict is still alive.
   */
  lemma LapsedWriteIsSafeIff<L(!new), S(!new)>(cache: Cache<S>, compute: (L, Canonical) -> S, now: int, u: nat)
    requires CurrentGen(cache, u, now) == 0
    ensures (forall l: L :: HitsFresh(Invalidated(cache, u, now), l, compute, now, u)) <==>
            NoneContradictable(cache, compute, now, u, 1)
  {
    var next := Invalidated(cache, u, now);
    assert CurrentGen(next, u, now) == 1;
    forall q: Query ensures Get(next, SummaryKey(u, q, 1), now) == Get(cache, SummaryKey(u, q, 1), now) {
      KeysApart(u, q, 1, u);
    }
    UnnoticedWriteIsSafeIff(next, compute, now, u);
  }

  /**
   * A run that serves a stale summary: a write, a request just before the counter lapses a
   * day later, and a second write at the lapse. The last request gets the summary of the
   * first ledger although the second one is current.
   */
  method ServeStale<L(!new), S(!new)>(service: SummaryService<L, S>, user: nat, q: Query, first: L, second: L)
    returns (summary: S)
    requires service.cache == map[] && q.Plain()
    modifies service
    ensures service.ledgers(user) == second && summary == service.compute(first, q.Parts())
  {
    KeysApart(user, q, 1, user);
    service.Write(user, first);
    service.Wait(DAY_MS - 1);
    var current := service.GetSummary(user, q, MIN_TTL);
    service.Wait(1);
    assert Get(service.cache, GenKey(user), service.now).None?;
    service.Write(user, second);
    assert CurrentGen(service.cache, user, service.now) == 1;
    summary := service.GetSummary(user, q, MIN_TTL);
  }

  /** A request that gets a stale summary although the counter is alive: the last write went past the service. */
  method ServeUnnoticed<L(!new), S(!new)>(service: SummaryService<L, S>, user: nat, q: Query, first: L, second: L)
    returns (summary: S)
    requires service.cache == map[] && q.Plain()
    modifies service
    ensures service.ledgers(user) == second && summary == service.compute(first, q.Parts())
    ensures Get(service.cache, GenKey(user), service.now).Some?
  {
    KeysApart(user, q, 1, user);
    service.Write(user, first);
    var current := service.GetSummary(user, q, MIN_TTL);
    service.WriteUnnoticed(user, second);
    summary := service.GetSummary(user, q, MIN_TTL);
  }
}
