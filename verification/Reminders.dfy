/** The daily reminder job over any sequence of run days. */
module Reminders {
  import opened Options
  import opened Calendar

  /** A fixed transaction as the reminder query returns it. */
  datatype Fixed = Fixed(id: int, user: int, recurrence: Recurrence, reminderDays: Option<int>)
  {
    /** Days of notice, three unless stated. */
    function Window(): int {
      if reminderDays.Some? then reminderDays.value else 3
    }
  }

  /** The user and the reference `fixed:reminder:<id>:<occurrence>` of a notification. */
  datatype Notice = Notice(user: int, id: int, occurrence: int)

  /** The notification the job wants for a transaction on a day, if any. */
  function Wanted(tx: Fixed, today: Date): Option<Notice>
    requires tx.recurrence.Valid()
  {
    match NextOccurrence(tx.recurrence, today)
    case None => None
    case Some(next) =>
      var diff := next - today.Number();
      if diff < 0 || diff > tx.Window() then None else Some(Notice(tx.user, tx.id, next))
  }

  predicate AllValid(txs: seq<Fixed>) {
    forall tx | tx in txs :: tx.recurrence.Valid()
  }

  predicate Distinct(ns: seq<Notice>) {
    forall i, j | 0 <= i < j < |ns| :: ns[i] != ns[j]
  }

  /** Transactions older than this are no longer looked at. */
  const LOOKBACK_DAYS := 370

  /** What `findFixedForReminders` asks of a fixed transaction. */
  predicate Eligible(tx: Fixed, today: Date)
    requires tx.recurrence.Valid()
  {
    tx.recurrence.dueDay.Some? && tx.recurrence.created.Number() >= today.Number() - LOOKBACK_DAYS
  }

  /** A stored transaction makes the job save the notice on the day, where saving fails for the ids `lost`. */
  predicate Delivers(n: Notice, tx: Fixed, lost: set<int>, today: Date)
    requires tx.recurrence.Valid()
  {
    Eligible(tx, today) && tx.id !in lost && Wanted(tx, today) == Some(n)
  }

  ghost predicate WantedBy(n: Notice, txs: seq<Fixed>, lost: set<int>, today: Date)
    requires AllValid(txs)
  {
    exists tx :: tx in txs && Delivers(n, tx, lost, today)
  }

  class NotificationTable {
    var notices: seq<Notice>

    constructor ()
      ensures notices == []
    {
      notices := [];
    }

    /** `createIfMissing`. */
    method CreateIfMissing(n: Notice)
      modifies this
      ensures notices == if n in old(notices) then old(notices) else old(notices) + [n]
    {
      if n !in notices {
        notices := notices + [n];
      }
    }

    /**
     * `handleDailyReminders` over the live fixed transactions: adds exactly the notices wanted
     * for eligible ones that are not there yet. Where `createIfMissing` throws, for the ids
     * `lost`, the job goes on without the notice.
     */
    method HandleDailyReminders(txs: seq<Fixed>, lost: set<int>, today: Date)
      requires AllValid(txs)
      modifies this
      ensures old(notices) <= notices
      ensures old(Distinct(notices)) ==> Distinct(notices)
      ensures forall n :: n in notices <==> n in old(notices) || WantedBy(n, txs, lost, today)
    {
      for i := 0 to |txs|
        invariant old(notices) <= notices
        invariant old(Distinct(notices)) ==> Distinct(notices)
        invariant forall n :: n in notices <==> n in old(notices) || WantedBy(n, txs[..i], lost, today)
      {
        var tx := txs[i];
        assert tx in txs;
        if Eligible(tx, today) {
          var wanted := Wanted(tx, today);
          if wanted.Some? && tx.id !in lost {
            CreateIfMissing(wanted.value);
          }
        }
        forall n
          ensures WantedBy(n, txs[..i + 1], lost, today) <==>
                  WantedBy(n, txs[..i], lost, today) || Delivers(n, txs[i], lost, today)
        {
          WantedSnoc(n, txs, lost, i, today);
        }
      }
      assert txs[..|txs|] == txs;
    }

    /** Any sequence of daily runs, each with the transactions its query returned. */
    method RunDays(days: seq<Day>)
      requires forall d | d in days :: AllValid(d.txs)
      modifies this
      ensures old(notices) <= notices
      ensures old(Distinct(notices)) ==> Distinct(notices)
      ensures forall n :: n in notices <==> n in old(notices) || WantedInRun(n, days)
    {
      for i := 0 to |days|
        invariant old(notices) <= notices
        invariant old(Distinct(notices)) ==> Distinct(notices)
        invariant forall n :: n in notices <==> n in old(notices) || WantedInRun(n, days[..i])
      {
        HandleDailyReminders(days[i].txs, days[i].lost, days[i].today);
        forall n
          ensures WantedInRun(n, days[..i + 1]) <==>
                  WantedInRun(n, days[..i]) || WantedBy(n, days[i].txs, days[i].lost, days[i].today)
        {
          RunSnoc(n, days, i);
        }
      }
      assert days[..|days|] == days;
    }
  }

  /** One run of the job: the transactions as they are that day, and where saving the notice fails. */
  datatype Day = Day(today: Date, txs: seq<Fixed>, lost: set<int>)

  ghost predicate WantedInRun(n: Notice, days: seq<Day>)
    requires forall d | d in days :: AllValid(d.txs)
  {
    exists d :: d in days && WantedBy(n, d.txs, d.lost, d.today)
  }

  lemma WantedSnoc(n: Notice, txs: seq<Fixed>, lost: set<int>, i: nat, today: Date)
    requires AllValid(txs) && i < |txs|
    ensures WantedBy(n, txs[..i + 1], lost, today) <==>
            WantedBy(n, txs[..i], lost, today) || Delivers(n, txs[i], lost, today)
  {
    assert txs[..i + 1] == txs[..i] + [txs[i]];
    if Delivers(n, txs[i], lost, today) {
      assert txs[i] in txs[..i + 1];
    }
  }

  lemma RunSnoc(n: Notice, days: seq<Day>, i: nat)
    requires (forall d | d in days :: AllValid(d.txs)) && i < |days|
    ensures WantedInRun(n, days[..i + 1]) <==>
            WantedInRun(n, days[..i]) || WantedBy(n, days[i].txs, days[i].lost, days[i].today)
  {
    assert days[..i + 1] == days[..i] + [days[i]];
    if WantedBy(n, days[i].txs, days[i].lost, days[i].today) {
      assert days[i] in days[..i + 1];
    }
  }

  // ---- Main results ----------------------------------------------------------------------

  /** How many notices of a table are for one occurrence of one transaction. */
  function Count(ns: seq<Notice>, n: Notice): nat {
    if ns == [] then 0 else (if ns[0] == n then 1 else 0) + Count(ns[1..], n)
  }

  lemma {:induction false} CountDistinct(ns: seq<Notice>, n: Notice)
    requires Distinct(ns)
    ensures Count(ns, n) == if n in ns then 1 else 0
  {
    if ns != [] {
      var head, tail := ns[0], ns[1..];
      assert ns == [head] + tail;
      assert Distinct(tail) && head !in tail by {
        assert forall i | 0 <= i < |tail| :: tail[i] == ns[i + 1];
      }
      CountDistinct(tail, n);
    }
  }

  /** The day has the occurrence as the transaction's next one and lies within its window. */
  predicate Announces(tx: Fixed, today: Date, occurrence: int)
    requires tx.recurrence.Valid()
  {
    && NextOccurrence(tx.recurrence, today) == Some(occurrence)
    && match tx.reminderDays
       case Some(days) => occurrence <= today.Number() + days
       case None => occurrence <= today.Number() + 3
  }

  lemma WantedIff(tx: Fixed, today: Date, occurrence: int)
    requires tx.recurrence.Valid() && today.Valid()
    ensures Wanted(tx, today) == Some(Notice(tx.user, tx.id, occurrence)) <==> Announces(tx, today, occurrence)
  {
    NextOccurrenceIsLeast(tx.recurrence, today);
  }

  predicate WellFormed(days: seq<Day>) {
    forall d | d in days :: AllValid(d.txs) && d.today.Valid()
  }

  /** The table a run from the empty table ends with, as `RunDays` promises it. */
  ghost predicate TableAfter(table: seq<Notice>, days: seq<Day>)
    requires forall d | d in days :: AllValid(d.txs)
  {
    Distinct(table) && forall n :: n in table <==> WantedInRun(n, days)
  }

  /** On the day the transaction, as it then is, announces the occurrence and the notice can be saved. */
  predicate AnnouncedAs(d: Day, n: Notice, tx: Fixed)
    requires tx.recurrence.Valid()
  {
    && tx.id == n.id && tx.user == n.user && tx.id !in d.lost
    && tx.recurrence.dueDay.Some? && d.today.Number() <= tx.recurrence.created.Number() + 370
    && Announces(tx, d.today, n.occurrence)
  }

  ghost predicate AnnouncedOn(d: Day, n: Notice)
    requires AllValid(d.txs)
  {
    exists tx :: tx in d.txs && AnnouncedAs(d, n, tx)
  }

  lemma AnnouncedIsWanted(d: Day, n: Notice)
    requires AllValid(d.txs) && d.today.Valid()
    ensures AnnouncedOn(d, n) <==> WantedBy(n, d.txs, d.lost, d.today)
  {
    hide Wanted, Announces;
    forall tx | tx in d.txs
      ensures AnnouncedAs(d, n, tx) <==> Delivers(n, tx, d.lost, d.today)
    {
      WantedIff(tx, d.today, n.occurrence);
      WantedNames(tx, d.today);
    }
  }

  lemma WantedNames(tx: Fixed, today: Date)
    requires tx.recurrence.Valid()
    ensures var w := Wanted(tx, today); w.Some? ==> w.value.id == tx.id && w.value.user == tx.user
  {
  }

  /**
   * Starting from an empty table, an occurrence of a transaction has at most one notification
   * after any run, however the transaction was edited between the days, and has one exactly
   * when on some run day the transaction, as it was then and not older than 370 days, had that
   * occurrence as its next one within its window, and the notice could be saved.
   */
  lemma OccurrenceNotifiedIff(days: seq<Day>, table: seq<Notice>, n: Notice)
    requires WellFormed(days) && TableAfter(table, days)
    ensures Count(table, n) <= 1
    ensures Count(table, n) == 1 <==> exists d :: d in days && AnnouncedOn(d, n)
  {
    CountDistinct(table, n);
    forall d | d in days
      ensures AnnouncedOn(d, n) <==> WantedBy(n, d.txs, d.lost, d.today)
    {
      AnnouncedIsWanted(d, n);
    }
  }

  /**
   * A scheduled day on which the job runs with the transaction, no later than 370 days after
   * its creation, and can save is notified exactly once.
   */
  lemma ScheduledDayIsNotified(days: seq<Day>, table: seq<Notice>, d: Day, tx: Fixed)
    requires WellFormed(days) && TableAfter(table, days) && d in days && tx in d.txs && tx.id !in d.lost
    requires tx.recurrence.dueDay.Some? && d.today.Number() <= tx.recurrence.created.Number() + 370
    requires tx.Window() >= 0 && Scheduled(tx.recurrence, d.today.Number())
    ensures Count(table, Notice(tx.user, tx.id, d.today.Number())) == 1
  {
    hide NextOccurrence, Scheduled, TableAfter, Count;
    var n := Notice(tx.user, tx.id, d.today.Number());
    ScheduledToday(tx.recurrence, d.today);
    assert AnnouncedAs(d, n, tx);
    OccurrenceNotifiedIff(days, table, n);
  }

  lemma ScheduledToday(r: Recurrence, today: Date)
    requires r.Valid() && today.Valid() && Scheduled(r, today.Number())
    ensures NextOccurrence(r, today) == Some(today.Number())
  {
    hide NextOccurrence, Scheduled;
    NextOccurrenceIsLeast(r, today);
  }

  /** Every version of the transaction in the run has this day of creation and at most this notice period. */
  predicate VersionsOf(days: seq<Day>, id: int, created: int, window: int)
    requires WellFormed(days)
  {
    forall d, tx | d in days && tx in d.txs && tx.id == id ::
      tx.recurrence.created.Number() == created && tx.Window() <= window
  }

  /** An occurrence later than 370 days and the notice period after the creation is never notified. */
  lemma LateOccurrenceIsNotNotified(days: seq<Day>, table: seq<Notice>, n: Notice, created: int, window: int)
    requires WellFormed(days) && TableAfter(table, days) && VersionsOf(days, n.id, created, window)
    requires n.occurrence > created + 370 + window
    ensures Count(table, n) == 0
  {
    OccurrenceNotifiedIff(days, table, n);
  }
}
