// Which journal requests are accepted, on which day they count, and how requests work together.
module JournalAcceptance {
  import opened Options
  import opened Text
  import opened JournalLock
  import opened JournalLockLaws

  // ----- What may be created -----

  /** No negative rate or amount, and an amount on one side at most. */
  predicate Sound(line: RequestLine) {
    line.rate >= 0.0 && line.debit >= 0.0 && line.credit >= 0.0 && (line.debit == 0.0 || line.credit == 0.0)
  }

  /** An amount without a rate is in the base currency already. */
  function BaseAmount(amount: real, rate: real): real {
    if rate == 0.0 then amount else amount * rate
  }

  function BaseDebitTotal(lines: seq<RequestLine>): real {
    if lines == [] then 0.0 else BaseAmount(lines[0].debit, lines[0].rate) + BaseDebitTotal(lines[1..])
  }

  function BaseCreditTotal(lines: seq<RequestLine>): real {
    if lines == [] then 0.0 else BaseAmount(lines[0].credit, lines[0].rate) + BaseCreditTotal(lines[1..])
  }

  lemma PricedAmounts(line: RequestLine)
    ensures Priced(line).baseDebit == BaseAmount(line.debit, line.rate)
    ensures Priced(line).baseCredit == BaseAmount(line.credit, line.rate)
    ensures line.rate >= 0.0 ==> (LineOk(Priced(line)) <==> Sound(line))
  {
    if line.rate > 0.0 {
      SignAtRate(line.debit, line.rate);
      SignAtRate(line.credit, line.rate);
    }
  }

  lemma SignAtRate(amount: real, rate: real)
    requires rate > 0.0
    ensures amount >= 0.0 ==> amount * rate >= 0.0
  {}

  lemma NothingAtAnyRate(rate: real)
    ensures BaseAmount(0.0, rate) == 0.0
  {}

  lemma {:induction false} TotalsOfMore(lines: seq<RequestLine>, line: RequestLine)
    ensures BaseDebitTotal(lines + [line]) == BaseDebitTotal(lines) + BaseAmount(line.debit, line.rate)
    ensures BaseCreditTotal(lines + [line]) == BaseCreditTotal(lines) + BaseAmount(line.credit, line.rate)
  {
    if lines == [] {
      assert [line][1..] == [] && lines + [line] == [line];
    } else {
      assert (lines + [line])[1..] == lines[1..] + [line];
      TotalsOfMore(lines[1..], line);
    }
  }

  lemma {:induction false} TotalsOfPriced(lines: seq<RequestLine>)
    ensures BaseDebits(AllPriced(lines)) == BaseDebitTotal(lines)
    ensures BaseCredits(AllPriced(lines)) == BaseCreditTotal(lines)
  {
    if lines != [] {
      var n := |lines| - 1;
      TotalsOfPriced(lines[..n]);
      TotalsOfMore(lines[..n], lines[n]);
      PricedAmounts(lines[n]);
      assert lines[..n] + [lines[n]] == lines;
      assert AllPriced(lines)[..n] == AllPriced(lines[..n]);
    }
  }

  /** An entry may be created exactly when its lines are sound and its debits and credits, each at its line's rate, have
      the same total, which is not zero. */
  lemma {:induction false} CreatableExactlyWhen(lines: seq<RequestLine>)
    ensures Creatable(lines)
       <==> (forall i :: 0 <= i < |lines| ==> Sound(lines[i]))
            && BaseDebitTotal(lines) == BaseCreditTotal(lines) != 0.0
  {
    TotalsOfPriced(lines);
    forall i | 0 <= i < |lines| && lines[i].rate >= 0.0
      ensures LineOk(AllPriced(lines)[i]) <==> Sound(lines[i])
    {
      PricedAmounts(lines[i]);
    }
  }

  // ----- The day of a created entry -----

  /** A given day is the entry's day, whatever day it is today; a missing one is today's. */
  lemma CreatedOnGivenDay(lock: LockSetting, entries: seq<Entry>, day: int, lines: seq<RequestLine>, today: int,
                          stored: bool)
    ensures Accepts(lock, entries, Create(Some(day), lines, today, stored))
       <==> Accepts(lock, entries, Create(None, lines, day, stored))
    ensures Handled(lock, entries, Create(Some(day), lines, today, stored))
         == Handled(lock, entries, Create(None, lines, day, stored))
    ensures Accepts(lock, entries, Create(Some(day), lines, today, stored)) ==>
      && Handled(lock, entries, Create(Some(day), lines, today, stored))
         == entries + [Entry(day, Draft, AllPriced(lines))]
      && (lock.LockedThrough? ==> day > lock.day)
  {}

  /** An entry that is created and then posted counts from its day on: both accepted, they move the balance by the
      entry's lines, as of every day from the given one, or today's if none is given. */
  lemma CreateThenPostMovesBalance(lock: LockSetting, entries: seq<Entry>, day: int, create: Request, post: Request,
                                   account: string, on: int)
    requires create.Create? && (create.given == Some(day) || (create.given == None && create.today == day))
    requires post.Post? && post.id == |entries|
    requires Accepts(lock, entries, create) && Accepts(lock, Handled(lock, entries, create), post)
    ensures Balance(Handled(lock, Handled(lock, entries, create), post), account, on)
         == Balance(entries, account, on) + if day <= on then Net(AllPriced(create.lines), account) else 0.0
  {
    RequestMovesBalance(entries, create, account, on);
    RequestMovesBalance(Handled(lock, entries, create), post, account, on);
  }

  // ----- What the lock decides -----

  /** The day that the lock is asked about: the day of the entry that is made, posted or voided. */
  function OperationDay(entries: seq<Entry>, request: Request): int
    requires request.Post? || request.Void? ==> request.id < |entries|
  {
    match request
    case Create(Some(day), _, _, _) => day
    case Create(None, _, today, _) => today
    case Post(id, _, _, _) => entries[id].day
    case Void(id, _, _, _) => entries[id].day
    case ImportOpening(day, _, _, _) => day
  }

  predicate LetsThrough(lock: LockSetting, day: int) {
    lock.NoLock? || lock.BlankLock? || (lock.LockedThrough? && day > lock.day)
  }

  /** The gate is open, shut for that day, or cannot be read. */
  lemma GateTells(lock: LockSetting, day: int)
    ensures EnsureUnlocked(lock, day) == Open <==> LetsThrough(lock, day)
    ensures EnsureUnlocked(lock, day) == CheckFailed <==> lock.TenantUnavailable? || lock.UnreadableLock?
    ensures forall through :: EnsureUnlocked(lock, day) == PeriodLocked(through, day)
                              <==> lock == LockedThrough(through) && day <= through
  {}

  /** A lock takes away exactly the requests whose day it covers; settings that cannot be read take away all. So a
      later lock accepts less. */
  lemma LockDecides(lock: LockSetting, entries: seq<Entry>, request: Request)
    requires request.Post? || request.Void? ==> request.id < |entries|
    ensures Accepts(lock, entries, request)
       <==> Accepts(NoLock, entries, request) && LetsThrough(lock, OperationDay(entries, request))
  {
    GateTells(lock, OperationDay(entries, request));
    match request {
      case Create(given, lines, today, stored) =>
        assert OperationDay(entries, request) == DayOf(given, today);
      case Post(_, _, _, _) =>
      case Void(_, _, _, _) =>
      case ImportOpening(_, _, _, _) =>
    }
  }

  lemma LaterLockAcceptsLess(early: int, late: int, entries: seq<Entry>, request: Request)
    requires early <= late && Accepts(LockedThrough(late), entries, request)
    ensures Accepts(LockedThrough(early), entries, request)
  {
    assert request.Post? || request.Void? ==> request.id < |entries|;
    LockDecides(LockedThrough(early), entries, request);
    LockDecides(LockedThrough(late), entries, request);
  }

  // ----- The life of an entry -----

  /** Where the lock lets its day through, an entry that may be created can be created, posted once, and voided once.
      Nothing else can be done with it. */
  lemma LifeOfAnEntry(lock: LockSetting, entries: seq<Entry>, day: int, create: Request, reason: string, why: string,
                      today: int)
    requires create.Create? && create.stored
    requires create.given == Some(day) || (create.given == None && create.today == day)
    requires LetsThrough(lock, day) && Creatable(create.lines) && TrimSpace(reason) != "" && why != ""
    ensures var id, lines := |entries|, AllPriced(create.lines);
      var post, void := Post(id, reason, true, true), Void(id, why, today, true);
      var drafted := Handled(lock, entries, create);
      var posted := Handled(lock, drafted, post);
      var voided := Handled(lock, posted, void);
      && drafted == entries + [Entry(day, Draft, lines)] && Handled(lock, drafted, void) == drafted
      && posted == entries + [Entry(day, Posted, lines)] && Handled(lock, posted, post) == posted
      && voided == entries + [Entry(day, Voided, lines), Entry(today, Posted, Swapped(lines))]
      && Handled(lock, voided, post) == voided && Handled(lock, voided, void) == voided
  {
    CreatableHasTwoLines(create.lines);
    var entry := Entry(day, Draft, AllPriced(create.lines));
    var post, void := Post(|entries|, reason, true, true), Void(|entries|, why, today, true);
    DraftCanBePosted(lock, entries, entry, post, void);
    PostedCanBeVoided(lock, entries, entry.(status := Posted), post, void);
    VoidedIsOver(lock, entries, entry.(status := Voided), Entry(today, Posted, Swapped(entry.lines)), post, void);
  }

  lemma DraftCanBePosted(lock: LockSetting, entries: seq<Entry>, entry: Entry, post: Request, void: Request)
    requires post.Post? && void.Void? && post.id == void.id == |entries|
    requires LetsThrough(lock, entry.day) && post.evidenced && post.stored && TrimSpace(post.reason) != ""
    requires entry.status == Draft && Balanced(entry.lines)
    ensures Handled(lock, entries + [entry], post) == entries + [entry.(status := Posted)]
    ensures Handled(lock, entries + [entry], void) == entries + [entry]
  {}

  lemma PostedCanBeVoided(lock: LockSetting, entries: seq<Entry>, entry: Entry, post: Request, void: Request)
    requires post.Post? && void.Void? && post.id == void.id == |entries|
    requires LetsThrough(lock, entry.day) && void.reason != "" && void.stored && entry.status == Posted
    ensures Handled(lock, entries + [entry], void)
         == entries + [entry.(status := Voided), Entry(void.today, Posted, Swapped(entry.lines))]
    ensures Handled(lock, entries + [entry], post) == entries + [entry]
  {
    assert (entries + [entry])[|entries|] == entry;
    assert (entries + [entry])[|entries| := entry.(status := Voided)] == entries + [entry.(status := Voided)];
  }

  lemma VoidedIsOver(lock: LockSetting, entries: seq<Entry>, entry: Entry, reversal: Entry, post: Request,
                     void: Request)
    requires post.Post? && void.Void? && post.id == void.id == |entries| && entry.status == Voided
    ensures Handled(lock, entries + [entry, reversal], post) == entries + [entry, reversal]
    ensures Handled(lock, entries + [entry, reversal], void) == entries + [entry, reversal]
  {}

  /** One line cannot balance. */
  lemma CreatableHasTwoLines(lines: seq<RequestLine>)
    requires Creatable(lines)
    ensures |lines| >= 2
  {
    CreatableExactlyWhen(lines);
    if |lines| == 1 {
      assert Sound(lines[0]);
      assert lines[1..] == [];
      assert BaseDebitTotal(lines) == BaseAmount(lines[0].debit, lines[0].rate);
      assert BaseCreditTotal(lines) == BaseAmount(lines[0].credit, lines[0].rate);
      NothingAtAnyRate(lines[0].rate);
    }
  }

  /** An opening balance is created and posted, and refused as a whole if it cannot be created. If only the posting
      fails, the draft stays. */
  lemma ImportIsCreateThenPost(lock: LockSetting, entries: seq<Entry>, day: int, lines: seq<RequestLine>, today: int,
                               stored: bool, posted: bool)
    ensures Handled(lock, entries, ImportOpening(day, lines, stored, posted))
         == if Accepts(lock, entries, Create(Some(day), lines, today, stored))
            then Run(lock, entries, [Create(Some(day), lines, today, stored),
                                     Post(|entries|, "Opening balance import", true, posted)])
            else entries
  {
    if Creatable(lines) {
      CreatableHasTwoLines(lines);
      RunOfTwo(lock, entries, Create(Some(day), lines, today, stored),
               Post(|entries|, "Opening balance import", true, posted));
    }
  }

  lemma RunOfTwo(lock: LockSetting, entries: seq<Entry>, first: Request, second: Request)
    ensures Run(lock, entries, [first, second]) == Handled(lock, Handled(lock, entries, first), second)
  {
    assert [first, second][1..] == [second] && [second][1..] == [];
    assert Run(lock, Handled(lock, Handled(lock, entries, first), second), [])
        == Handled(lock, Handled(lock, entries, first), second);
  }
}
