// Balances as of a day, over runs of journal requests behind a period lock.
module JournalLockLaws {
  import opened JournalLock

  // ----- Balances -----

  function Net(lines: seq<Line>, account: string): real {
    if lines == [] then 0.0
    else
      var last := lines[|lines| - 1];
      Net(lines[..|lines| - 1], account) + if last.account == account then last.debit - last.credit else 0.0
  }

  /** Only posted entries count, from their day on. */
  function Weight(entry: Entry, account: string, day: int): real {
    if entry.status == Posted && entry.day <= day then Net(entry.lines, account) else 0.0
  }

  /** The balance as of a day. */
  function Balance(entries: seq<Entry>, account: string, day: int): real {
    if entries == [] then 0.0
    else Balance(entries[..|entries| - 1], account, day) + Weight(entries[|entries| - 1], account, day)
  }

  lemma {:induction false} NetOfSwapped(lines: seq<Line>, account: string)
    ensures Net(Swapped(lines), account) == -Net(lines, account)
  {
    if lines != [] {
      NetOfSwapped(lines[..|lines| - 1], account);
      assert Swapped(lines)[..|lines| - 1] == Swapped(lines[..|lines| - 1]);
    }
  }

  lemma BalanceOfAdded(entries: seq<Entry>, entry: Entry, account: string, day: int)
    ensures Balance(entries + [entry], account, day) == Balance(entries, account, day) + Weight(entry, account, day)
  {
    assert (entries + [entry])[..|entries|] == entries;
  }

  lemma {:induction false} BalanceOfReplaced(entries: seq<Entry>, id: nat, entry: Entry, account: string, day: int)
    requires id < |entries|
    ensures Balance(entries[id := entry], account, day)
         == Balance(entries, account, day) - Weight(entries[id], account, day) + Weight(entry, account, day)
  {
    var n := |entries| - 1;
    if id < n {
      BalanceOfReplaced(entries[..n], id, entry, account, day);
      assert entries[id := entry][..n] == entries[..n][id := entry];
    } else {
      assert entries[id := entry][..n] == entries[..n];
    }
  }

  // ----- What a request moves -----

  function Share(entryDay: int, day: int, amount: real): real {
    if entryDay <= day then amount else 0.0
  }

  /** A posting adds the entry from its day on. A void takes the entry out from its day on, and then its reversal takes
      it out once more from the day of the void on. */
  function Moved(entries: seq<Entry>, request: Request, account: string, day: int): real
    requires request.Post? || request.Void? ==> request.id < |entries|
  {
    match request
    case Create(_, _, _, _) => 0.0
    case Post(id, _, _, _) => Share(entries[id].day, day, Net(entries[id].lines, account))
    case Void(id, _, today, _) =>
      -Share(entries[id].day, day, Net(entries[id].lines, account)) - Share(today, day, Net(entries[id].lines, account))
    case ImportOpening(on, lines, _, posted) => if posted then Share(on, day, Net(AllPriced(lines), account)) else 0.0
  }

  lemma VoidMovesBalance(entries: seq<Entry>, id: nat, today: int, account: string, day: int)
    requires id < |entries| && entries[id].status == Posted
    ensures Balance(entries[id := entries[id].(status := Voided)] + [Entry(today, Posted, Swapped(entries[id].lines))],
                    account, day)
         == Balance(entries, account, day)
            - Share(entries[id].day, day, Net(entries[id].lines, account))
            - Share(today, day, Net(entries[id].lines, account))
  {
    var voided := entries[id].(status := Voided);
    BalanceOfReplaced(entries, id, voided, account, day);
    BalanceOfAdded(entries[id := voided], Entry(today, Posted, Swapped(entries[id].lines)), account, day);
    NetOfSwapped(entries[id].lines, account);
  }

  /** What is accepted posts a draft or voids a posted entry. */
  predicate Fits(entries: seq<Entry>, request: Request) {
    && (request.Post? ==> request.id < |entries| && entries[request.id].status == Draft)
    && (request.Void? ==> request.id < |entries| && entries[request.id].status == Posted)
  }

  lemma RequestMovesBalance(entries: seq<Entry>, request: Request, account: string, day: int)
    requires Fits(entries, request)
    ensures Balance(After(entries, request), account, day)
         == Balance(entries, account, day) + Moved(entries, request, account, day)
  {
    match request {
      case Create(given, lines, today, _) =>
        BalanceOfAdded(entries, Entry(DayOf(given, today), Draft, AllPriced(lines)), account, day);
      case Post(id, _, _, _) =>
        BalanceOfReplaced(entries, id, entries[id].(status := Posted), account, day);
      case Void(id, _, today, _) =>
        VoidMovesBalance(entries, id, today, account, day);
      case ImportOpening(on, lines, _, posted) =>
        BalanceOfAdded(entries, Entry(on, if posted then Posted else Draft, AllPriced(lines)), account, day);
    }
  }

  /** A void takes the entry out of the balance exactly, as a reversal should, if and only if the void is later than
      the balance's day or the entry does not touch the account. On later days it is subtracted twice. */
  lemma VoidCancelsExactlyWhen(lock: LockSetting, entries: seq<Entry>, request: Request, account: string, day: int)
    requires request.Void? && Accepts(lock, entries, request)
    ensures Balance(Handled(lock, entries, request), account, day)
            == Balance(entries, account, day) - Weight(entries[request.id], account, day)
       <==> request.today > day || Net(entries[request.id].lines, account) == 0.0
  {
    RequestMovesBalance(entries, request, account, day);
  }

  /** An entry of day 3, voided on day 5: as of day 8 its 5 in cash are subtracted twice. */
  lemma VoidCanSubtractTwice()
    ensures exists entries: seq<Entry>, request: Request ::
      && request.Void? && Accepts(NoLock, entries, request)
      && Balance(entries, "cash", 8) == 5.0 && Balance(Handled(NoLock, entries, request), "cash", 8) == -5.0
  {
    var lines := [Line("cash", 5.0, 0.0, 1.0, 5.0, 0.0), Line("sales", 0.0, 5.0, 1.0, 0.0, 5.0)];
    var entries, request := [Entry(3, Posted, lines)], Void(0, "wrong customer", 5, true);
    assert lines[..1] == [lines[0]];
    assert Net(lines[..1], "cash") == Net(lines[..1][..0], "cash") + 5.0;
    assert Net(lines, "cash") == 5.0;
    assert Balance(entries, "cash", 8) == Balance(entries[..0], "cash", 8) + Weight(entries[0], "cash", 8);
    RequestMovesBalance(entries, request, "cash", 8);
    assert Moved(entries, request, "cash", 8) == -10.0;
    assert Accepts(NoLock, entries, request) && Balance(Handled(NoLock, entries, request), "cash", 8) == -5.0;
  }

  // ----- Locked days -----

  /** The voids of the run that are carried out on a day up to `day`, by what their entries have on the account. */
  function Backdated(lock: LockSetting, entries: seq<Entry>, requests: seq<Request>, account: string, day: int): real
    decreases |requests|
  {
    if requests == [] then 0.0
    else
      var first := requests[0];
      (if first.Void? && Accepts(lock, entries, first)
       then Share(first.today, day, Net(entries[first.id].lines, account)) else 0.0)
      + Backdated(lock, Handled(lock, entries, first), requests[1..], account, day)
  }

  function Run(lock: LockSetting, entries: seq<Entry>, requests: seq<Request>): seq<Entry>
    decreases |requests|
  {
    if requests == [] then entries else Run(lock, Handled(lock, entries, requests[0]), requests[1..])
  }

  lemma LockedRequestMoves(through: int, entries: seq<Entry>, request: Request, account: string, day: int)
    requires Accepts(LockedThrough(through), entries, request) && day <= through
    ensures Moved(entries, request, account, day)
         == if request.Void? then -Share(request.today, day, Net(entries[request.id].lines, account)) else 0.0
  {}

  /** Behind a lock, whatever is requested: a balance as of a locked day changes by exactly the entries voided on a day
      up to it. */
  lemma {:induction false} LockedBalancesMoveOnlyByVoids(through: int, entries: seq<Entry>, requests: seq<Request>,
                                                         account: string, day: int)
    requires day <= through
    ensures Balance(Run(LockedThrough(through), entries, requests), account, day)
         == Balance(entries, account, day) - Backdated(LockedThrough(through), entries, requests, account, day)
    decreases |requests|
  {
    if requests != [] {
      var lock := LockedThrough(through);
      if Accepts(lock, entries, requests[0]) {
        RequestMovesBalance(entries, requests[0], account, day);
        LockedRequestMoves(through, entries, requests[0], account, day);
      }
      LockedBalancesMoveOnlyByVoids(through, Handled(lock, entries, requests[0]), requests[1..], account, day);
    }
  }

  /** No entry is voided on a locked day. */
  predicate NoVoidUpTo(requests: seq<Request>, through: int) {
    forall i :: 0 <= i < |requests| && requests[i].Void? ==> requests[i].today > through
  }

  lemma {:induction false} NothingBackdated(through: int, entries: seq<Entry>, requests: seq<Request>, account: string,
                                            day: int)
    requires day <= through && NoVoidUpTo(requests, through)
    ensures Backdated(LockedThrough(through), entries, requests, account, day) == 0.0
    decreases |requests|
  {
    if requests != [] {
      NothingBackdated(through, Handled(LockedThrough(through), entries, requests[0]), requests[1..], account, day);
    }
  }

  /** As long as nothing is voided on a locked day, no run changes any balance as of a locked day. */
  lemma {:induction false} LockedBalancesAreFrozen(through: int, entries: seq<Entry>, requests: seq<Request>,
                                                   account: string, day: int)
    requires day <= through && NoVoidUpTo(requests, through)
    ensures Balance(Run(LockedThrough(through), entries, requests), account, day) == Balance(entries, account, day)
  {
    NothingBackdated(through, entries, requests, account, day);
    LockedBalancesMoveOnlyByVoids(through, entries, requests, account, day);
  }

  predicate Frozen(before: seq<Entry>, after: seq<Entry>, account: string, through: int) {
    Balance(after, account, through) == Balance(before, account, through)
  }

  /** One void keeps the balance as of the lock day exactly when it happens after that day, or the entry does not touch
      the account. So a lock that reaches past today does not freeze the locked period. */
  lemma VoidKeepsLockExactlyWhen(through: int, entries: seq<Entry>, request: Request, account: string)
    requires request.Void? && Accepts(LockedThrough(through), entries, request)
    ensures Frozen(entries, Handled(LockedThrough(through), entries, request), account, through)
       <==> request.today > through || Net(entries[request.id].lines, account) == 0.0
  {
    RequestMovesBalance(entries, request, account, through);
    LockedRequestMoves(through, entries, request, account, through);
  }

  /** An entry dated on day 12, voided on day 9 behind a lock through day 10: the balance as of day 10 changes. */
  lemma LockDoesNotFreezeVoids()
    ensures exists entries: seq<Entry>, request: Request ::
      && request.Void? && Accepts(LockedThrough(10), entries, request)
      && !Frozen(entries, Handled(LockedThrough(10), entries, request), "cash", 10)
  {
    var lines := [Line("cash", 5.0, 0.0, 1.0, 5.0, 0.0), Line("sales", 0.0, 5.0, 1.0, 0.0, 5.0)];
    var entries, request := [Entry(12, Posted, lines)], Void(0, "wrong customer", 9, true);
    assert lines[..1] == [lines[0]];
    assert Net(lines[..1], "cash") == Net(lines[..1][..0], "cash") + 5.0;
    assert Net(lines, "cash") == 5.0;
    VoidKeepsLockExactlyWhen(10, entries, request, "cash");
  }

  // ----- Double entry -----

  /** Posted entries dated up to the day, in the base currency: all debits less all credits. */
  function BaseDifference(entries: seq<Entry>, day: int): real {
    if entries == [] then 0.0
    else
      var last := entries[|entries| - 1];
      BaseDifference(entries[..|entries| - 1], day)
      + if last.status == Posted && last.day <= day then BaseDebits(last.lines) - BaseCredits(last.lines) else 0.0
  }

  predicate AllBalanced(entries: seq<Entry>) {
    forall i :: 0 <= i < |entries| ==> Balanced(entries[i].lines)
  }

  lemma {:induction false} SwappedSums(lines: seq<Line>)
    ensures BaseDebits(Swapped(lines)) == BaseCredits(lines) && BaseCredits(Swapped(lines)) == BaseDebits(lines)
  {
    if lines != [] {
      SwappedSums(lines[..|lines| - 1]);
      assert Swapped(lines)[..|lines| - 1] == Swapped(lines[..|lines| - 1]);
    }
  }

  lemma SwappedIsBalanced(lines: seq<Line>)
    requires Balanced(lines)
    ensures Balanced(Swapped(lines))
  {
    SwappedSums(lines);
  }

  lemma AddingKeepsBalanced(entries: seq<Entry>, entry: Entry)
    requires AllBalanced(entries) && Balanced(entry.lines)
    ensures AllBalanced(entries + [entry])
  {}

  lemma StatusKeepsBalanced(entries: seq<Entry>, id: nat, status: EntryStatus)
    requires AllBalanced(entries) && id < |entries|
    ensures AllBalanced(entries[id := entries[id].(status := status)])
  {}

  lemma HandledKeepsBalanced(lock: LockSetting, entries: seq<Entry>, request: Request)
    requires AllBalanced(entries)
    ensures AllBalanced(Handled(lock, entries, request))
  {
    if Accepts(lock, entries, request) {
      match request {
        case Create(given, lines, today, _) =>
          AddingKeepsBalanced(entries, Entry(DayOf(given, today), Draft, AllPriced(lines)));
        case Post(id, _, _, _) =>
          StatusKeepsBalanced(entries, id, Posted);
        case Void(id, _, today, _) =>
          StatusKeepsBalanced(entries, id, Voided);
          SwappedIsBalanced(entries[id].lines);
          AddingKeepsBalanced(entries[id := entries[id].(status := Voided)],
                              Entry(today, Posted, Swapped(entries[id].lines)));
        case ImportOpening(on, lines, _, posted) =>
          AddingKeepsBalanced(entries, Entry(on, if posted then Posted else Draft, AllPriced(lines)));
      }
    }
  }

  lemma {:induction false} BalancedEntriesCancel(entries: seq<Entry>, day: int)
    requires AllBalanced(entries)
    ensures BaseDifference(entries, day) == 0.0
  {
    if entries != [] {
      BalancedEntriesCancel(entries[..|entries| - 1], day);
    }
  }

  /** Whatever is requested, under whatever lock: as of every day, posted debits equal posted credits in the base
      currency. Voids keep this although they count the entry the wrong number of times. */
  lemma {:induction false} BooksStayBalanced(lock: LockSetting, entries: seq<Entry>, requests: seq<Request>, day: int)
    requires AllBalanced(entries)
    ensures AllBalanced(Run(lock, entries, requests)) && BaseDifference(Run(lock, entries, requests), day) == 0.0
    decreases |requests|
  {
    if requests == [] {
      BalancedEntriesCancel(entries, day);
    } else {
      HandledKeepsBalanced(lock, entries, requests[0]);
      BooksStayBalanced(lock, Handled(lock, entries, requests[0]), requests[1..], day);
    }
  }

  // ----- The trial balance adds what was entered, not the base amounts -----

  /** All debits less all credits of the lines, as entered. */
  function Difference(lines: seq<Line>): real {
    if lines == [] then 0.0
    else Difference(lines[..|lines| - 1]) + lines[|lines| - 1].debit - lines[|lines| - 1].credit
  }

  /** The trial balance as of a day: total debits less total credits. */
  function TrialDifference(entries: seq<Entry>, day: int): real {
    if entries == [] then 0.0
    else TrialDifference(entries[..|entries| - 1], day) + TrialWeight(entries[|entries| - 1], day)
  }

  function TrialWeight(entry: Entry, day: int): real {
    if entry.status == Posted && entry.day <= day then Difference(entry.lines) else 0.0
  }

  lemma {:induction false} DifferenceOfSwapped(lines: seq<Line>)
    ensures Difference(Swapped(lines)) == -Difference(lines)
  {
    if lines != [] {
      DifferenceOfSwapped(lines[..|lines| - 1]);
      assert Swapped(lines)[..|lines| - 1] == Swapped(lines[..|lines| - 1]);
    }
  }

  lemma TrialOfAdded(entries: seq<Entry>, entry: Entry, day: int)
    ensures TrialDifference(entries + [entry], day) == TrialDifference(entries, day) + TrialWeight(entry, day)
  {
    assert (entries + [entry])[..|entries|] == entries;
  }

  lemma {:induction false} TrialOfReplaced(entries: seq<Entry>, id: nat, entry: Entry, day: int)
    requires id < |entries|
    ensures TrialDifference(entries[id := entry], day)
         == TrialDifference(entries, day) - TrialWeight(entries[id], day) + TrialWeight(entry, day)
  {
    var n := |entries| - 1;
    if id < n {
      TrialOfReplaced(entries[..n], id, entry, day);
      assert entries[id := entry][..n] == entries[..n][id := entry];
    } else {
      assert entries[id := entry][..n] == entries[..n];
    }
  }

  /** The lines that an accepted request posts or voids. */
  function LinesOf(entries: seq<Entry>, request: Request): seq<Line>
    requires request.Post? || request.Void? ==> request.id < |entries|
  {
    match request
    case Create(_, _, _, _) => []
    case Post(id, _, _, _) => entries[id].lines
    case Void(id, _, _, _) => entries[id].lines
    case ImportOpening(_, lines, _, posted) => if posted then AllPriced(lines) else []
  }

  /** They count as of the day: since they are posted, since the voided entry's day, or since its reversal's. */
  predicate Counts(entries: seq<Entry>, request: Request, day: int)
    requires request.Post? || request.Void? ==> request.id < |entries|
  {
    match request
    case Create(_, _, _, _) => false
    case Post(id, _, _, _) => entries[id].day <= day
    case Void(id, _, today, _) => entries[id].day <= day || today <= day
    case ImportOpening(on, _, _, _) => on <= day
  }

  function TrialMoved(entries: seq<Entry>, request: Request, day: int): real
    requires request.Post? || request.Void? ==> request.id < |entries|
  {
    var amount := Difference(LinesOf(entries, request));
    match request
    case Create(_, _, _, _) => 0.0
    case Post(id, _, _, _) => Share(entries[id].day, day, amount)
    case Void(id, _, today, _) => -Share(entries[id].day, day, amount) - Share(today, day, amount)
    case ImportOpening(on, _, _, _) => Share(on, day, amount)
  }

  lemma VoidMovesTrial(entries: seq<Entry>, id: nat, today: int, day: int)
    requires id < |entries| && entries[id].status == Posted
    ensures TrialDifference(entries[id := entries[id].(status := Voided)]
                            + [Entry(today, Posted, Swapped(entries[id].lines))], day)
         == TrialDifference(entries, day)
            - Share(entries[id].day, day, Difference(entries[id].lines))
            - Share(today, day, Difference(entries[id].lines))
  {
    var voided := entries[id].(status := Voided);
    TrialOfReplaced(entries, id, voided, day);
    TrialOfAdded(entries[id := voided], Entry(today, Posted, Swapped(entries[id].lines)), day);
    DifferenceOfSwapped(entries[id].lines);
  }

  /** Each accepted request moves the trial balance by what its lines differ by, as entered, as a balance would. */
  lemma RequestMovesTrial(entries: seq<Entry>, request: Request, day: int)
    requires Fits(entries, request)
    ensures TrialDifference(After(entries, request), day)
         == TrialDifference(entries, day) + TrialMoved(entries, request, day)
  {
    match request {
      case Create(given, lines, today, _) =>
        TrialOfAdded(entries, Entry(DayOf(given, today), Draft, AllPriced(lines)), day);
      case Post(id, _, _, _) =>
        TrialOfReplaced(entries, id, entries[id].(status := Posted), day);
      case Void(id, _, today, _) =>
        VoidMovesTrial(entries, id, today, day);
      case ImportOpening(on, lines, _, posted) =>
        TrialOfAdded(entries, Entry(on, if posted then Posted else Draft, AllPriced(lines)), day);
    }
  }

  /** An accepted request leaves the trial balance as it is exactly when what it posts or voids does not count as of
      the day, or its debits and credits, as entered, are equal. */
  lemma TrialKeptExactlyWhen(lock: LockSetting, entries: seq<Entry>, request: Request, day: int)
    requires Accepts(lock, entries, request)
    ensures TrialDifference(Handled(lock, entries, request), day) == TrialDifference(entries, day)
       <==> !Counts(entries, request, day) || Difference(LinesOf(entries, request)) == 0.0
  {
    RequestMovesTrial(entries, request, day);
    StaysExactlyWhen(entries, request, day);
  }

  lemma StaysExactlyWhen(entries: seq<Entry>, request: Request, day: int)
    requires Fits(entries, request)
    ensures TrialMoved(entries, request, day) == 0.0
       <==> !Counts(entries, request, day) || Difference(LinesOf(entries, request)) == 0.0
  {
    assert Difference([]) == 0.0;
  }

  /** The entry's debits and credits, as entered, are equal. */
  predicate EnteredAlike(entry: Entry) {
    Difference(entry.lines) == 0.0
  }

  predicate AllEnteredAlike(entries: seq<Entry>) {
    forall i :: 0 <= i < |entries| ==> EnteredAlike(entries[i])
  }

  /** What the request asks to record has equal debits and credits, as entered. */
  predicate AsksAlike(request: Request) {
    request.Create? || request.ImportOpening? ==> Difference(AllPriced(request.lines)) == 0.0
  }

  lemma AfterEnteredAlike(entries: seq<Entry>, request: Request)
    requires AllEnteredAlike(entries) && AsksAlike(request) && Fits(entries, request)
    ensures AllEnteredAlike(After(entries, request))
  {
    if request.Void? {
      DifferenceOfSwapped(entries[request.id].lines);
      assert EnteredAlike(entries[request.id]);
    }
    if request.Post? {
      assert EnteredAlike(entries[request.id]);
    }
  }

  lemma {:induction false} AlikeEntriesCancel(entries: seq<Entry>, day: int)
    requires AllEnteredAlike(entries)
    ensures TrialDifference(entries, day) == 0.0
  {
    if entries != [] {
      AlikeEntriesCancel(entries[..|entries| - 1], day);
      assert EnteredAlike(entries[|entries| - 1]);
    }
  }

  /** As long as everything is entered with equal debits and credits, in whatever currencies, the trial balance is
      balanced as of every day. */
  lemma {:induction false} TrialStaysBalanced(lock: LockSetting, entries: seq<Entry>, requests: seq<Request>, day: int)
    requires AllEnteredAlike(entries)
    requires forall i :: 0 <= i < |requests| ==> AsksAlike(requests[i])
    ensures TrialDifference(Run(lock, entries, requests), day) == 0.0
    decreases |requests|
  {
    if requests == [] {
      AlikeEntriesCancel(entries, day);
    } else {
      assert AsksAlike(requests[0]);
      if Accepts(lock, entries, requests[0]) {
        AfterEnteredAlike(entries, requests[0]);
      }
      TrialStaysBalanced(lock, Handled(lock, entries, requests[0]), requests[1..], day);
    }
  }

  /** 10 in cash against 5 at a rate of 2: the entry is accepted and unbalances the trial balance by 5. */
  lemma TrialCanBeUnbalanced()
    ensures exists lines: seq<RequestLine> :: Creatable(lines) && Difference(AllPriced(lines)) == 5.0
  {
    var lines := [RequestLine("cash", 10.0, 0.0, 1.0), RequestLine("usd", 0.0, 5.0, 2.0)];
    var priced := AllPriced(lines);
    assert priced == [Line("cash", 10.0, 0.0, 1.0, 10.0, 0.0), Line("usd", 0.0, 5.0, 2.0, 0.0, 10.0)];
    assert priced[..1] == [priced[0]] && priced[..1][..0] == [];
    assert BaseDebits(priced[..1]) == 10.0 && BaseCredits(priced[..1]) == 0.0 && Difference(priced[..1]) == 10.0;
  }

  // ----- Two rates -----

  /** All debits are at one rate and all credits at another. */
  predicate AtRates(lines: seq<Line>, debitRate: real, creditRate: real) {
    forall i :: 0 <= i < |lines| ==>
      lines[i].baseDebit == lines[i].debit * debitRate && lines[i].baseCredit == lines[i].credit * creditRate
  }

  function Debits(lines: seq<Line>): real {
    if lines == [] then 0.0 else Debits(lines[..|lines| - 1]) + lines[|lines| - 1].debit
  }

  function Credits(lines: seq<Line>): real {
    if lines == [] then 0.0 else Credits(lines[..|lines| - 1]) + lines[|lines| - 1].credit
  }

  lemma {:induction false} DifferenceOfSums(lines: seq<Line>)
    ensures Difference(lines) == Debits(lines) - Credits(lines)
  {
    if lines != [] {
      DifferenceOfSums(lines[..|lines| - 1]);
    }
  }

  lemma {:induction false} DebitsAtRate(lines: seq<Line>, rate: real)
    requires forall i :: 0 <= i < |lines| ==> lines[i].baseDebit == lines[i].debit * rate
    ensures BaseDebits(lines) == Debits(lines) * rate
  {
    if lines != [] {
      DebitsAtRate(lines[..|lines| - 1], rate);
      Distribute(Debits(lines[..|lines| - 1]), lines[|lines| - 1].debit, rate);
    }
  }

  lemma {:induction false} CreditsAtRate(lines: seq<Line>, rate: real)
    requires forall i :: 0 <= i < |lines| ==> lines[i].baseCredit == lines[i].credit * rate
    ensures BaseCredits(lines) == Credits(lines) * rate
  {
    if lines != [] {
      CreditsAtRate(lines[..|lines| - 1], rate);
      Distribute(Credits(lines[..|lines| - 1]), lines[|lines| - 1].credit, rate);
    }
  }

  lemma Distribute(a: real, b: real, x: real)
    ensures (a + b) * x == a * x + b * x
  {}

  /** A balanced entry with all debits at one rate and all credits at another is balanced in the trial balance exactly
      when the two rates are the same. */
  lemma TwoRatesBalanceTrialExactlyWhen(lines: seq<Line>, debitRate: real, creditRate: real)
    requires Balanced(lines) && AtRates(lines, debitRate, creditRate) && debitRate > 0.0 && creditRate > 0.0
    ensures Difference(lines) == 0.0 <==> debitRate == creditRate
  {
    DifferenceOfSums(lines);
    DebitsAtRate(lines, debitRate);
    CreditsAtRate(lines, creditRate);
    SameProduct(Debits(lines), Credits(lines), debitRate, creditRate, BaseDebits(lines));
  }

  lemma SameProduct(a: real, b: real, x: real, y: real, product: real)
    requires x > 0.0 && y > 0.0 && a * x == product && b * y == product && product != 0.0
    ensures a - b == 0.0 <==> x == y
  {
    if a == b {
      assert a * (x - y) == 0.0;
      assert a != 0.0;
    }
    if x == y {
      assert (a - b) * x == 0.0;
    }
  }
}
