// Journal entries behind the period lock: drafting, posting, voiding and importing opening balances.
module JournalLock {
  import opened Options
  import opened Text

  // ----- The lock -----

  /** What the tenant's settings say: a day number, or no usable one. */
  datatype LockSetting = TenantUnavailable | NoLock | BlankLock | UnreadableLock | LockedThrough(day: int)

  datatype Gate = Open | PeriodLocked(lockDay: int, operationDay: int) | CheckFailed

  /** An operation is let through when its day is later than the lock day, or nothing is locked. */
  function EnsureUnlocked(lock: LockSetting, day: int): Gate {
    match lock
    case TenantUnavailable => CheckFailed
    case NoLock => Open
    case BlankLock => Open
    case UnreadableLock => CheckFailed
    case LockedThrough(through) => if day > through then Open else PeriodLocked(through, day)
  }

  // ----- Entries -----

  /** A line as requested; without a rate it is in the base currency. */
  datatype RequestLine = RequestLine(account: string, debit: real, credit: real, rate: real)

  /** A line as kept, with its amounts in the base currency. */
  datatype Line = Line(account: string, debit: real, credit: real, rate: real, baseDebit: real, baseCredit: real)

  datatype EntryStatus = Draft | Posted | Voided

  datatype Entry = Entry(day: int, status: EntryStatus, lines: seq<Line>)

  function BaseDebits(lines: seq<Line>): real {
    if lines == [] then 0.0
    else BaseDebits(lines[..|lines| - 1]) + lines[|lines| - 1].baseDebit
  }

  function BaseCredits(lines: seq<Line>): real {
    if lines == [] then 0.0
    else BaseCredits(lines[..|lines| - 1]) + lines[|lines| - 1].baseCredit
  }

  predicate LineOk(line: Line) {
    && !(line.debit > 0.0 && line.credit > 0.0) && line.debit >= 0.0 && line.credit >= 0.0
    && line.rate >= 0.0 && line.baseDebit >= 0.0 && line.baseCredit >= 0.0
  }

  /** Debits equal credits, in the base currency, and are not zero. */
  predicate Balanced(lines: seq<Line>) {
    && lines != []
    && (forall i :: 0 <= i < |lines| ==> LineOk(lines[i]))
    && BaseDebits(lines) == BaseCredits(lines) != 0.0
  }

  method Validate(lines: seq<Line>) returns (valid: bool)
    ensures valid <==> Balanced(lines)
  {
    if lines == [] {
      return false;
    }
    var debits, credits := 0.0, 0.0;
    for i := 0 to |lines|
      invariant forall j :: 0 <= j < i ==> LineOk(lines[j])
      invariant debits == BaseDebits(lines[..i]) && credits == BaseCredits(lines[..i])
    {
      assert lines[..i + 1][..i] == lines[..i];
      var line := lines[i];
      if (line.debit > 0.0 && line.credit > 0.0) || line.debit < 0.0 || line.credit < 0.0 {
        return false;
      }
      if (line.rate != 0.0 && line.rate <= 0.0) || line.baseDebit < 0.0 || line.baseCredit < 0.0 {
        return false;
      }
      debits, credits := debits + line.baseDebit, credits + line.baseCredit;
    }
    assert lines[..|lines|] == lines;
    return debits == credits && debits != 0.0;
  }

  function RateOf(line: RequestLine): real {
    if line.rate == 0.0 then 1.0 else line.rate
  }

  function Priced(line: RequestLine): Line {
    var rate := RateOf(line);
    Line(line.account, line.debit, line.credit, rate, line.debit * rate, line.credit * rate)
  }

  function AllPriced(lines: seq<RequestLine>): (priced: seq<Line>)
    ensures |priced| == |lines| && forall i :: 0 <= i < |lines| ==> priced[i] == Priced(lines[i])
  {
    if lines == [] then [] else AllPriced(lines[..|lines| - 1]) + [Priced(lines[|lines| - 1])]
  }

  /** A request for an entry is acceptable when no rate is negative and the entry it makes is balanced. */
  predicate Creatable(lines: seq<RequestLine>) {
    (forall i :: 0 <= i < |lines| ==> lines[i].rate >= 0.0) && Balanced(AllPriced(lines))
  }

  function SwappedLine(line: Line): Line {
    Line(line.account, line.credit, line.debit, line.rate, line.baseCredit, line.baseDebit)
  }

  /** Debits and credits swapped. */
  function Swapped(lines: seq<Line>): (swapped: seq<Line>)
    ensures |swapped| == |lines|
    ensures forall i :: 0 <= i < |lines| ==>
      swapped[i] == SwappedLine(lines[i])
  {
    if lines == [] then []
    else Swapped(lines[..|lines| - 1]) + [SwappedLine(lines[|lines| - 1])]
  }

  // ----- Requests -----

  /** A request, with what it meets on the way: today's day, whether the evidence is there, which writes succeed. */
  datatype Request =
    | Create(given: Option<int>, lines: seq<RequestLine>, today: int, stored: bool)
    | Post(id: nat, reason: string, evidenced: bool, stored: bool)
    | Void(id: nat, reason: string, today: int, stored: bool)
    | ImportOpening(day: int, lines: seq<RequestLine>, stored: bool, posted: bool)

  predicate Accepts(lock: LockSetting, entries: seq<Entry>, request: Request) {
    match request
    case Create(given, lines, today, stored) =>
      |lines| >= 2 && EnsureUnlocked(lock, DayOf(given, today)) == Open && Creatable(lines) && stored
    case Post(id, reason, evidenced, stored) =>
      && id < |entries| && EnsureUnlocked(lock, entries[id].day) == Open && evidenced && TrimSpace(reason) != ""
      && entries[id].status == Draft && Balanced(entries[id].lines) && stored
    case Void(id, reason, today, stored) =>
      && reason != "" && id < |entries| && EnsureUnlocked(lock, entries[id].day) == Open
      && entries[id].status == Posted && stored
    case ImportOpening(day, lines, stored, posted) =>
      EnsureUnlocked(lock, day) == Open && Creatable(lines) && stored
  }

  function DayOf(given: Option<int>, today: int): int {
    if given.Some? then given.value else today
  }

  /** What an accepted request does: a voided entry gets a reversal dated today, and an opening balance whose posting
      fails stays behind as a draft. */
  function After(entries: seq<Entry>, request: Request): seq<Entry>
    requires request.Post? || request.Void? ==> request.id < |entries|
  {
    match request
    case Create(given, lines, today, _) => entries + [Entry(DayOf(given, today), Draft, AllPriced(lines))]
    case Post(id, _, _, _) => entries[id := entries[id].(status := Posted)]
    case Void(id, _, today, _) =>
      entries[id := entries[id].(status := Voided)] + [Entry(today, Posted, Swapped(entries[id].lines))]
    case ImportOpening(day, lines, _, posted) =>
      entries + [Entry(day, if posted then Posted else Draft, AllPriced(lines))]
  }

  function Handled(lock: LockSetting, entries: seq<Entry>, request: Request): seq<Entry> {
    if Accepts(lock, entries, request) then After(entries, request) else entries
  }

  // ----- The journal as an object -----

  class Journal {
    var entries: seq<Entry>

    constructor (entries: seq<Entry>)
      ensures this.entries == entries
    {
      this.entries := entries;
    }

    method CreateEntry(day: int, lines: seq<RequestLine>, stored: bool) returns (id: Option<nat>)
      modifies this
      ensures id == if Creatable(lines) && stored then Some(|old(entries)|) else None
      ensures entries == if id.Some? then old(entries) + [Entry(day, Draft, AllPriced(lines))] else old(entries)
    {
      var priced := [];
      for i := 0 to |lines|
        invariant priced == AllPriced(lines[..i]) && entries == old(entries)
        invariant forall j :: 0 <= j < i ==> lines[j].rate >= 0.0
      {
        assert lines[..i + 1][..i] == lines[..i];
        if lines[i].rate < 0.0 {
          return None;
        }
        priced := priced + [Priced(lines[i])];
      }
      assert lines[..|lines|] == lines;
      var valid := Validate(priced);
      if !valid || !stored {
        return None;
      }
      entries := entries + [Entry(day, Draft, priced)];
      return Some(|entries| - 1);
    }

    method PostEntry(id: nat, reason: string, stored: bool) returns (ok: bool)
      modifies this
      ensures ok <==> TrimSpace(reason) != "" && id < |old(entries)| && old(entries)[id].status == Draft
                      && Balanced(old(entries)[id].lines) && stored
      ensures entries == if ok then old(entries)[id := old(entries)[id].(status := Posted)] else old(entries)
    {
      if TrimSpace(reason) == "" || id >= |entries| || entries[id].status != Draft {
        return false;
      }
      var valid := Validate(entries[id].lines);
      if !valid || !stored {
        return false;
      }
      entries := entries[id := entries[id].(status := Posted)];
      return true;
    }

    /** One transaction: the entry is voided and its reversal added, or neither. */
    method VoidEntry(id: nat, today: int, stored: bool) returns (ok: bool)
      modifies this
      ensures ok <==> id < |old(entries)| && old(entries)[id].status == Posted && stored
      ensures entries == if ok then old(entries)[id := old(entries)[id].(status := Voided)]
                                    + [Entry(today, Posted, Swapped(old(entries)[id].lines))]
                         else old(entries)
    {
      if id >= |entries| || entries[id].status != Posted {
        return false;
      }
      var original := entries[id];
      var reversal := [];
      for i := 0 to |original.lines|
        invariant entries == old(entries) && reversal == Swapped(original.lines[..i])
      {
        assert original.lines[..i + 1][..i] == original.lines[..i];
        reversal := reversal + [SwappedLine(original.lines[i])];
      }
      assert original.lines[..|original.lines|] == original.lines;
      if !stored {
        return false;
      }
      entries := entries[id := original.(status := Voided)] + [Entry(today, Posted, reversal)];
      return true;
    }

    method Handle(lock: LockSetting, request: Request) returns (ok: bool)
      modifies this
      ensures entries == Handled(lock, old(entries), request)
      ensures ok <==> Accepts(lock, old(entries), request) && (request.ImportOpening? ==> request.posted)
    {
      match request {
        case Create(given, lines, today, stored) =>
          if |lines| < 2 || EnsureUnlocked(lock, DayOf(given, today)) != Open {
            return false;
          }
          var id := CreateEntry(DayOf(given, today), lines, stored);
          return id.Some?;
        case Post(id, reason, evidenced, stored) =>
          if id >= |entries| || EnsureUnlocked(lock, entries[id].day) != Open || !evidenced {
            return false;
          }
          ok := PostEntry(id, reason, stored);
        case Void(id, reason, today, stored) =>
          if reason == "" || id >= |entries| || EnsureUnlocked(lock, entries[id].day) != Open {
            return false;
          }
          ok := VoidEntry(id, today, stored);
        case ImportOpening(day, lines, stored, posted) =>
          if EnsureUnlocked(lock, day) != Open {
            return false;
          }
          var id := CreateEntry(day, lines, stored);
          if id.None? {
            return false;
          }
          ok := PostEntry(id.value, "Opening balance import", posted);
      }
    }
  }
}
