// The event stream that watches a migration execution run.
module RunStream {
  import opened Options
  import opened CutoverRun
  import opened MigrationServer
  import opened MigrationResume
  import opened MigrationStatus

  datatype RunEvent =
    | SnapshotEvent(sequence: nat, run: Snapshot)
    | CompleteEvent(sequence: nat, run: Snapshot)
    | ErrorEvent(sequence: nat)

  /** What happens after a snapshot has been sent: the client leaves, or the run is loaded again. */
  datatype Turn = ClientGone | Loaded(run: Snapshot) | LoadFailed

  /** Every turn after the listed ones finds the client gone. */
  function TurnAt(turns: seq<Turn>, k: nat): Turn {
    if k < |turns| then turns[k] else ClientGone
  }

  function EventFor(sequence: nat, run: Snapshot): RunEvent {
    if Terminal(run.summary.status) then CompleteEvent(sequence, run) else SnapshotEvent(sequence, run)
  }

  // ----- What the client is to receive -----

  /** The runs loaded one after the other, as long as loading succeeds. */
  function Fetched(run: Snapshot, turns: seq<Turn>): (runs: seq<Snapshot>)
    ensures runs != [] && runs[0] == run
    decreases |turns|
  {
    [run] + if TurnAt(turns, 0).Loaded? then Fetched(turns[0].run, turns[1..]) else []
  }

  /** How many of the runs there are up to the first terminal one. */
  function UpToTerminal(runs: seq<Snapshot>): (n: nat)
    ensures n <= |runs|
  {
    if runs == [] then 0
    else if Terminal(runs[0].summary.status) then 1
    else 1 + UpToTerminal(runs[1..])
  }

  function Least(a: nat, b: nat, c: nat): nat {
    if a <= b && a <= c then a else if b <= c then b else c
  }

  /** How many runs are shown: they end with the first terminal run, the limit, or the connection. */
  function ShownCount(runs: seq<Snapshot>, maxEvents: nat, writes: nat): (n: nat)
    ensures n <= |runs|
  {
    Least(UpToTerminal(runs), maxEvents, writes)
  }

  /** The first m runs, numbered from 1. */
  function Shown(runs: seq<Snapshot>, m: nat): (events: seq<RunEvent>)
    requires m <= |runs|
    ensures |events| == m
  {
    if m == 0 then [] else Shown(runs, m - 1) + [EventFor(m, runs[m - 1])]
  }

  lemma {:induction false} ShownAt(runs: seq<Snapshot>, m: nat, k: nat)
    requires k < m <= |runs|
    ensures Shown(runs, m)[k] == EventFor(k + 1, runs[k])
  {
    if k < m - 1 {
      ShownAt(runs, m - 1, k);
    }
  }

  /** All runs are shown, none is terminal, loading fails then, and the client can still be told. */
  predicate FailsAfter(runs: seq<Snapshot>, turns: seq<Turn>, maxEvents: nat, writes: nat)
    requires runs != []
  {
    && ShownCount(runs, maxEvents, writes) == |runs| < writes
    && !Terminal(runs[|runs| - 1].summary.status)
    && TurnAt(turns, |runs| - 1) == LoadFailed
  }

  /** The loaded runs one by one, up to the first terminal run, the limit, or the end of the connection; after them an
      error event, if loading failed before any of the three. */
  function Trace(first: Snapshot, maxEvents: nat, turns: seq<Turn>, writes: nat): seq<RunEvent> {
    var runs := Fetched(first, turns);
    var n := ShownCount(runs, maxEvents, writes);
    Shown(runs, n) + if FailsAfter(runs, turns, maxEvents, writes) then [ErrorEvent(n + 1)] else []
  }

  lemma {:induction false} FetchedNext(first: Snapshot, turns: seq<Turn>, k: nat)
    requires k < |Fetched(first, turns)|
    ensures TurnAt(turns, k).Loaded? <==> k + 1 < |Fetched(first, turns)|
    ensures TurnAt(turns, k).Loaded? ==> Fetched(first, turns)[k + 1] == turns[k].run
    decreases k
  {
    if k > 0 {
      FetchedNext(turns[0].run, turns[1..], k - 1);
      assert Fetched(first, turns)[1..] == Fetched(turns[0].run, turns[1..]);
      assert TurnAt(turns, k) == TurnAt(turns[1..], k - 1);
    }
  }

  lemma {:induction false} FirstTerminal(runs: seq<Snapshot>)
    ensures UpToTerminal(runs) <= |runs|
    ensures forall k :: 0 <= k < UpToTerminal(runs) - 1 ==> !Terminal(runs[k].summary.status)
    ensures UpToTerminal(runs) < |runs| ==>
      UpToTerminal(runs) > 0 && Terminal(runs[UpToTerminal(runs) - 1].summary.status)
  {
    if runs != [] && !Terminal(runs[0].summary.status) {
      FirstTerminal(runs[1..]);
      forall k | 0 <= k < UpToTerminal(runs) - 1 ensures !Terminal(runs[k].summary.status) {
        if k > 0 {
          assert runs[k] == runs[1..][k - 1];
        }
      }
    }
  }

  // ----- The stream as a program -----

  /** What one turn of the loop sends, after m runs. */
  function Sent(run: Snapshot, m: nat, turn: Turn, writes: nat): seq<RunEvent> {
    if writes == 0 then []
    else
      [EventFor(m + 1, run)]
      + if turn.LoadFailed? && writes > 1 && !Terminal(run.summary.status) then [ErrorEvent(m + 2)] else []
  }

  predicate GoesOn(run: Snapshot, turn: Turn, writes: nat) {
    writes > 0 && !Terminal(run.summary.status) && turn.Loaded?
  }

  /** A connection: what the client has received, and how many more events will get through. */
  class Connection {
    var sent: seq<RunEvent>
    var writes: nat

    constructor (writes: nat)
      ensures sent == [] && this.writes == writes
    {
      sent, this.writes := [], writes;
    }

    method Send(event: RunEvent) returns (ok: bool)
      modifies this
      ensures ok <==> old(writes) > 0
      ensures sent == if ok then old(sent) + [event] else old(sent)
      ensures writes == if ok then old(writes) - 1 else 0
    {
      ok := writes > 0;
      if ok {
        sent, writes := sent + [event], writes - 1;
      }
    }

    /** One turn of the loop, when `runs` is what will have been loaded and the first m runs have been shown. */
    method ShowNext(current: Snapshot, m: nat, turn: Turn) returns (next: Option<Snapshot>)
      modifies this
      ensures sent == old(sent) + Sent(current, m, turn, old(writes))
      ensures next == if GoesOn(current, turn, old(writes)) then Some(turn.run) else None
      ensures next.Some? ==> writes == old(writes) - 1
    {
      var event := EventFor(m + 1, current);
      var ok := Send(event);
      if !ok || event.CompleteEvent? {
        return None;
      }
      match turn {
        case ClientGone => return None;
        case LoadFailed =>
          ok := Send(ErrorEvent(m + 2));
          return None;
        case Loaded(run) => return Some(run);
      }
    }

    /** One request streams over one new connection. */
    method Stream(first: Snapshot, maxEvents: nat, turns: seq<Turn>)
      requires sent == []
      modifies this
      ensures sent == Trace(first, maxEvents, turns, old(writes))
    {
      var current := first;
      for sequence := 1 to maxEvents + 1
        invariant Underway(Fetched(first, turns), sequence - 1, current, sent, old(writes), writes)
      {
        TurnOfTrace(first, maxEvents, turns, old(writes), sequence - 1, current, sent, writes);
        var next := ShowNext(current, sequence - 1, TurnAt(turns, sequence - 1));
        if next.None? {
          return;
        }
        current := next.value;
      }
      LimitOfTrace(first, maxEvents, turns, old(writes), current, sent, writes);
    }
  }

  /** Exactly the first m runs have been shown, and run m has been loaded. */
  predicate Underway(runs: seq<Snapshot>, m: nat, run: Snapshot, shown: seq<RunEvent>, writes: nat, left: nat) {
    && m < |runs| && run == runs[m] && m < UpToTerminal(runs)
    && m <= writes && left == writes - m && shown == Shown(runs, m)
  }

  lemma TurnOfTrace(first: Snapshot, maxEvents: nat, turns: seq<Turn>, writes: nat, m: nat, run: Snapshot,
                    shown: seq<RunEvent>, left: nat)
    requires Underway(Fetched(first, turns), m, run, shown, writes, left) && m < maxEvents
    ensures var turn := TurnAt(turns, m);
      var now := shown + Sent(run, m, turn, left);
      if GoesOn(run, turn, left) then Underway(Fetched(first, turns), m + 1, turn.run, now, writes, left - 1)
      else now == Trace(first, maxEvents, turns, writes)
  {
    CountAt(first, turns, m);
    if left > 0 && !GoesOn(run, TurnAt(turns, m), left) {
      LastShown(first, maxEvents, turns, writes, m);
    }
  }

  lemma LastShown(first: Snapshot, maxEvents: nat, turns: seq<Turn>, writes: nat, m: nat)
    requires m < UpToTerminal(Fetched(first, turns)) && m < maxEvents && m < writes
    requires !GoesOn(Fetched(first, turns)[m], TurnAt(turns, m), writes - m)
    ensures Trace(first, maxEvents, turns, writes)
         == Shown(Fetched(first, turns), m) + Sent(Fetched(first, turns)[m], m, TurnAt(turns, m), writes - m)
  {
    CountAt(first, turns, m);
    FailsAtLast(first, maxEvents, turns, writes, m);
    SentLast(Fetched(first, turns), m, TurnAt(turns, m), writes,
             FailsAfter(Fetched(first, turns), turns, maxEvents, writes));
  }

  lemma SentLast(runs: seq<Snapshot>, m: nat, turn: Turn, writes: nat, fails: bool)
    requires m < |runs| && m < writes
    requires fails <==> turn.LoadFailed? && writes > m + 1 && !Terminal(runs[m].summary.status)
    ensures Shown(runs, m + 1) + (if fails then [ErrorEvent(m + 2)] else [])
         == Shown(runs, m) + Sent(runs[m], m, turn, writes - m)
  {
    assert Shown(runs, m + 1) == Shown(runs, m) + [EventFor(m + 1, runs[m])];
  }

  lemma FailsAtLast(first: Snapshot, maxEvents: nat, turns: seq<Turn>, writes: nat, m: nat)
    requires m < |Fetched(first, turns)| && ShownCount(Fetched(first, turns), maxEvents, writes) == m + 1
    requires TurnAt(turns, m).Loaded? <==> m + 1 < |Fetched(first, turns)|
    ensures FailsAfter(Fetched(first, turns), turns, maxEvents, writes)
       <==> TurnAt(turns, m).LoadFailed? && writes > m + 1 && !Terminal(Fetched(first, turns)[m].summary.status)
  {}

  /** After run m the count of runs to show goes on or stops. */
  lemma CountAt(first: Snapshot, turns: seq<Turn>, m: nat)
    requires m < UpToTerminal(Fetched(first, turns))
    ensures var runs := Fetched(first, turns);
      if !Terminal(runs[m].summary.status) && TurnAt(turns, m).Loaded?
      then m + 1 < UpToTerminal(runs) && runs[m + 1] == turns[m].run
      else UpToTerminal(runs) == m + 1
    ensures !TurnAt(turns, m).Loaded? <==> |Fetched(first, turns)| == m + 1
  {
    FirstTerminal(Fetched(first, turns));
    FetchedNext(first, turns, m);
  }

  lemma LimitOfTrace(first: Snapshot, maxEvents: nat, turns: seq<Turn>, writes: nat, run: Snapshot,
                     shown: seq<RunEvent>, left: nat)
    requires Underway(Fetched(first, turns), maxEvents, run, shown, writes, left)
    ensures shown == Trace(first, maxEvents, turns, writes)
  {}

  // ----- What the client does receive -----

  lemma TraceAt(first: Snapshot, maxEvents: nat, turns: seq<Turn>, writes: nat, k: nat)
    requires k < ShownCount(Fetched(first, turns), maxEvents, writes)
    ensures k < |Trace(first, maxEvents, turns, writes)|
    ensures Trace(first, maxEvents, turns, writes)[k] == EventFor(k + 1, Fetched(first, turns)[k])
  {
    ShownAt(Fetched(first, turns), ShownCount(Fetched(first, turns), maxEvents, writes), k);
  }

  /** Events are numbered from 1 without gaps; only the last one can be something else than a snapshot; and at most
      maxEvents of them carry a run. */
  lemma StreamEndsOnce(first: Snapshot, maxEvents: nat, turns: seq<Turn>, writes: nat)
    ensures var events := Trace(first, maxEvents, turns, writes);
      && |events| <= maxEvents + 1 && |events| <= writes
      && (|events| == maxEvents + 1 ==> events[maxEvents].ErrorEvent?)
      && (forall k :: 0 <= k < |events| - 1 ==> events[k].SnapshotEvent?)
      && (forall k :: 0 <= k < |events| ==> events[k].sequence == k + 1)
  {
    var events, runs := Trace(first, maxEvents, turns, writes), Fetched(first, turns);
    FirstTerminal(runs);
    forall k | 0 <= k < ShownCount(runs, maxEvents, writes) ensures events[k] == EventFor(k + 1, runs[k]) {
      TraceAt(first, maxEvents, turns, writes, k);
    }
  }

  // ----- What each event shows, and why the stream ends -----

  /** Run k of the stream: the first one, and then what each turn has loaded. */
  function RunAt(first: Snapshot, turns: seq<Turn>, k: nat): Snapshot
    requires k > 0 ==> TurnAt(turns, k - 1).Loaded?
  {
    if k == 0 then first else turns[k - 1].run
  }

  lemma {:induction false} FetchedAt(first: Snapshot, turns: seq<Turn>, k: nat)
    requires k < |Fetched(first, turns)|
    ensures forall j :: 0 <= j < k ==> TurnAt(turns, j).Loaded?
    ensures Fetched(first, turns)[k] == RunAt(first, turns, k)
  {
    if k > 0 {
      FetchedAt(first, turns, k - 1);
      FetchedNext(first, turns, k - 1);
    }
  }

  /** Event k carries run k, as loaded, and is a complete event exactly when that run is terminal; or it is an error
      event, and the load before it failed. */
  lemma EventShows(first: Snapshot, maxEvents: nat, turns: seq<Turn>, writes: nat, k: nat)
    requires k < |Trace(first, maxEvents, turns, writes)|
    ensures var event := Trace(first, maxEvents, turns, writes)[k];
      if event.ErrorEvent? then k > 0 && TurnAt(turns, k - 1) == LoadFailed
      else
        && (forall j :: 0 <= j < k ==> TurnAt(turns, j).Loaded?)
        && event.run == RunAt(first, turns, k)
        && (event.CompleteEvent? <==> Terminal(event.run.summary.status))
  {
    if k < ShownCount(Fetched(first, turns), maxEvents, writes) {
      TraceAt(first, maxEvents, turns, writes, k);
      FetchedAt(first, turns, k);
    }
  }

  /** A stream that sends nothing has no events or no connection. One whose last event is a snapshot has used up the
      connection, lost its client, or reached its limit of events with another run loaded. So where a load fails and
      the connection still stands, the error event does follow. */
  lemma StreamEndsFor(first: Snapshot, maxEvents: nat, turns: seq<Turn>, writes: nat)
    ensures var events := Trace(first, maxEvents, turns, writes);
      && (events == [] <==> maxEvents == 0 || writes == 0)
      && (events != [] && events[|events| - 1].SnapshotEvent? ==>
            var turn := TurnAt(turns, |events| - 1);
            |events| == writes || turn == ClientGone || (|events| == maxEvents && turn.Loaded?))
  {
    var events, runs := Trace(first, maxEvents, turns, writes), Fetched(first, turns);
    var n := ShownCount(runs, maxEvents, writes);
    if events != [] && events[|events| - 1].SnapshotEvent? {
      assert |events| == n;
      TraceAt(first, maxEvents, turns, writes, n - 1);
      FetchedNext(first, turns, n - 1);
      EndsByCount(runs, turns, maxEvents, writes, n);
    }
  }

  lemma EndsByCount(runs: seq<Snapshot>, turns: seq<Turn>, maxEvents: nat, writes: nat, n: nat)
    requires runs != [] && n == ShownCount(runs, maxEvents, writes) > 0 && !Terminal(runs[n - 1].summary.status)
    requires TurnAt(turns, n - 1).Loaded? <==> n < |runs|
    requires !FailsAfter(runs, turns, maxEvents, writes)
    ensures n == writes || TurnAt(turns, n - 1) == ClientGone || (n == maxEvents && TurnAt(turns, n - 1).Loaded?)
  {
    FirstTerminal(runs);
  }

  predicate Completes(events: seq<RunEvent>) {
    events != [] && events[|events| - 1].CompleteEvent?
  }

  /** A terminal run is among the first maxEvents runs that the connection takes. */
  predicate EndIsSeen(runs: seq<Snapshot>, maxEvents: nat, writes: nat) {
    exists k :: 0 <= k < |runs| && k < maxEvents && k < writes && Terminal(runs[k].summary.status)
  }

  lemma EndIsLastShown(runs: seq<Snapshot>, maxEvents: nat, writes: nat)
    ensures var n := ShownCount(runs, maxEvents, writes);
      EndIsSeen(runs, maxEvents, writes) <==> n > 0 && Terminal(runs[n - 1].summary.status)
  {
    FirstTerminal(runs);
    var n := ShownCount(runs, maxEvents, writes);
    if k :| 0 <= k < |runs| && k < maxEvents && k < writes && Terminal(runs[k].summary.status) {
      assert n == UpToTerminal(runs) <= k + 1;
      assert n < |runs| || n - 1 == k;
    }
  }

  /** The stream completes exactly when it gets to see the end: a run that ends later, or that only the poll after the
      last event finds ended, is not reported. */
  lemma CompletesIffEndIsSeen(first: Snapshot, maxEvents: nat, turns: seq<Turn>, writes: nat)
    ensures Completes(Trace(first, maxEvents, turns, writes)) <==> EndIsSeen(Fetched(first, turns), maxEvents, writes)
  {
    CompletesByCount(first, maxEvents, turns, writes);
    EndIsLastShown(Fetched(first, turns), maxEvents, writes);
  }

  lemma CompletesByCount(first: Snapshot, maxEvents: nat, turns: seq<Turn>, writes: nat)
    ensures var n := ShownCount(Fetched(first, turns), maxEvents, writes);
      Completes(Trace(first, maxEvents, turns, writes))
      <==> n > 0 && Terminal(Fetched(first, turns)[n - 1].summary.status)
  {
    var n := ShownCount(Fetched(first, turns), maxEvents, writes);
    if n > 0 {
      TraceAt(first, maxEvents, turns, writes, n - 1);
    }
  }

  // ----- Watching an execution -----

  lemma {:induction false} SignalsAt(events: seq<Event>, i: nat)
    requires SignalsEnd(events) && i < |events| && events[i].Saved?
    ensures Terminal(events[i].run.summary.status) <==> !HasImport(events[i + 1..])
  {
    if i > 0 {
      SignalsAt(events[1..], i - 1);
      assert events[1..][i..] == events[i + 1..];
    }
  }

  lemma {:induction false} NoImportLater(events: seq<Event>, p: nat)
    requires !HasImport(events) && p <= |events|
    ensures !HasImport(events[p..])
  {
    if p > 0 {
      NoImportLater(events[1..], p - 1);
      assert events[1..][p - 1..] == events[p..];
    }
  }

  /** The stream's runs are what the store held when the attempt had got as far as these points. */
  ghost predicate LoadedFrom(runs: seq<Snapshot>, events: seq<Event>, points: seq<nat>) {
    && |points| == |runs|
    && forall k :: 0 <= k < |runs| ==> points[k] <= |events| && LastSaved(events[..points[k]]) == Some(runs[k])
  }

  lemma WatchedRun(events: seq<Event>, p: nat, run: Snapshot) returns (i: nat)
    requires SignalsEnd(events) && p <= |events| && LastSaved(events[..p]) == Some(run)
    ensures i < p && events[i] == Saved(run)
    ensures Terminal(run.summary.status) ==> !HasImport(events[p..])
    ensures !Terminal(run.summary.status) ==> HasImport(events[i + 1..])
  {
    i := LastSavedIsSaved(events[..p]);
    assert events[i] == events[..p][i];
    SignalsAt(events, i);
    if Terminal(run.summary.status) {
      NoImportLater(events[i + 1..], p - i - 1);
      assert events[i + 1..][p - i - 1..] == events[p..];
    }
  }

  lemma WatchedEvent(events: seq<Event>, points: seq<nat>, runs: seq<Snapshot>, k: nat)
    requires SignalsEnd(events) && LoadedFrom(runs, events, points) && k < |runs|
    ensures k < |points| && points[k] <= |events| && ShowsProgress(EventFor(k + 1, runs[k]), events, points[k])
  {
    var i := WatchedRun(events, points[k], runs[k]);
  }

  /** A complete event means that no import follows; a snapshot was saved ahead of one. */
  ghost predicate ShowsProgress(seen: RunEvent, events: seq<Event>, p: nat)
    requires p <= |events| && !seen.ErrorEvent?
  {
    if seen.CompleteEvent? then !HasImport(events[p..])
    else exists i :: 0 <= i < p && events[i] == Saved(seen.run) && HasImport(events[i + 1..])
  }

  /** Watching an attempt: once the stream completes, the attempt imports nothing more; and each snapshot it shows
      before was saved ahead of an import. */
  lemma CompleteMeansOver(plan: Plan, files: seq<BundleFile>, from: Option<Snapshot>, attempt: Attempt,
                          first: Snapshot, turns: seq<Turn>, points: seq<nat>, maxEvents: nat, writes: nat, k: nat)
    requires WellSummarized(plan) && Numbered(plan) && Resumable(plan, from)
    requires LoadedFrom(Fetched(first, turns), AttemptEvents(plan, files, from, attempt), points)
    requires k < |Trace(first, maxEvents, turns, writes)| && !Trace(first, maxEvents, turns, writes)[k].ErrorEvent?
    ensures k < |points| && points[k] <= |AttemptEvents(plan, files, from, attempt)|
    ensures ShowsProgress(Trace(first, maxEvents, turns, writes)[k], AttemptEvents(plan, files, from, attempt),
                          points[k])
  {
    TerminalMeansOver(plan, files, from, attempt);
    TraceAt(first, maxEvents, turns, writes, k);
    WatchedEvent(AttemptEvents(plan, files, from, attempt), points, Fetched(first, turns), k);
  }
}
