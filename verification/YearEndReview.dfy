// The year-end review of inventory costing, and what it and the close evidence do to carry-forward readiness.
module YearEndReview {
  import opened Options
  import opened Text

  datatype ValuationLine = ValuationLine(quantity: real, available: real, unitCost: real, value: real)

  datatype Rule = NegativeQuantity | NegativeAvailable | NegativeValue | MissingCost

  predicate Breaks(line: ValuationLine, rule: Rule) {
    match rule
    case NegativeQuantity => line.quantity < 0.0
    case NegativeAvailable => line.available < 0.0
    case NegativeValue => line.value < 0.0
    case MissingCost => line.quantity > 0.0 && !(line.unitCost > 0.0)
  }

  predicate Sound(line: ValuationLine) {
    forall rule: Rule :: !Breaks(line, rule)
  }

  /** How many lines break the rule, and how many break any. */
  function Breaking(lines: seq<ValuationLine>, rule: Rule): (n: nat)
    ensures n <= |lines|
  {
    if lines == [] then 0
    else Breaking(lines[..|lines| - 1], rule) + if Breaks(lines[|lines| - 1], rule) then 1 else 0
  }

  function BreakingAny(lines: seq<ValuationLine>): nat {
    if lines == [] then 0
    else BreakingAny(lines[..|lines| - 1]) + if Sound(lines[|lines| - 1]) then 0 else 1
  }

  datatype Review = Review(
    lineCount: nat, negativeQuantity: nat, negativeAvailable: nat, negativeValue: nat, missingCost: nat,
    blocking: nat, ready: bool)

  /** The review counts the lines that break each rule and those that break any, and is ready when none does. */
  predicate Reviews(review: Review, lines: seq<ValuationLine>) {
    && review.lineCount == |lines|
    && review.negativeQuantity == Breaking(lines, NegativeQuantity)
    && review.negativeAvailable == Breaking(lines, NegativeAvailable)
    && review.negativeValue == Breaking(lines, NegativeValue)
    && review.missingCost == Breaking(lines, MissingCost)
    && review.blocking == BreakingAny(lines)
    && (review.ready <==> forall i :: 0 <= i < |lines| ==> Sound(lines[i]))
  }

  method ReviewCosting(lines: seq<ValuationLine>) returns (review: Review)
    ensures Reviews(review, lines)
  {
    var quantity, available, value, cost, blockingLines := 0, 0, 0, 0, 0;
    for i := 0 to |lines|
      invariant quantity == Breaking(lines[..i], NegativeQuantity)
      invariant available == Breaking(lines[..i], NegativeAvailable)
      invariant value == Breaking(lines[..i], NegativeValue) && cost == Breaking(lines[..i], MissingCost)
      invariant blockingLines == BreakingAny(lines[..i])
    {
      assert lines[..i + 1][..i] == lines[..i];
      var line := lines[i];
      var blocking := false;
      if line.quantity < 0.0 {
        quantity, blocking := quantity + 1, true;
      }
      if line.available < 0.0 {
        available, blocking := available + 1, true;
      }
      if line.value < 0.0 {
        value, blocking := value + 1, true;
      }
      if line.quantity > 0.0 && !(line.unitCost > 0.0) {
        cost, blocking := cost + 1, true;
      }
      SoundExactlyWhen(line);
      if blocking {
        blockingLines := blockingLines + 1;
      }
    }
    assert lines[..|lines|] == lines;
    NothingBreaking(lines);
    return Review(|lines|, quantity, available, value, cost, blockingLines, blockingLines == 0);
  }

  predicate BreaksSome(line: ValuationLine) {
    || Breaks(line, NegativeQuantity) || Breaks(line, NegativeAvailable)
    || Breaks(line, NegativeValue) || Breaks(line, MissingCost)
  }

  lemma SoundExactlyWhen(line: ValuationLine)
    ensures Sound(line) <==> !BreaksSome(line)
  {
    if rule: Rule :| Breaks(line, rule) {
      assert BreaksSome(line);
    }
  }

  lemma {:induction false} NothingBreaking(lines: seq<ValuationLine>)
    ensures BreakingAny(lines) == 0 <==> forall i :: 0 <= i < |lines| ==> Sound(lines[i])
  {
    if lines != [] {
      var n := |lines| - 1;
      NothingBreaking(lines[..n]);
      if forall i :: 0 <= i < |lines| ==> Sound(lines[i]) {
        assert forall i :: 0 <= i < n ==> lines[..n][i] == lines[i];
      }
      if BreakingAny(lines) == 0 {
        assert Sound(lines[n]);
        assert forall i :: 0 <= i < n ==> lines[i] == lines[..n][i];
      }
    }
  }

  /** A line cannot lack a cost and have a negative quantity; any other rules can be broken together. The number of
      blocking lines is bounded accordingly. */
  lemma {:induction false} BlockingBounds(lines: seq<ValuationLine>, rule: Rule)
    ensures Breaking(lines, rule) <= BreakingAny(lines) <= |lines|
    ensures Breaking(lines, NegativeQuantity) + Breaking(lines, MissingCost) <= BreakingAny(lines)
    ensures BreakingAny(lines) <= AllBreaches(lines)
  {
    if lines != [] {
      var last := lines[|lines| - 1];
      BlockingBounds(lines[..|lines| - 1], rule);
      SoundExactlyWhen(last);
      assert Breaks(last, rule) ==> !Sound(last);
    }
  }

  function AllBreaches(lines: seq<ValuationLine>): nat {
    Breaking(lines, NegativeQuantity) + Breaking(lines, NegativeAvailable) + Breaking(lines, NegativeValue)
    + Breaking(lines, MissingCost)
  }

  predicate OneBreachAtMost(line: ValuationLine) {
    forall a: Rule, b: Rule :: Breaks(line, a) && Breaks(line, b) ==> a == b
  }

  lemma BreachesOfLine(line: ValuationLine)
    ensures var n := (if Breaks(line, NegativeQuantity) then 1 else 0)
                     + (if Breaks(line, NegativeAvailable) then 1 else 0)
                     + (if Breaks(line, NegativeValue) then 1 else 0) + (if Breaks(line, MissingCost) then 1 else 0);
      && (n == 0 <==> Sound(line))
      && (n <= 1 <==> OneBreachAtMost(line))
  {
    SoundExactlyWhen(line);
    if OneBreachAtMost(line) {
      assert NegativeQuantity != NegativeAvailable && NegativeQuantity != NegativeValue;
      assert NegativeQuantity != MissingCost;
    }
  }

  /** The four counts add up to the number of blocking lines exactly when no line breaks two rules. */
  lemma {:induction false} CountsAddUpExactlyWhen(lines: seq<ValuationLine>)
    ensures BreakingAny(lines) == AllBreaches(lines) <==> forall i :: 0 <= i < |lines| ==> OneBreachAtMost(lines[i])
  {
    if lines != [] {
      var n := |lines| - 1;
      CountsAddUpExactlyWhen(lines[..n]);
      BlockingBounds(lines[..n], NegativeQuantity);
      BreachesOfLine(lines[n]);
      assert forall i :: 0 <= i < n ==> lines[..n][i] == lines[i];
      if forall i :: 0 <= i < n ==> OneBreachAtMost(lines[..n][i]) {
        assert forall i :: 0 <= i < n ==> OneBreachAtMost(lines[i]);
      }
    }
  }

  // ----- What is counted -----

  lemma {:induction false} BreakingCounts(lines: seq<ValuationLine>, rule: Rule, found: set<int>)
    requires forall i {:trigger i in found} :: i in found <==> 0 <= i < |lines| && Breaks(lines[i], rule)
    ensures Breaking(lines, rule) == |found|
  {
    if lines == [] {
      assert forall i :: i !in found;
    } else {
      var n := |lines| - 1;
      assert n in found <==> Breaks(lines[n], rule);
      BreakingCounts(lines[..n], rule, found - {n});
    }
  }

  lemma {:induction false} BreakingAnyCounts(lines: seq<ValuationLine>, found: set<int>)
    requires forall i {:trigger i in found} :: i in found <==> 0 <= i < |lines| && !Sound(lines[i])
    ensures BreakingAny(lines) == |found|
  {
    if lines == [] {
      assert forall i :: i !in found;
    } else {
      var n := |lines| - 1;
      assert n in found <==> !Sound(lines[n]);
      BreakingAnyCounts(lines[..n], found - {n});
    }
  }

  /** A line is sound when nothing is negative and whatever is in stock has a cost. */
  lemma SoundMeans(line: ValuationLine)
    ensures Sound(line)
       <==> line.quantity >= 0.0 && line.available >= 0.0 && line.value >= 0.0
            && (line.quantity == 0.0 || line.unitCost > 0.0)
  {
    SoundExactlyWhen(line);
  }

  /** The review counts the lines with a negative quantity, available quantity or value, those in stock without a
      positive cost, and those with any of these. */
  lemma ReviewCountsLines(lines: seq<ValuationLine>)
    ensures Breaking(lines, NegativeQuantity) == |set i | 0 <= i < |lines| && lines[i].quantity < 0.0|
    ensures Breaking(lines, NegativeAvailable) == |set i | 0 <= i < |lines| && lines[i].available < 0.0|
    ensures Breaking(lines, NegativeValue) == |set i | 0 <= i < |lines| && lines[i].value < 0.0|
    ensures Breaking(lines, MissingCost)
         == |set i | 0 <= i < |lines| && lines[i].quantity > 0.0 && lines[i].unitCost <= 0.0|
    ensures BreakingAny(lines)
         == |set i | 0 <= i < |lines|
                     && (lines[i].quantity < 0.0 || lines[i].available < 0.0 || lines[i].value < 0.0
                         || (lines[i].quantity > 0.0 && lines[i].unitCost <= 0.0))|
  {
    BreakingCounts(lines, NegativeQuantity, set i | 0 <= i < |lines| && lines[i].quantity < 0.0);
    BreakingCounts(lines, NegativeAvailable, set i | 0 <= i < |lines| && lines[i].available < 0.0);
    BreakingCounts(lines, NegativeValue, set i | 0 <= i < |lines| && lines[i].value < 0.0);
    BreakingCounts(lines, MissingCost, set i | 0 <= i < |lines| && lines[i].quantity > 0.0 && lines[i].unitCost <= 0.0);
    forall i | 0 <= i < |lines|
      ensures Sound(lines[i]) <==>
              !(lines[i].quantity < 0.0 || lines[i].available < 0.0 || lines[i].value < 0.0
                || (lines[i].quantity > 0.0 && lines[i].unitCost <= 0.0))
    {
      SoundMeans(lines[i]);
    }
    BreakingAnyCounts(lines, set i | 0 <= i < |lines|
                                     && (lines[i].quantity < 0.0 || lines[i].available < 0.0 || lines[i].value < 0.0
                                         || (lines[i].quantity > 0.0 && lines[i].unitCost <= 0.0)));
  }

  // ----- Readiness -----

  /** The evidence on the close pack: not configured, not found, or found and compliant or not. */
  datatype Evidence = NoDocumentService | NoEvidence | Evaluated(compliant: bool)

  class CloseStatus {
    var isFiscalYearEnd: bool
    var evidenceEntity: string
    var evidence: Option<bool>
    var review: Option<Review>
    var carryForwardReady: bool

    constructor (isFiscalYearEnd: bool, evidenceEntity: string, carryForwardReady: bool)
      ensures this.isFiscalYearEnd == isFiscalYearEnd && this.evidenceEntity == evidenceEntity
      ensures this.carryForwardReady == carryForwardReady && evidence == None && review == None
    {
      this.isFiscalYearEnd, this.evidenceEntity := isFiscalYearEnd, evidenceEntity;
      this.carryForwardReady := carryForwardReady;
      evidence, review := None, None;
    }

    method AttachEvidence(found: Evidence)
      modifies this`evidence, this`carryForwardReady
      ensures evidence == if found.Evaluated? && TrimSpace(evidenceEntity) != "" then Some(found.compliant)
                          else old(evidence)
      ensures carryForwardReady == (old(carryForwardReady) && EvidenceAllows(evidenceEntity, found))
    {
      if found == NoDocumentService || TrimSpace(evidenceEntity) == "" {
        return;
      }
      if found == NoEvidence {
        return;
      }
      evidence := Some(found.compliant);
      carryForwardReady := carryForwardReady && found.compliant;
    }

    /** Without an inventory service there are no lines to review. */
    method AttachReview(lines: Option<seq<ValuationLine>>)
      modifies this`review, this`carryForwardReady
      ensures carryForwardReady == (old(carryForwardReady) && ReviewAllows(isFiscalYearEnd, lines))
      ensures lines.None? || !isFiscalYearEnd ==> review == old(review)
      ensures lines.Some? && isFiscalYearEnd ==> review.Some? && Reviews(review.value, lines.value)
    {
      if lines.None? || !isFiscalYearEnd {
        return;
      }
      var found := ReviewCosting(lines.value);
      review := Some(found);
      carryForwardReady := carryForwardReady && found.ready;
    }

    /** Both, one after the other: never ready unless it was, and ready only if neither objects. */
    method AttachBoth(found: Evidence, lines: Option<seq<ValuationLine>>)
      modifies this`evidence, this`review, this`carryForwardReady
      ensures carryForwardReady
          <==> old(carryForwardReady) && EvidenceAllows(evidenceEntity, found) && ReviewAllows(isFiscalYearEnd, lines)
    {
      AttachEvidence(found);
      AttachReview(lines);
    }
  }

  predicate EvidenceAllows(entity: string, found: Evidence) {
    found.Evaluated? && TrimSpace(entity) != "" ==> found.compliant
  }

  predicate ReviewAllows(isFiscalYearEnd: bool, lines: Option<seq<ValuationLine>>) {
    lines.Some? && isFiscalYearEnd ==> forall i :: 0 <= i < |lines.value| ==> Sound(lines.value[i])
  }
}
