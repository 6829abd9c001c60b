// The evidence that completing a bank reconciliation requires.
module ReconciliationGate {
  import opened Options
  import opened Text

  datatype Transaction = Transaction(id: string, evidenceRequired: bool)

  /** The documents service: not there, failing, or answering by the entities that have an approved document. */
  datatype Documents = NotConfigured | Unavailable | Approved(entities: set<string>)

  datatype Verdict =
    | Passed
    | TransactionsUnavailable
    | PolicyUnavailable
    | DocumentsMissing(ids: seq<string>)
    | EvaluationFailed
    | EvidenceMissing(failing: seq<string>)

  // ----- Evaluating the policy -----

  /** Trimmed, without blanks, and each once, where it first occurs. */
  function Normalized(ids: seq<string>): seq<string> {
    if ids == [] then []
    else
      var before, last := Normalized(ids[..|ids| - 1]), TrimSpace(ids[|ids| - 1]);
      if last == "" || last in before then before else before + [last]
  }

  method NormalizeIds(ids: seq<string>) returns (normalized: seq<string>)
    ensures normalized == Normalized(ids)
  {
    normalized := [];
    var seen: set<string> := {};
    for i := 0 to |ids|
      invariant normalized == Normalized(ids[..i])
      invariant forall id :: id in seen <==> id in normalized
    {
      assert ids[..i + 1][..i] == ids[..i];
      var trimmed := TrimSpace(ids[i]);
      if trimmed == "" {
        continue;
      }
      if trimmed in seen {
        continue;
      }
      seen := seen + {trimmed};
      normalized := normalized + [trimmed];
    }
    assert ids[..|ids|] == ids;
  }

  /** The entities without an approved document, in order. */
  function Failing(ids: seq<string>, approved: set<string>): seq<string> {
    if ids == [] then []
    else Failing(ids[..|ids| - 1], approved) + if ids[|ids| - 1] in approved then [] else [ids[|ids| - 1]]
  }

  datatype Evaluation = EvaluationError | Results(compliant: seq<(string, bool)>)

  /** One result for each entity; no entity at all is an error. */
  method EvaluatePolicy(documents: Documents, ids: seq<string>) returns (evaluation: Evaluation)
    requires documents != NotConfigured
    ensures evaluation.EvaluationError? <==> Normalized(ids) == [] || documents.Unavailable?
    ensures evaluation.Results? ==>
      && |evaluation.compliant| == |Normalized(ids)|
      && forall i :: 0 <= i < |evaluation.compliant| ==>
           evaluation.compliant[i] == (Normalized(ids)[i], Normalized(ids)[i] in documents.entities)
  {
    var normalized := NormalizeIds(ids);
    if normalized == [] || documents.Unavailable? {
      return EvaluationError;
    }
    var results := [];
    for i := 0 to |normalized|
      invariant |results| == i
      invariant forall j :: 0 <= j < i ==> results[j] == (normalized[j], normalized[j] in documents.entities)
    {
      results := results + [(normalized[i], normalized[i] in documents.entities)];
    }
    return Results(results);
  }

  // ----- The plain rule -----

  function AllIds(transactions: seq<Transaction>): seq<string> {
    if transactions == [] then []
    else AllIds(transactions[..|transactions| - 1]) + [transactions[|transactions| - 1].id]
  }

  function MarkedIds(transactions: seq<Transaction>): (ids: seq<string>)
    ensures |ids| <= |transactions|
  {
    if transactions == [] then []
    else
      var last := transactions[|transactions| - 1];
      MarkedIds(transactions[..|transactions| - 1]) + if last.evidenceRequired then [last.id] else []
  }

  /** All matched transactions if the tenant's policy blocks, and otherwise those that are marked. */
  function Selected(transactions: seq<Transaction>, blocks: bool): seq<string> {
    if blocks then AllIds(transactions) else MarkedIds(transactions)
  }

  function Judged(ids: seq<string>, documents: Documents): Verdict {
    if ids == [] then Passed
    else match documents
      case NotConfigured => DocumentsMissing(ids)
      case Unavailable => EvaluationFailed
      case Approved(entities) =>
        if Normalized(ids) == [] then EvaluationFailed
        else if Failing(Normalized(ids), entities) == [] then Passed
        else EvidenceMissing(Failing(Normalized(ids), entities))
  }

  // ----- The gate -----

  /** The ids are collected in one buffer. When all transactions are marked the tenant's policy is not looked up; when
      it is and blocks, the buffer is filled again from its start. */
  method RequireApprovedEvidence(transactions: Option<seq<Transaction>>, policy: Option<bool>, documents: Documents)
    returns (verdict: Verdict)
    ensures transactions.None? ==> verdict == TransactionsUnavailable
    ensures transactions.Some? && policy.Some? ==>
      verdict == Judged(Selected(transactions.value, policy.value), documents)
    ensures transactions.Some? && policy.None? ==>
      verdict == if AllMarked(transactions.value) then Judged(AllIds(transactions.value), documents)
                 else PolicyUnavailable
  {
    if transactions.None? {
      return TransactionsUnavailable;
    }
    var all := transactions.value;
    var buffer := new string[|all|](_ => "");
    var count := CollectMarked(buffer, all);
    MarkedCount(all);
    if count < |all| {
      if policy.None? {
        return PolicyUnavailable;
      }
      if policy.value {
        count := CollectAll(buffer, all);
      }
    } else {
      assert buffer[..count] == AllIds(all);
    }
    var ids := buffer[..count];
    verdict := Judge(ids, documents);
  }

  method CollectMarked(buffer: array<string>, transactions: seq<Transaction>) returns (count: nat)
    requires buffer.Length == |transactions|
    modifies buffer
    ensures count <= buffer.Length && buffer[..count] == MarkedIds(transactions)
  {
    count := 0;
    for i := 0 to |transactions|
      invariant count <= i && buffer[..count] == MarkedIds(transactions[..i])
    {
      assert transactions[..i + 1][..i] == transactions[..i];
      if transactions[i].evidenceRequired {
        buffer[count] := transactions[i].id;
        count := count + 1;
      }
    }
    assert transactions[..|transactions|] == transactions;
  }

  method CollectAll(buffer: array<string>, transactions: seq<Transaction>) returns (count: nat)
    requires buffer.Length == |transactions|
    modifies buffer
    ensures count == buffer.Length && buffer[..count] == AllIds(transactions)
  {
    count := 0;
    for i := 0 to |transactions|
      invariant count == i && buffer[..count] == AllIds(transactions[..i])
    {
      assert transactions[..i + 1][..i] == transactions[..i];
      buffer[count] := transactions[i].id;
      count := count + 1;
    }
    assert transactions[..|transactions|] == transactions;
  }

  method Judge(ids: seq<string>, documents: Documents) returns (verdict: Verdict)
    ensures verdict == Judged(ids, documents)
  {
    if ids == [] {
      return Passed;
    }
    if documents == NotConfigured {
      return DocumentsMissing(ids);
    }
    var evaluation := EvaluatePolicy(documents, ids);
    if evaluation == EvaluationError {
      return EvaluationFailed;
    }
    var failing := [];
    var normalized := Normalized(ids);
    for i := 0 to |evaluation.compliant|
      invariant failing == Failing(normalized[..i], documents.entities)
    {
      assert normalized[..i + 1][..i] == normalized[..i];
      if !evaluation.compliant[i].1 {
        failing := failing + [evaluation.compliant[i].0];
      }
    }
    assert normalized[..|normalized|] == normalized;
    return if failing == [] then Passed else EvidenceMissing(failing);
  }

  // ----- What passing means -----

  predicate AllMarked(transactions: seq<Transaction>) {
    forall i :: 0 <= i < |transactions| ==> transactions[i].evidenceRequired
  }

  lemma {:induction false} MarkedCount(transactions: seq<Transaction>)
    ensures |MarkedIds(transactions)| == |transactions| <==> AllMarked(transactions)
    ensures AllMarked(transactions) ==> MarkedIds(transactions) == AllIds(transactions)
  {
    if transactions != [] {
      var n := |transactions| - 1;
      MarkedCount(transactions[..n]);
      if AllMarked(transactions[..n]) && transactions[n].evidenceRequired {
        assert forall i :: 0 <= i < n ==> transactions[i] == transactions[..n][i];
      }
    }
  }

  lemma {:induction false} IdsOfTransactions(transactions: seq<Transaction>, blocks: bool, i: nat)
    requires i < |transactions| && (blocks || transactions[i].evidenceRequired)
    ensures transactions[i].id in Selected(transactions, blocks)
  {
    var n := |transactions| - 1;
    if i < n {
      IdsOfTransactions(transactions[..n], blocks, i);
    }
  }

  lemma {:induction false} NormalizedKeeps(ids: seq<string>, id: string)
    ensures id in Normalized(ids) <==> id != "" && exists i :: 0 <= i < |ids| && TrimSpace(ids[i]) == id
  {
    if ids != [] {
      var n := |ids| - 1;
      NormalizedKeeps(ids[..n], id);
      if i :| 0 <= i < n && TrimSpace(ids[..n][i]) == id {
        assert TrimSpace(ids[i]) == id;
      }
      if i :| 0 <= i < |ids| && TrimSpace(ids[i]) == id {
        assert i < n ==> TrimSpace(ids[..n][i]) == id;
      }
    }
  }

  /** Each entity is evaluated once. */
  lemma {:induction false} NormalizedIsDistinct(ids: seq<string>, i: nat, j: nat)
    requires i < j < |Normalized(ids)|
    ensures Normalized(ids)[i] != Normalized(ids)[j]
  {
    var before := Normalized(ids[..|ids| - 1]);
    if j < |before| {
      NormalizedIsDistinct(ids[..|ids| - 1], i, j);
    }
  }

  lemma {:induction false} FailingExactly(ids: seq<string>, approved: set<string>, id: string)
    ensures id in Failing(ids, approved) <==> id in ids && id !in approved
  {
    if ids != [] {
      FailingExactly(ids[..|ids| - 1], approved, id);
      assert ids == ids[..|ids| - 1] + [ids[|ids| - 1]];
    }
  }

  /** The transaction must have evidence, under this policy. */
  predicate MustHaveEvidence(transaction: Transaction, blocks: bool) {
    (blocks || transaction.evidenceRequired) && TrimSpace(transaction.id) != ""
  }

  /** When the gate passes, every transaction that must have evidence has it. */
  lemma PassingMeansCompliant(transactions: seq<Transaction>, blocks: bool, documents: Documents, i: nat)
    requires Judged(Selected(transactions, blocks), documents) == Passed
    requires i < |transactions| && MustHaveEvidence(transactions[i], blocks)
    ensures documents.Approved? && TrimSpace(transactions[i].id) in documents.entities
  {
    var ids, id := Selected(transactions, blocks), TrimSpace(transactions[i].id);
    IdsOfTransactions(transactions, blocks, i);
    NormalizedKeeps(ids, id);
    FailingExactly(Normalized(ids), documents.entities, id);
  }

  lemma {:induction false} SelectedComeFrom(transactions: seq<Transaction>, blocks: bool, id: string) returns (i: nat)
    requires id in Selected(transactions, blocks)
    ensures i < |transactions| && transactions[i].id == id && (blocks || transactions[i].evidenceRequired)
  {
    var n := |transactions| - 1;
    if transactions[n].id == id && (blocks || transactions[n].evidenceRequired) {
      i := n;
    } else {
      i := SelectedComeFrom(transactions[..n], blocks, id);
    }
  }

  /** When the gate refuses for missing evidence, it names exactly the transactions that lack it. */
  lemma RefusalNamesTheFailing(transactions: seq<Transaction>, blocks: bool, documents: Documents, id: string)
    requires Judged(Selected(transactions, blocks), documents).EvidenceMissing?
    ensures id in Judged(Selected(transactions, blocks), documents).failing
       <==> id !in documents.entities
            && exists i :: 0 <= i < |transactions| && MustHaveEvidence(transactions[i], blocks)
                           && TrimSpace(transactions[i].id) == id
  {
    var ids := Selected(transactions, blocks);
    FailingExactly(Normalized(ids), documents.entities, id);
    NormalizedKeeps(ids, id);
    if id in Normalized(ids) {
      var k :| 0 <= k < |ids| && TrimSpace(ids[k]) == id;
      var i := SelectedComeFrom(transactions, blocks, ids[k]);
      assert MustHaveEvidence(transactions[i], blocks);
    }
    if i :| 0 <= i < |transactions| && MustHaveEvidence(transactions[i], blocks)
            && TrimSpace(transactions[i].id) == id
    {
      IdsOfTransactions(transactions, blocks, i);
      var k :| 0 <= k < |ids| && ids[k] == transactions[i].id;
      assert TrimSpace(ids[k]) == id;
    }
  }

  // ----- Every verdict -----

  /** The policy selects the transaction, whatever its id. */
  predicate Selects(transaction: Transaction, blocks: bool) {
    blocks || transaction.evidenceRequired
  }

  predicate SomeSelected(transactions: seq<Transaction>, blocks: bool) {
    exists i :: 0 <= i < |transactions| && Selects(transactions[i], blocks)
  }

  predicate SomeMustHaveEvidence(transactions: seq<Transaction>, blocks: bool) {
    exists i :: 0 <= i < |transactions| && MustHaveEvidence(transactions[i], blocks)
  }

  predicate Lacks(transaction: Transaction, blocks: bool, approved: set<string>) {
    MustHaveEvidence(transaction, blocks) && TrimSpace(transaction.id) !in approved
  }

  predicate SomeLacks(transactions: seq<Transaction>, blocks: bool, approved: set<string>) {
    exists i :: 0 <= i < |transactions| && Lacks(transactions[i], blocks, approved)
  }

  lemma SelectedIffSome(transactions: seq<Transaction>, blocks: bool)
    ensures Selected(transactions, blocks) == [] <==> !SomeSelected(transactions, blocks)
  {
    var ids := Selected(transactions, blocks);
    if i :| 0 <= i < |transactions| && Selects(transactions[i], blocks) {
      IdsOfTransactions(transactions, blocks, i);
    }
    if ids != [] {
      var i := SelectedComeFrom(transactions, blocks, ids[0]);
      assert Selects(transactions[i], blocks);
    }
  }

  lemma NormalizedIffSome(transactions: seq<Transaction>, blocks: bool)
    ensures Normalized(Selected(transactions, blocks)) == [] <==> !SomeMustHaveEvidence(transactions, blocks)
  {
    var ids := Selected(transactions, blocks);
    if i :| 0 <= i < |transactions| && MustHaveEvidence(transactions[i], blocks) {
      NormalizedHas(transactions, blocks, i);
    }
    if Normalized(ids) != [] {
      var i := NormalizedComesFrom(transactions, blocks, Normalized(ids)[0]);
    }
  }

  lemma NormalizedHas(transactions: seq<Transaction>, blocks: bool, i: nat)
    requires i < |transactions| && MustHaveEvidence(transactions[i], blocks)
    ensures TrimSpace(transactions[i].id) in Normalized(Selected(transactions, blocks))
  {
    IdsOfTransactions(transactions, blocks, i);
    NormalizedKeeps(Selected(transactions, blocks), TrimSpace(transactions[i].id));
  }

  lemma NormalizedComesFrom(transactions: seq<Transaction>, blocks: bool, id: string) returns (i: nat)
    requires id in Normalized(Selected(transactions, blocks))
    ensures i < |transactions| && MustHaveEvidence(transactions[i], blocks) && TrimSpace(transactions[i].id) == id
  {
    var ids := Selected(transactions, blocks);
    NormalizedKeeps(ids, id);
    var k :| 0 <= k < |ids| && TrimSpace(ids[k]) == id;
    i := SelectedComeFrom(transactions, blocks, ids[k]);
  }

  lemma FailingIffSome(transactions: seq<Transaction>, blocks: bool, approved: set<string>)
    ensures Failing(Normalized(Selected(transactions, blocks)), approved) == []
       <==> !SomeLacks(transactions, blocks, approved)
  {
    var ids := Normalized(Selected(transactions, blocks));
    if i :| 0 <= i < |transactions| && Lacks(transactions[i], blocks, approved) {
      NormalizedHas(transactions, blocks, i);
      FailingExactly(ids, approved, TrimSpace(transactions[i].id));
    }
    if Failing(ids, approved) != [] {
      var id := Failing(ids, approved)[0];
      FailingExactly(ids, approved, id);
      var i := NormalizedComesFrom(transactions, blocks, id);
      assert Lacks(transactions[i], blocks, approved);
    }
  }

  /** The gate passes exactly when nothing is selected, or the documents service answers and some selected transaction
      has an id, and none of those with an id lacks its evidence. The other verdicts are told apart likewise. */
  lemma VerdictExactlyWhen(transactions: seq<Transaction>, blocks: bool, documents: Documents)
    ensures var verdict := Judged(Selected(transactions, blocks), documents);
      && (verdict.Passed? <==>
            || !SomeSelected(transactions, blocks)
            || (documents.Approved? && SomeMustHaveEvidence(transactions, blocks)
                && !SomeLacks(transactions, blocks, documents.entities)))
      && (verdict.DocumentsMissing? <==> SomeSelected(transactions, blocks) && documents.NotConfigured?)
      && (verdict.EvaluationFailed? <==>
            && SomeSelected(transactions, blocks)
            && (documents.Unavailable?
                || (documents.Approved? && !SomeMustHaveEvidence(transactions, blocks))))
      && (verdict.EvidenceMissing? <==>
            documents.Approved? && SomeLacks(transactions, blocks, documents.entities))
  {
    SelectedIffSome(transactions, blocks);
    NormalizedIffSome(transactions, blocks);
    if documents.Approved? {
      FailingIffSome(transactions, blocks, documents.entities);
      if SomeLacks(transactions, blocks, documents.entities) {
        var i :| 0 <= i < |transactions| && Lacks(transactions[i], blocks, documents.entities);
        assert MustHaveEvidence(transactions[i], blocks) && Selects(transactions[i], blocks);
      }
    }
  }
}
