/**
 The span list of a run's diagnostics trace, and when its parent links form a tree
 rooted at the run.
 */
module SpanTree {
  import opened Common
  import Sorting

  /** Parent operations are "" when absent; creation times are compared only. */
  datatype ModelCall = ModelCall(id: string, parentOperation: string, attempt: Option<string>, createdAt: int)
  datatype Receipt = Receipt(operationId: string, parentOperation: string, attempt: Option<string>, createdAt: int)

  datatype Records = Records(
    runId: string, calls: seq<ModelCall>, receipts: seq<Receipt>, children: seq<string>, checkpoint: Option<string>,
    terminal: bool)

  datatype Span = Span(id: string, parent: Option<string>)

  function RunId(id: string): string { "span:run:" + id }
  function ModelId(id: string): string { "span:model:" + id }
  function ToolId(id: string): string { "span:tool:" + id }
  function ChildId(id: string): string { "span:child-run:" + id }
  function CheckpointId(id: string): string { "span:checkpoint:" + id }
  function TerminalId(id: string): string { "span:terminal:" + id }

  // ----- parents -----

  function CallParent(call: ModelCall, root: string): string {
    if call.parentOperation != "" then ToolId(call.parentOperation) else root
  }

  /** A top-level call of the same attempt, not created after the receipt. */
  predicate Eligible(call: ModelCall, r: Receipt) {
    call.attempt == r.attempt && call.createdAt <= r.createdAt && call.parentOperation == ""
  }

  /** The first of the latest eligible calls. */
  function Latest(calls: seq<ModelCall>, r: Receipt): Option<ModelCall> {
    if calls == [] then None
    else
      var n := |calls| - 1;
      match Latest(calls[..n], r)
      case None => if Eligible(calls[n], r) then Some(calls[n]) else None
      case Some(best) =>
        if Eligible(calls[n], r) && calls[n].createdAt > best.createdAt then Some(calls[n]) else Some(best)
  }

  function ReceiptParent(calls: seq<ModelCall>, r: Receipt, root: string): string {
    if r.parentOperation != "" then ToolId(r.parentOperation)
    else
      match Latest(calls, r)
      case None => root
      case Some(call) => ModelId(call.id)
  }

  /** What `Latest` picks: an eligible call with none later, the first of its time, and none only if none is eligible. */
  lemma {:induction false} LatestIsLatest(calls: seq<ModelCall>, r: Receipt)
    ensures Latest(calls, r).None? <==> forall i :: 0 <= i < |calls| ==> !Eligible(calls[i], r)
    ensures Latest(calls, r).Some? ==>
      exists k :: 0 <= k < |calls| && calls[k] == Latest(calls, r).value && IsFirstLatest(calls, r, k)
  {
    if calls != [] {
      var n := |calls| - 1;
      LatestIsLatest(calls[..n], r);
      assert forall i :: 0 <= i < n ==> calls[..n][i] == calls[i];
      if Latest(calls[..n], r).Some? {
        var k :| 0 <= k < n && calls[..n][k] == Latest(calls[..n], r).value && IsFirstLatest(calls[..n], r, k);
        if Latest(calls, r) == Some(calls[k]) {
          assert IsFirstLatest(calls, r, k);
        } else {
          assert IsFirstLatest(calls, r, n);
        }
      } else if Eligible(calls[n], r) {
        assert IsFirstLatest(calls, r, n);
      }
    }
  }

  ghost predicate IsFirstLatest(calls: seq<ModelCall>, r: Receipt, k: nat)
    requires k < |calls|
  {
    && Eligible(calls[k], r)
    && (forall i :: 0 <= i < |calls| && Eligible(calls[i], r) ==> calls[i].createdAt <= calls[k].createdAt)
    && (forall i :: 0 <= i < k && Eligible(calls[i], r) ==> calls[i].createdAt < calls[k].createdAt)
  }

  // ----- the span list -----

  function CallSpans(calls: seq<ModelCall>, root: string): seq<Span> {
    seq(|calls|, i requires 0 <= i < |calls| => Span(ModelId(calls[i].id), Some(CallParent(calls[i], root))))
  }

  function ReceiptSpans(receipts: seq<Receipt>, calls: seq<ModelCall>, root: string): seq<Span> {
    seq(|receipts|, i requires 0 <= i < |receipts| =>
      Span(ToolId(receipts[i].operationId), Some(ReceiptParent(calls, receipts[i], root))))
  }

  function ChildSpans(children: seq<string>, root: string): seq<Span> {
    seq(|children|, i requires 0 <= i < |children| => Span(ChildId(children[i]), Some(root)))
  }

  function LastSpans(records: Records, root: string): seq<Span> {
    (if records.checkpoint.Some? then [Span(CheckpointId(records.checkpoint.value), Some(root))] else [])
    + if records.terminal then [Span(TerminalId(records.runId), Some(root))] else []
  }

  function Spans(records: Records): seq<Span> {
    var root := RunId(records.runId);
    [Span(root, None)] + CallSpans(records.calls, root) + ReceiptSpans(records.receipts, records.calls, root)
    + ChildSpans(records.children, root) + LastSpans(records, root)
  }

  method BuildRunTrace(records: Records) returns (root: string, spans: seq<Span>)
    ensures root == RunId(records.runId) && spans == Spans(records)
  {
    root := RunId(records.runId);
    spans := [Span(root, None)];
    var modelSpans: seq<(ModelCall, Span)> := [];
    for i := 0 to |records.calls|
      invariant spans == [Span(root, None)] + CallSpans(records.calls[..i], root)
      invariant |modelSpans| == i
      invariant forall j :: 0 <= j < i ==>
        modelSpans[j] == (records.calls[j], Span(ModelId(records.calls[j].id), Some(CallParent(records.calls[j], root))))
    {
      var call := records.calls[i];
      var span := Span(ModelId(call.id), Some(CallParent(call, root)));
      spans := spans + [span];
      modelSpans := modelSpans + [(call, span)];
    }
    assert records.calls[..|records.calls|] == records.calls;
    ghost var heads := spans;
    for i := 0 to |records.receipts|
      invariant spans == heads + ReceiptSpans(records.receipts[..i], records.calls, root)
    {
      var receipt := records.receipts[i];
      var parent;
      if receipt.parentOperation != "" {
        parent := ToolId(receipt.parentOperation);
      } else {
        parent := ChooseModel(modelSpans, records.calls, receipt, root);
      }
      spans := spans + [Span(ToolId(receipt.operationId), Some(parent))];
    }
    assert records.receipts[..|records.receipts|] == records.receipts;
    heads := spans;
    for i := 0 to |records.children|
      invariant spans == heads + ChildSpans(records.children[..i], root)
    {
      spans := spans + [Span(ChildId(records.children[i]), Some(root))];
    }
    assert records.children[..|records.children|] == records.children;
    if records.checkpoint.Some? {
      spans := spans + [Span(CheckpointId(records.checkpoint.value), Some(root))];
    }
    if records.terminal {
      spans := spans + [Span(TerminalId(records.runId), Some(root))];
    }
  }

  /** The parent of a top-level receipt, from the model spans made so far. */
  method ChooseModel(modelSpans: seq<(ModelCall, Span)>, calls: seq<ModelCall>, receipt: Receipt, root: string)
    returns (parent: string)
    requires |modelSpans| == |calls| && receipt.parentOperation == ""
    requires forall j :: 0 <= j < |calls| ==> modelSpans[j].0 == calls[j] && modelSpans[j].1.id == ModelId(calls[j].id)
    ensures parent == ReceiptParent(calls, receipt, root)
  {
    parent := root;
    var best: Option<ModelCall> := None;
    for j := 0 to |modelSpans|
      invariant best == Latest(calls[..j], receipt)
      invariant parent == match best case None => root case Some(call) => ModelId(call.id)
    {
      assert calls[..j + 1][..j] == calls[..j];
      var (call, span) := modelSpans[j];
      if Eligible(call, receipt) && (best.None? || call.createdAt > best.value.createdAt) {
        best, parent := Some(call), span.id;
      }
    }
    assert calls[..|calls|] == calls;
  }

  // ----- following parents -----

  /** n parent steps lead from the span `id` to the root span. */
  ghost predicate ReachesIn(spans: seq<Span>, root: string, id: string, n: nat)
    decreases n
  {
    if n == 0 then id == root
    else exists s :: s in spans && s.id == id && s.parent.Some? && ReachesIn(spans, root, s.parent.value, n - 1)
  }

  ghost predicate Reaches(spans: seq<Span>, root: string, id: string) {
    exists n: nat :: ReachesIn(spans, root, id, n)
  }

  /** Every parent is in the list, and following parents from any span ends at the root. */
  ghost predicate IsTree(spans: seq<Span>, root: string) {
    forall s {:trigger InTree(spans, root, s)} :: s in spans ==> InTree(spans, root, s)
  }

  ghost predicate InTree(spans: seq<Span>, root: string, s: Span) {
    (s.parent.Some? ==> HasSpan(spans, s.parent.value)) && Reaches(spans, root, s.id)
  }

  ghost predicate HasSpan(spans: seq<Span>, id: string) {
    exists s :: s in spans && s.id == id
  }

  lemma StepUp(spans: seq<Span>, root: string, s: Span, n: nat)
    requires s in spans && s.parent.Some? && ReachesIn(spans, root, s.parent.value, n)
    ensures ReachesIn(spans, root, s.id, n + 1)
  {
  }

  // ----- conditions on the records -----

  predicate DistinctSources(records: Records) {
    && (forall i, j :: 0 <= i < j < |records.calls| ==> records.calls[i].id != records.calls[j].id)
    && (forall i, j :: 0 <= i < j < |records.receipts| ==>
          records.receipts[i].operationId != records.receipts[j].operationId)
  }

  predicate HasOperation(receipts: seq<Receipt>, operation: string) {
    exists i :: 0 <= i < |receipts| && receipts[i].operationId == operation
  }

  /** Every parent operation named is one of the receipts. */
  predicate Closed(records: Records) {
    && (forall i :: 0 <= i < |records.calls| && records.calls[i].parentOperation != "" ==>
          HasOperation(records.receipts, records.calls[i].parentOperation))
    && (forall i :: 0 <= i < |records.receipts| && records.receipts[i].parentOperation != "" ==>
          HasOperation(records.receipts, records.receipts[i].parentOperation))
  }

  /** A rank that falls along every parent link. */
  ghost predicate Ranked(receipts: seq<Receipt>, rank: string -> nat) {
    forall i :: 0 <= i < |receipts| && receipts[i].parentOperation != "" ==>
      rank(receipts[i].parentOperation) < rank(receipts[i].operationId)
  }

  /** The operation is a receipt's, whose parent operation is the next one. */
  predicate Links(receipts: seq<Receipt>, operation: string, parent: string) {
    parent != "" && exists i :: 0 <= i < |receipts| && receipts[i].operationId == operation && receipts[i].parentOperation == parent
  }

  /** Operations each of which names the next as its parent. */
  predicate Chain(receipts: seq<Receipt>, operations: seq<string>) {
    forall i :: 0 <= i < |operations| - 1 ==> Links(receipts, operations[i], operations[i + 1])
  }

  /** No chain of parent operations comes back to where it started. */
  ghost predicate Acyclic(receipts: seq<Receipt>) {
    forall operations :: |operations| > 1 && Chain(receipts, operations) ==>
      operations[0] != operations[|operations| - 1]
  }

  // ----- a rank exists exactly when no chain closes -----

  lemma PartIsChain(receipts: seq<Receipt>, operations: seq<string>, from: nat, to: nat)
    requires Chain(receipts, operations) && from <= to <= |operations|
    ensures Chain(receipts, operations[from..to])
  {
    var part := operations[from..to];
    forall k | 0 <= k < |part| - 1 ensures Links(receipts, part[k], part[k + 1]) {
      assert Links(receipts, operations[from + k], operations[from + k + 1]);
    }
  }

  lemma {:induction false} RankFallsAlong(receipts: seq<Receipt>, rank: string -> nat, operations: seq<string>)
    requires Ranked(receipts, rank) && |operations| > 1 && Chain(receipts, operations)
    ensures rank(operations[|operations| - 1]) < rank(operations[0])
  {
    var n := |operations| - 1;
    assert Links(receipts, operations[n - 1], operations[n]);
    if n > 1 {
      PartIsChain(receipts, operations, 0, n);
      RankFallsAlong(receipts, rank, operations[0..n]);
    }
  }

  /** The receipt of an operation, if there is one. */
  function Find(receipts: seq<Receipt>, operation: string): (i: nat)
    ensures i <= |receipts|
    ensures i < |receipts| ==> receipts[i].operationId == operation
    ensures i == |receipts| ==> !HasOperation(receipts, operation)
  {
    if receipts == [] then 0
    else if receipts[0].operationId == operation then 0
    else
      assert forall k :: 0 <= k < |receipts| && receipts[k].operationId == operation ==> receipts[1..][k - 1] == receipts[k];
      1 + Find(receipts[1..], operation)
  }

  /** The chain from an operation upwards, of at most n operations. */
  function Climb(receipts: seq<Receipt>, operation: string, n: nat): (operations: seq<string>)
    ensures |operations| <= n && (n > 0 ==> operations != [] && operations[0] == operation)
    ensures Chain(receipts, operations)
    decreases n
  {
    if n == 0 then []
    else
      var i := Find(receipts, operation);
      if i == |receipts| || receipts[i].parentOperation == "" then [operation]
      else
        var above := Climb(receipts, receipts[i].parentOperation, n - 1);
        assert above != [] ==> Links(receipts, operation, above[0]);
        [operation] + above
  }

  /** Every operation of a chain but the last is that of a receipt. */
  lemma ChainOfReceipts(receipts: seq<Receipt>, operations: seq<string>, i: nat)
    requires Chain(receipts, operations) && i + 1 < |operations|
    ensures operations[i] in Operations(receipts)
  {
    assert Links(receipts, operations[i], operations[i + 1]);
  }

  function Operations(receipts: seq<Receipt>): set<string> {
    set r | r in receipts :: r.operationId
  }

  lemma {:induction false} FewOperations(receipts: seq<Receipt>)
    ensures |Operations(receipts)| <= |receipts|
  {
    if receipts != [] {
      FewOperations(receipts[1..]);
      assert receipts == [receipts[0]] + receipts[1..];
      assert Operations(receipts) == {receipts[0].operationId} + Operations(receipts[1..]);
    }
  }

  /** Without a closed chain no operation repeats. */
  lemma ChainsDoNotRepeat(receipts: seq<Receipt>, operations: seq<string>)
    requires Acyclic(receipts) && Chain(receipts, operations)
    ensures Sorting.NoDuplicates(operations)
  {
    forall i, j | 0 <= i < j < |operations| ensures operations[i] != operations[j] {
      PartIsChain(receipts, operations, i, j + 1);
      assert operations[i..j + 1][0] == operations[i] && operations[i..j + 1][j - i] == operations[j];
    }
  }

  /** So a chain has at most one operation more than there are receipts. */
  lemma ChainsAreShort(receipts: seq<Receipt>, operations: seq<string>)
    requires Acyclic(receipts) && Chain(receipts, operations)
    ensures |operations| <= |receipts| + 1
  {
    if operations != [] {
      var front := operations[..|operations| - 1];
      ChainsDoNotRepeat(receipts, operations);
      Sorting.NoDuplicatesSize(front);
      forall x | x in front ensures x in Operations(receipts) {
        var i :| 0 <= i < |front| && front[i] == x;
        ChainOfReceipts(receipts, operations, i);
      }
      FewOperations(receipts);
      SubsetSize((set x | x in front), Operations(receipts));
    }
  }

  lemma {:induction false} SubsetSize(a: set<string>, b: set<string>)
    requires a <= b
    ensures |a| <= |b|
  {
    if a != {} {
      var x :| x in a;
      SubsetSize(a - {x}, b - {x});
    }
  }

  /** More room does not change a climb that has ended. */
  lemma {:induction false} ClimbEnds(receipts: seq<Receipt>, operation: string, n: nat)
    requires |Climb(receipts, operation, n)| < n
    ensures Climb(receipts, operation, n - 1) == Climb(receipts, operation, n)
    decreases n
  {
    var i := Find(receipts, operation);
    if i < |receipts| && receipts[i].parentOperation != "" {
      ClimbEnds(receipts, receipts[i].parentOperation, n - 1);
    }
  }

  /** The height of an operation is the length of its chain. */
  lemma HeightFalls(receipts: seq<Receipt>, i: nat)
    requires Acyclic(receipts) && i < |receipts| && receipts[i].parentOperation != ""
    requires forall j, k :: 0 <= j < k < |receipts| ==> receipts[j].operationId != receipts[k].operationId
    ensures |Climb(receipts, receipts[i].parentOperation, |receipts| + 2)|
          < |Climb(receipts, receipts[i].operationId, |receipts| + 2)|
  {
    var n := |receipts| + 2;
    var operation, parent := receipts[i].operationId, receipts[i].parentOperation;
    FoundAt(receipts, i);
    ChainsAreShort(receipts, Climb(receipts, parent, n));
    ClimbEnds(receipts, parent, n);
    ClimbStep(receipts, i, n);
  }

  lemma FoundAt(receipts: seq<Receipt>, i: nat)
    requires i < |receipts|
    requires forall j, k :: 0 <= j < k < |receipts| ==> receipts[j].operationId != receipts[k].operationId
    ensures Find(receipts, receipts[i].operationId) == i
  {
    assert HasOperation(receipts, receipts[i].operationId);
  }

  lemma ClimbStep(receipts: seq<Receipt>, i: nat, n: nat)
    requires n > 0 && i < |receipts| && Find(receipts, receipts[i].operationId) == i && receipts[i].parentOperation != ""
    ensures |Climb(receipts, receipts[i].operationId, n)| == 1 + |Climb(receipts, receipts[i].parentOperation, n - 1)|
  {
  }

  lemma RankedIsAcyclic(receipts: seq<Receipt>, rank: string -> nat)
    requires Ranked(receipts, rank)
    ensures Acyclic(receipts)
  {
    forall operations | |operations| > 1 && Chain(receipts, operations)
      ensures operations[0] != operations[|operations| - 1]
    {
      RankFallsAlong(receipts, rank, operations);
    }
  }

  lemma AcyclicHasRank(receipts: seq<Receipt>) returns (rank: string -> nat)
    requires Acyclic(receipts)
    requires forall j, k :: 0 <= j < k < |receipts| ==> receipts[j].operationId != receipts[k].operationId
    ensures Ranked(receipts, rank)
  {
    rank := (operation: string) => |Climb(receipts, operation, |receipts| + 2)| as nat;
    forall i | 0 <= i < |receipts| && receipts[i].parentOperation != ""
      ensures rank(receipts[i].parentOperation) < rank(receipts[i].operationId)
    {
      HeightFalls(receipts, i);
    }
  }

  /** With distinct operations, a rank that falls along every parent link exists exactly when no chain closes. */
  lemma RankedIffAcyclic(receipts: seq<Receipt>)
    requires forall j, k :: 0 <= j < k < |receipts| ==> receipts[j].operationId != receipts[k].operationId
    ensures (exists rank :: Ranked(receipts, rank)) <==> Acyclic(receipts)
  {
    if rank :| Ranked(receipts, rank) {
      RankedIsAcyclic(receipts, rank);
    }
    if Acyclic(receipts) {
      var rank := AcyclicHasRank(receipts);
    }
  }

  // ----- members of the list -----

  function CallSpan(records: Records, i: nat): Span
    requires i < |records.calls|
  {
    Span(ModelId(records.calls[i].id), Some(CallParent(records.calls[i], RunId(records.runId))))
  }

  function ReceiptSpan(records: Records, i: nat): Span
    requires i < |records.receipts|
  {
    Span(ToolId(records.receipts[i].operationId),
      Some(ReceiptParent(records.calls, records.receipts[i], RunId(records.runId))))
  }

  ghost predicate IsCallSpan(records: Records, s: Span) {
    exists i :: 0 <= i < |records.calls| && s == CallSpan(records, i)
  }

  ghost predicate IsReceiptSpan(records: Records, s: Span) {
    exists i :: 0 <= i < |records.receipts| && s == ReceiptSpan(records, i)
  }

  /** Spans of the remaining kinds hang from the root and have their own id prefixes. */
  predicate IsOtherSpan(records: Records, s: Span) {
    s.parent == Some(RunId(records.runId)) && |s.id| > 6 && s.id[5..7] in {"ch", "te"}
  }

  predicate IsRootSpan(records: Records, s: Span) {
    s == Span(RunId(records.runId), None)
  }

  ghost predicate Made(records: Records, s: Span) {
    IsRootSpan(records, s) || IsCallSpan(records, s) || IsReceiptSpan(records, s)
  }

  ghost predicate Known(records: Records, s: Span) {
    Made(records, s) || IsOtherSpan(records, s)
  }

  /** A list with the root, call and receipt spans of the records, and else only spans hung from the root. */
  ghost predicate Represents(spans: seq<Span>, records: Records) {
    && (forall s {:trigger Made(records, s)} :: Made(records, s) ==> s in spans)
    && (forall s {:trigger Known(records, s)} :: s in spans ==> Known(records, s))
  }

  lemma SpansPresent(records: Records, s: Span)
    requires Made(records, s)
    ensures s in Spans(records)
  {
    var spans := Spans(records);
    if IsRootSpan(records, s) {
      assert spans[0] == s;
    } else if IsCallSpan(records, s) {
      var i :| 0 <= i < |records.calls| && s == CallSpan(records, i);
      assert spans[1 + i] == s;
    } else {
      var i :| 0 <= i < |records.receipts| && s == ReceiptSpan(records, i);
      assert spans[1 + |records.calls| + i] == s;
    }
  }

  lemma OtherSpans(records: Records, s: Span)
    requires s in ChildSpans(records.children, RunId(records.runId)) || s in LastSpans(records, RunId(records.runId))
    ensures IsOtherSpan(records, s)
  {
    var root := RunId(records.runId);
    var children := ChildSpans(records.children, root);
    if s in children {
      var i :| 0 <= i < |children| && children[i] == s;
      assert s.id[5..7] == "ch";
    } else if records.checkpoint.Some? && s == Span(CheckpointId(records.checkpoint.value), Some(root)) {
      assert s.id[5..7] == "ch";
    } else {
      assert s == Span(TerminalId(records.runId), Some(root));
      assert s.id[5..7] == "te";
    }
  }

  lemma SpanKinds(records: Records, s: Span)
    requires s in Spans(records)
    ensures Known(records, s)
  {
    var root := RunId(records.runId);
    var calls, receipts := CallSpans(records.calls, root), ReceiptSpans(records.receipts, records.calls, root);
    if s in calls {
      var i :| 0 <= i < |calls| && calls[i] == s;
      assert s == CallSpan(records, i);
    } else if s in receipts {
      var i :| 0 <= i < |receipts| && receipts[i] == s;
      assert s == ReceiptSpan(records, i);
    } else if s != Span(root, None) {
      OtherSpans(records, s);
    }
  }

  lemma SpansRepresent(records: Records)
    ensures Represents(Spans(records), records)
  {
    forall s | Made(records, s)
      ensures s in Spans(records)
    {
      SpansPresent(records, s);
    }
    forall s | s in Spans(records)
      ensures Known(records, s)
    {
      SpanKinds(records, s);
    }
  }

  lemma IdPrefixes(x: string)
    ensures RunId(x)[5..7] == "ru" && ModelId(x)[5..7] == "mo" && ToolId(x)[5..7] == "to"
    ensures ToolId(x)[10..] == x && ModelId(x)[11..] == x
  {
  }

  /** Ids of different kinds differ, and ids of a kind name their source. */
  lemma Ids(a: string, b: string)
    ensures RunId(a) != ModelId(b) && RunId(a) != ToolId(b) && ModelId(a) != ToolId(b)
    ensures ModelId(a) == ModelId(b) ==> a == b
    ensures ToolId(a) == ToolId(b) ==> a == b
  {
    IdPrefixes(a);
    IdPrefixes(b);
  }

  /** The only span with a tool id is that of its receipt. */
  lemma ToolSpan(spans: seq<Span>, records: Records, s: Span, operation: string) returns (i: nat)
    requires Represents(spans, records) && s in spans && s.id == ToolId(operation)
    ensures i < |records.receipts| && records.receipts[i].operationId == operation && s == ReceiptSpan(records, i)
  {
    assert Known(records, s);
    Ids(records.runId, operation);
    IdPrefixes(operation);
    if IsCallSpan(records, s) {
      var k :| 0 <= k < |records.calls| && s == CallSpan(records, k);
      Ids(records.calls[k].id, operation);
    }
    i :| 0 <= i < |records.receipts| && s == ReceiptSpan(records, i);
    Ids(records.receipts[i].operationId, operation);
  }

  lemma ModelSpan(spans: seq<Span>, records: Records, s: Span, call: string) returns (i: nat)
    requires Represents(spans, records) && s in spans && s.id == ModelId(call)
    ensures i < |records.calls| && records.calls[i].id == call && s == CallSpan(records, i)
  {
    assert Known(records, s);
    Ids(records.runId, call);
    IdPrefixes(call);
    if IsReceiptSpan(records, s) {
      var k :| 0 <= k < |records.receipts| && s == ReceiptSpan(records, k);
      Ids(call, records.receipts[k].operationId);
    }
    i :| 0 <= i < |records.calls| && s == CallSpan(records, i);
    Ids(records.calls[i].id, call);
  }

  lemma RootSpan(spans: seq<Span>, records: Records, s: Span)
    requires Represents(spans, records) && s in spans && s.id == RunId(records.runId)
    ensures s.parent.None?
  {
    assert Known(records, s);
    IdPrefixes(records.runId);
    if IsCallSpan(records, s) {
      var k :| 0 <= k < |records.calls| && s == CallSpan(records, k);
      Ids(records.runId, records.calls[k].id);
    } else if IsReceiptSpan(records, s) {
      var k :| 0 <= k < |records.receipts| && s == ReceiptSpan(records, k);
      Ids(records.runId, records.receipts[k].operationId);
    }
  }

  // ----- closed and acyclic links give a tree -----

  lemma LatestCall(calls: seq<ModelCall>, r: Receipt) returns (k: nat)
    requires Latest(calls, r).Some?
    ensures k < |calls| && calls[k] == Latest(calls, r).value && calls[k].parentOperation == ""
  {
    LatestIsLatest(calls, r);
    k :| 0 <= k < |calls| && calls[k] == Latest(calls, r).value && IsFirstLatest(calls, r, k);
  }

  lemma TopLevelReaches(spans: seq<Span>, records: Records, i: nat) returns (n: nat)
    requires Represents(spans, records) && i < |records.receipts| && records.receipts[i].parentOperation == ""
    ensures ReachesIn(spans, RunId(records.runId), ReceiptSpan(records, i).id, n)
  {
    var root, s := RunId(records.runId), ReceiptSpan(records, i);
    assert Made(records, s);
    assert ReachesIn(spans, root, root, 0);
    if Latest(records.calls, records.receipts[i]).None? {
      StepUp(spans, root, s, 0);
      n := 1;
    } else {
      var k := LatestCall(records.calls, records.receipts[i]);
      assert Made(records, CallSpan(records, k));
      StepUp(spans, root, CallSpan(records, k), 0);
      StepUp(spans, root, s, 1);
      n := 2;
    }
  }

  /** Nested tools climb to their top-level ancestor first. */
  lemma {:induction false} ToolReaches(spans: seq<Span>, records: Records, rank: string -> nat, i: nat) returns (n: nat)
    requires Represents(spans, records) && Closed(records) && Ranked(records.receipts, rank)
    requires i < |records.receipts|
    ensures ReachesIn(spans, RunId(records.runId), ReceiptSpan(records, i).id, n)
    decreases rank(records.receipts[i].operationId)
  {
    var r, s := records.receipts[i], ReceiptSpan(records, i);
    if r.parentOperation == "" {
      n := TopLevelReaches(spans, records, i);
    } else {
      assert HasOperation(records.receipts, r.parentOperation);
      var j :| 0 <= j < |records.receipts| && records.receipts[j].operationId == r.parentOperation;
      var m := ToolReaches(spans, records, rank, j);
      assert Made(records, s) && s.parent.value == ReceiptSpan(records, j).id;
      StepUp(spans, RunId(records.runId), s, m);
      n := m + 1;
    }
  }

  lemma CallReaches(spans: seq<Span>, records: Records, rank: string -> nat, i: nat) returns (n: nat)
    requires Represents(spans, records) && Closed(records) && Ranked(records.receipts, rank)
    requires i < |records.calls|
    ensures ReachesIn(spans, RunId(records.runId), CallSpan(records, i).id, n)
  {
    var root, call, s := RunId(records.runId), records.calls[i], CallSpan(records, i);
    assert Made(records, s);
    var m := 0;
    if call.parentOperation == "" {
      assert ReachesIn(spans, root, root, 0);
    } else {
      assert HasOperation(records.receipts, call.parentOperation);
      var j :| 0 <= j < |records.receipts| && records.receipts[j].operationId == call.parentOperation;
      m := ToolReaches(spans, records, rank, j);
      assert s.parent.value == ReceiptSpan(records, j).id;
    }
    StepUp(spans, root, s, m);
    n := m + 1;
  }

  lemma SpanReaches(spans: seq<Span>, records: Records, rank: string -> nat, s: Span)
    requires Represents(spans, records) && Closed(records) && Ranked(records.receipts, rank) && s in spans
    ensures Reaches(spans, RunId(records.runId), s.id)
  {
    var root := RunId(records.runId);
    assert Known(records, s) && ReachesIn(spans, root, root, 0);
    if IsCallSpan(records, s) {
      var i :| 0 <= i < |records.calls| && s == CallSpan(records, i);
      var n := CallReaches(spans, records, rank, i);
    } else if IsReceiptSpan(records, s) {
      var i :| 0 <= i < |records.receipts| && s == ReceiptSpan(records, i);
      var n := ToolReaches(spans, records, rank, i);
    } else if IsOtherSpan(records, s) {
      StepUp(spans, root, s, 0);
    }
  }

  lemma OperationPresent(spans: seq<Span>, records: Records, operation: string)
    requires Represents(spans, records) && HasOperation(records.receipts, operation)
    ensures HasSpan(spans, ToolId(operation))
  {
    var i :| 0 <= i < |records.receipts| && records.receipts[i].operationId == operation;
    assert Made(records, ReceiptSpan(records, i));
  }

  lemma ParentPresent(spans: seq<Span>, records: Records, s: Span)
    requires Represents(spans, records) && Closed(records) && s in spans && s.parent.Some?
    ensures HasSpan(spans, s.parent.value)
  {
    assert Known(records, s) && Made(records, Span(RunId(records.runId), None));
    if IsCallSpan(records, s) {
      var i :| 0 <= i < |records.calls| && s == CallSpan(records, i);
      if records.calls[i].parentOperation != "" {
        OperationPresent(spans, records, records.calls[i].parentOperation);
      }
    } else if IsReceiptSpan(records, s) {
      var i :| 0 <= i < |records.receipts| && s == ReceiptSpan(records, i);
      var r := records.receipts[i];
      if r.parentOperation != "" {
        OperationPresent(spans, records, r.parentOperation);
      } else if Latest(records.calls, r).Some? {
        var k := LatestCall(records.calls, r);
        assert Made(records, CallSpan(records, k));
      }
    }
  }

  // ----- a tree gives closed and acyclic links -----

  lemma RootSteps(spans: seq<Span>, records: Records, n: nat)
    requires Represents(spans, records) && ReachesIn(spans, RunId(records.runId), RunId(records.runId), n)
    ensures n == 0
  {
    if n > 0 {
      var s :| s in spans && s.id == RunId(records.runId) && s.parent.Some?
        && ReachesIn(spans, RunId(records.runId), s.parent.value, n - 1);
      RootSpan(spans, records, s);
      assert false;
    }
  }

  /** A top-level model call is one step below the root. */
  lemma ModelSteps(spans: seq<Span>, records: Records, k: nat, n: nat)
    requires Represents(spans, records) && DistinctSources(records)
    requires k < |records.calls| && records.calls[k].parentOperation == ""
    requires ReachesIn(spans, RunId(records.runId), ModelId(records.calls[k].id), n)
    ensures n == 1
  {
    Ids(records.runId, records.calls[k].id);
    var s :| s in spans && s.id == ModelId(records.calls[k].id) && s.parent.Some?
      && ReachesIn(spans, RunId(records.runId), s.parent.value, n - 1);
    var i := ModelSpan(spans, records, s, records.calls[k].id);
    assert i == k;
    RootSteps(spans, records, n - 1);
  }

  /** The first step up from a tool is to its receipt's parent. */
  lemma ToolStep(spans: seq<Span>, records: Records, i: nat, n: nat)
    requires Represents(spans, records) && DistinctSources(records) && i < |records.receipts|
    requires ReachesIn(spans, RunId(records.runId), ReceiptSpan(records, i).id, n)
    ensures n > 0 && ReachesIn(spans, RunId(records.runId), ReceiptSpan(records, i).parent.value, n - 1)
  {
    var operation := records.receipts[i].operationId;
    Ids(records.runId, operation);
    var s :| s in spans && s.id == ToolId(operation) && s.parent.Some?
      && ReachesIn(spans, RunId(records.runId), s.parent.value, n - 1);
    var j := ToolSpan(spans, records, s, operation);
    assert j == i;
  }

  lemma KnownOperation(spans: seq<Span>, records: Records, operation: string) returns (i: nat)
    requires Represents(spans, records) && HasSpan(spans, ToolId(operation))
    ensures i < |records.receipts| && records.receipts[i].operationId == operation
    ensures ReceiptSpan(records, i).id == ToolId(operation)
  {
    var s :| s in spans && s.id == ToolId(operation);
    i := ToolSpan(spans, records, s, operation);
  }

  /** A nested tool hangs from the span of another receipt. */
  lemma NestedParent(spans: seq<Span>, records: Records, i: nat) returns (j: nat)
    requires Represents(spans, records) && Closed(records) && i < |records.receipts|
    requires records.receipts[i].parentOperation != ""
    ensures j < |records.receipts| && records.receipts[j].operationId == records.receipts[i].parentOperation
    ensures ReceiptSpan(records, i).parent == Some(ReceiptSpan(records, j).id)
  {
    assert HasOperation(records.receipts, records.receipts[i].parentOperation);
    j :| 0 <= j < |records.receipts| && records.receipts[j].operationId == records.receipts[i].parentOperation;
  }

  /** From a top-level tool the number of steps is fixed by whether a model call is eligible. */
  lemma TopLevelSteps(spans: seq<Span>, records: Records, i: nat, n: nat)
    requires Represents(spans, records) && DistinctSources(records) && i < |records.receipts|
    requires records.receipts[i].parentOperation == ""
    requires ReachesIn(spans, RunId(records.runId), ReceiptSpan(records, i).parent.value, n)
    ensures n == if Latest(records.calls, records.receipts[i]).Some? then 1 else 0
  {
    if Latest(records.calls, records.receipts[i]).Some? {
      var k := LatestCall(records.calls, records.receipts[i]);
      ModelSteps(spans, records, k, n);
    } else {
      RootSteps(spans, records, n);
    }
  }

  /** The number of steps from a tool to the root is unique. */
  lemma {:induction false} ToolStepsUnique(spans: seq<Span>, records: Records, i: nat, m: nat, n: nat)
    requires Represents(spans, records) && DistinctSources(records) && Closed(records) && i < |records.receipts|
    requires ReachesIn(spans, RunId(records.runId), ReceiptSpan(records, i).id, m)
    requires ReachesIn(spans, RunId(records.runId), ReceiptSpan(records, i).id, n)
    ensures m == n
    decreases m
  {
    ToolStep(spans, records, i, m);
    ToolStep(spans, records, i, n);
    if records.receipts[i].parentOperation != "" {
      var j := NestedParent(spans, records, i);
      ToolStepsUnique(spans, records, j, m - 1, n - 1);
    } else {
      TopLevelSteps(spans, records, i, m - 1);
      TopLevelSteps(spans, records, i, n - 1);
    }
  }

  lemma TreeIsClosed(spans: seq<Span>, records: Records)
    requires Represents(spans, records) && IsTree(spans, RunId(records.runId))
    ensures Closed(records)
  {
    forall i | 0 <= i < |records.calls| && records.calls[i].parentOperation != ""
      ensures HasOperation(records.receipts, records.calls[i].parentOperation)
    {
      assert Made(records, CallSpan(records, i)) && InTree(spans, RunId(records.runId), CallSpan(records, i));
      var k := KnownOperation(spans, records, records.calls[i].parentOperation);
    }
    forall i | 0 <= i < |records.receipts| && records.receipts[i].parentOperation != ""
      ensures HasOperation(records.receipts, records.receipts[i].parentOperation)
    {
      assert Made(records, ReceiptSpan(records, i)) && InTree(spans, RunId(records.runId), ReceiptSpan(records, i));
      var k := KnownOperation(spans, records, records.receipts[i].parentOperation);
    }
  }

  ghost function Steps(spans: seq<Span>, root: string, id: string): nat {
    if Reaches(spans, root, id) then
      var n: nat :| ReachesIn(spans, root, id, n);
      n
    else 0
  }

  lemma StepsFall(spans: seq<Span>, records: Records, i: nat)
    requires Represents(spans, records) && DistinctSources(records) && IsTree(spans, RunId(records.runId))
    requires i < |records.receipts| && records.receipts[i].parentOperation != "" && Closed(records)
    ensures Steps(spans, RunId(records.runId), ToolId(records.receipts[i].parentOperation))
          < Steps(spans, RunId(records.runId), ToolId(records.receipts[i].operationId))
  {
    var root := RunId(records.runId);
    assert Made(records, ReceiptSpan(records, i)) && InTree(spans, root, ReceiptSpan(records, i));
    var n := Steps(spans, root, ReceiptSpan(records, i).id);
    ToolStep(spans, records, i, n);
    var j := NestedParent(spans, records, i);
    ToolStepsUnique(spans, records, j, Steps(spans, root, ReceiptSpan(records, j).id), n - 1);
  }

  lemma TreeIsAcyclic(spans: seq<Span>, records: Records)
    requires Represents(spans, records) && DistinctSources(records) && IsTree(spans, RunId(records.runId))
    requires Closed(records)
    ensures Acyclic(records.receipts)
  {
    var root := RunId(records.runId);
    var rank := (operation: string) => Steps(spans, root, ToolId(operation));
    forall i | 0 <= i < |records.receipts| && records.receipts[i].parentOperation != ""
      ensures rank(records.receipts[i].parentOperation) < rank(records.receipts[i].operationId)
    {
      StepsFall(spans, records, i);
    }
    RankedIsAcyclic(records.receipts, rank);
  }

  /** The spans form a tree exactly when the parent operations are known and no chain of them closes on itself. */
  lemma TreeIff(records: Records)
    requires DistinctSources(records)
    ensures IsTree(Spans(records), RunId(records.runId)) <==> Closed(records) && Acyclic(records.receipts)
  {
    var spans, root := Spans(records), RunId(records.runId);
    SpansRepresent(records);
    if Closed(records) && Acyclic(records.receipts) {
      var rank := AcyclicHasRank(records.receipts);
      forall s | s in spans ensures InTree(spans, root, s) {
        SpanReaches(spans, records, rank, s);
        if s.parent.Some? {
          ParentPresent(spans, records, s);
        }
      }
    }
    if IsTree(spans, root) {
      TreeIsClosed(spans, records);
      TreeIsAcyclic(spans, records);
    }
  }

  // ----- the spans of a trace, told from its records -----

  /** Latest among the top-level calls of the receipt's attempt that were not created after it; the first of its time. */
  ghost predicate IsBest(calls: seq<ModelCall>, r: Receipt, k: nat) {
    && k < |calls| && MayLead(calls[k], r)
    && (forall i {:trigger MayLead(calls[i], r)} :: 0 <= i < |calls| && MayLead(calls[i], r) ==>
          calls[i].createdAt < calls[k].createdAt || (calls[i].createdAt == calls[k].createdAt && k <= i))
  }

  predicate MayLead(call: ModelCall, r: Receipt) {
    call.parentOperation == "" && call.attempt == r.attempt && call.createdAt <= r.createdAt
  }

  ghost predicate IsToolOf(s: Span, r: Receipt, records: Records) {
    && s.id == "span:tool:" + r.operationId && s.parent.Some?
    && (r.parentOperation != "" ==> s.parent.value == "span:tool:" + r.parentOperation)
    && (r.parentOperation == "" ==> Leads(s.parent.value, r, records))
  }

  /** The span of the best call, or the run's when no call may lead. */
  ghost predicate Leads(parent: string, r: Receipt, records: Records) {
    if forall call :: call in records.calls ==> !MayLead(call, r) then parent == "span:run:" + records.runId
    else exists k: nat :: IsBest(records.calls, r, k) && parent == "span:model:" + records.calls[k].id
  }

  predicate IsModelOf(s: Span, call: ModelCall, records: Records) {
    s == Span("span:model:" + call.id,
      Some(if call.parentOperation != "" then "span:tool:" + call.parentOperation else "span:run:" + records.runId))
  }

  ghost predicate IsSpanOf(s: Span, records: Records) {
    var root := "span:run:" + records.runId;
    || s == Span(root, None)
    || (exists call :: call in records.calls && IsModelOf(s, call, records))
    || (exists r :: r in records.receipts && IsToolOf(s, r, records))
    || (exists child :: child in records.children && s == Span("span:child-run:" + child, Some(root)))
    || (records.checkpoint.Some? && s == Span("span:checkpoint:" + records.checkpoint.value, Some(root)))
    || (records.terminal && s == Span("span:terminal:" + records.runId, Some(root)))
  }

  lemma BestIsLatest(calls: seq<ModelCall>, r: Receipt, k: nat)
    requires k < |calls|
    ensures IsFirstLatest(calls, r, k) <==> IsBest(calls, r, k)
  {
    assert forall i :: 0 <= i < |calls| ==> (MayLead(calls[i], r) <==> Eligible(calls[i], r));
  }

  lemma BestIsUnique(calls: seq<ModelCall>, r: Receipt, j: nat, k: nat)
    requires IsBest(calls, r, j) && IsBest(calls, r, k)
    ensures j == k
  {
    assert MayLead(calls[j], r) && MayLead(calls[k], r);
  }

  /** The parent of a tool, from the calls alone. */
  lemma ToolParent(records: Records, i: nat, s: Span)
    requires i < |records.receipts|
    ensures s == ReceiptSpan(records, i) <==> IsToolOf(s, records.receipts[i], records)
  {
    var r := records.receipts[i];
    var parent := ReceiptParent(records.calls, r, RunId(records.runId));
    if r.parentOperation == "" {
      LeadsIs(records, r, parent);
      if s.parent.Some? {
        LeadsIs(records, r, s.parent.value);
      }
    }
  }

  lemma LeadsIs(records: Records, r: Receipt, parent: string)
    requires r.parentOperation == ""
    ensures Leads(parent, r, records) <==> parent == ReceiptParent(records.calls, r, RunId(records.runId))
  {
    var calls := records.calls;
    LatestIsLatest(calls, r);
    assert forall j :: 0 <= j < |calls| ==> (MayLead(calls[j], r) <==> Eligible(calls[j], r));
    if Latest(calls, r).Some? {
      var k: nat :| k < |calls| && calls[k] == Latest(calls, r).value && IsFirstLatest(calls, r, k);
      BestIsLatest(calls, r, k);
      assert MayLead(calls[k], r) && calls[k] in calls;
      forall j: nat | IsBest(calls, r, j) ensures j == k {
        BestIsUnique(calls, r, j, k);
      }
    }
  }

  lemma ToolSpans(records: Records, s: Span)
    ensures s in ReceiptSpans(records.receipts, records.calls, RunId(records.runId))
      <==> exists r :: r in records.receipts && IsToolOf(s, r, records)
  {
    var spans := ReceiptSpans(records.receipts, records.calls, RunId(records.runId));
    if s in spans {
      var i :| 0 <= i < |spans| && spans[i] == s;
      ToolParent(records, i, s);
      assert records.receipts[i] in records.receipts;
    }
    if r :| r in records.receipts && IsToolOf(s, r, records) {
      var i :| 0 <= i < |records.receipts| && records.receipts[i] == r;
      ToolParent(records, i, s);
      assert spans[i] == s;
    }
  }

  lemma ModelSpans(records: Records, s: Span)
    ensures s in CallSpans(records.calls, RunId(records.runId))
      <==> exists call :: call in records.calls && IsModelOf(s, call, records)
  {
    var spans := CallSpans(records.calls, RunId(records.runId));
    if s in spans {
      var i :| 0 <= i < |spans| && spans[i] == s;
      assert IsModelOf(s, records.calls[i], records);
    }
    if call :| call in records.calls && IsModelOf(s, call, records) {
      var i :| 0 <= i < |records.calls| && records.calls[i] == call;
      assert spans[i] == s;
    }
  }

  lemma ChildRunSpans(records: Records, s: Span)
    ensures s in ChildSpans(records.children, RunId(records.runId))
      <==> exists child :: child in records.children && s == Span("span:child-run:" + child, Some("span:run:" + records.runId))
  {
    var spans := ChildSpans(records.children, RunId(records.runId));
    if s in spans {
      var i :| 0 <= i < |spans| && spans[i] == s;
      assert records.children[i] in records.children;
    }
    if child :| child in records.children && s == Span("span:child-run:" + child, Some("span:run:" + records.runId)) {
      var i :| 0 <= i < |records.children| && records.children[i] == child;
      assert spans[i] == s;
    }
  }

  /** A trace has exactly the spans of its records, each with its parent. */
  lemma SpansAre(records: Records, s: Span)
    ensures s in Spans(records) <==> IsSpanOf(s, records)
  {
    ToolSpans(records, s);
    ModelSpans(records, s);
    ChildRunSpans(records, s);
  }
}
