/**
  The agent loop (`runAgentLoop`, src/agents/orchestrator.ts) with the halt gate of
  `patcherAgent` (src/agents/patcher.ts). What the agents, the test runner, the
  trace file and the halt report's file answer is input.
*/
module Orchestrator {

  import opened Wrappers

  datatype FileDiff = FileDiff(filename: string, original: string, modified: string)

  type Diff = seq<FileDiff>

  datatype Verdict = Approve | RequestChanges(reasons: seq<string>)

  datatype Tests = Tests(passed: bool, failures: seq<string>)

  datatype Role = Planner | Coder | Critic | Tester | Patcher

  datatype Status = Pending | Running | Passed | Failed | Skipped

  datatype GraphStatus = GraphPending | InProgress | Complete | GraphFailed

  datatype HaltReport = HaltReport(attempts: nat, criticReasons: seq<string>, testFailures: seq<string>)

  /** What would be answered, call by call; None or false stands for a call that
      throws. `patch` is what the patcher's model would reply; `apiKey` tells whether
      the patcher finds the model's key. */
  datatype Answers = Answers(
    draft: Option<Diff>, review: Option<Verdict>, redraft: Option<Diff>, rereview: Option<Verdict>,
    tests: Option<Tests>, patch: Option<Diff>, patchReview: Option<Verdict>, trace: bool, report: bool,
    apiKey: bool)

  /** The calls made for a node, with what they were given and answered. */
  datatype Call =
    | Coded(feedback: Option<seq<string>>, draft: Option<Diff>)
    | Judged(diff: Diff, verdict: Option<Verdict>)
    | Tested(diff: Diff, tests: Option<Tests>)
    | Patching(diff: Diff, patch: Option<Diff>)
    // The patcher's call of the model, before `Patching` gives its outcome.
    | Prompted
    // The patcher found no key for the model.
    | Unkeyed
    // Writing halt_report.json.
    | Reported(written: bool)
    | Traced(written: bool)

  // ----- one node, as a function of the answers -----

  datatype NodeEnd = NodeEnd(status: Status, attempts: nat, outputs: Option<Diff>, reports: seq<HaltReport>,
                             calls: seq<Call>, thrown: bool)

  /** A call threw: the node is left running. */
  function Threw(attempts: nat, calls: seq<Call>): NodeEnd {
    NodeEnd(Running, attempts, None, [], calls, true)
  }

  /** The report is written before the node is marked as failed. */
  function Halted(attempts: nat, report: HaltReport, calls: seq<Call>, written: bool): NodeEnd {
    if written then NodeEnd(Failed, attempts, None, [report], calls + [Reported(true)], true)
    else Threw(attempts, calls + [Reported(false)])
  }

  /** The diff is applied; writing the trace may still throw. */
  function Applied(diff: Diff, attempts: nat, calls: seq<Call>, written: bool): NodeEnd {
    NodeEnd(Passed, attempts, Some(diff), [], calls + [Traced(written)], !written)
  }

  /** The patcher's answer: it refuses when no attempt is left or the key is missing,
      and an empty patch is an error. */
  function PatcherAnswer(attempts: nat, maxAttempts: int, a: Answers): Option<Diff> {
    if attempts >= maxAttempts || !a.apiKey || a.patch == Some([]) then None else a.patch
  }

  /** What the patcher calls: the model, or the halt report's file. */
  function PatcherCall(attempts: nat, maxAttempts: int, a: Answers): Call {
    if attempts >= maxAttempts then Reported(a.report) else if a.apiKey then Prompted else Unkeyed
  }

  /** From the patcher's answer to failing tests. */
  function AfterPatching(patch: Option<Diff>, attempts: nat, a: Answers, calls: seq<Call>): NodeEnd
    requires a.tests.Some?
  {
    if patch.None? then Threw(attempts, calls)
    else
      var calls1 := calls + [Judged(patch.value, a.patchReview)];
      match a.patchReview
      case None => Threw(attempts, calls1)
      case Some(RequestChanges(reasons)) =>
        Halted(attempts, HaltReport(attempts, reasons, a.tests.value.failures), calls1, a.report)
      case Some(Approve) => Applied(patch.value, attempts, calls1, a.trace)
  }

  /** From a diff the critic approved. */
  function AfterApproval(diff: Diff, attempts: nat, maxAttempts: int, a: Answers, calls: seq<Call>): NodeEnd {
    var calls1 := calls + [Tested(diff, a.tests)];
    if a.tests.None? then Threw(attempts, calls1)
    else if a.tests.value.passed then Applied(diff, attempts, calls1, a.trace)
    else
      var patch := PatcherAnswer(attempts + 1, maxAttempts, a);
      AfterPatching(patch, attempts + 1, a,
                    calls1 + [PatcherCall(attempts + 1, maxAttempts, a)] + [Patching(diff, patch)])
  }

  /** From a first review that asked for changes. */
  function AfterRejection(reasons: seq<string>, maxAttempts: int, a: Answers, calls: seq<Call>): NodeEnd {
    var calls1 := calls + [Coded(Some(reasons), a.redraft)];
    if a.redraft.None? then Threw(1, calls1)
    else
      var calls2 := calls1 + [Judged(a.redraft.value, a.rereview)];
      match a.rereview
      case None => Threw(2, calls2)
      case Some(RequestChanges(again)) => Halted(2, HaltReport(2, again, []), calls2, a.report)
      case Some(Approve) => AfterApproval(a.redraft.value, 2, maxAttempts, a, calls2)
  }

  function NodeRun(role: Role, maxAttempts: int, a: Answers): NodeEnd {
    if role != Coder then NodeEnd(Passed, 0, None, [], [], false)
    else
      var calls := [Coded(None, a.draft)];
      if a.draft.None? then Threw(0, calls)
      else
        var calls1 := calls + [Judged(a.draft.value, a.review)];
        match a.review
        case None => Threw(1, calls1)
        case Some(RequestChanges(reasons)) => AfterRejection(reasons, maxAttempts, a, calls1)
        case Some(Approve) => AfterApproval(a.draft.value, 1, maxAttempts, a, calls1)
  }

  // ----- the code -----

  class TaskNode {
    const role: Role
    const maxAttempts: int
    var status: Status
    var attempts: nat
    var outputs: Option<Diff>
    var errorLog: seq<HaltReport>

    constructor (role: Role, maxAttempts: int)
      ensures this.role == role && this.maxAttempts == maxAttempts
      ensures status == Pending && attempts == 0 && outputs == None && errorLog == []
    {
      this.role, this.maxAttempts := role, maxAttempts;
      status, attempts, outputs, errorLog := Pending, 0, None, [];
    }

    /** The node after a run that ended as `end`, from what it held before. */
    twostate predicate Became(end: NodeEnd)
      reads this
    {
      && status == end.status && attempts == end.attempts
      && outputs == (if end.outputs.Some? then end.outputs else old(outputs))
      && errorLog == old(errorLog) + end.reports
    }
  }

  class TaskGraph {
    const nodes: seq<TaskNode>
    var status: GraphStatus

    constructor (nodes: seq<TaskNode>)
      ensures this.nodes == nodes && status == GraphPending
    {
      this.nodes := nodes;
      status := GraphPending;
    }
  }

  /** `patcherAgent`: the model is called if and only if an attempt is left and its
      key is set. */
  method PatcherAgent(node: TaskNode, a: Answers) returns (answer: Option<Diff>, calls: seq<Call>)
    ensures answer == PatcherAnswer(node.attempts, node.maxAttempts, a)
    ensures calls == [PatcherCall(node.attempts, node.maxAttempts, a)]
    ensures Prompted in calls <==> node.attempts < node.maxAttempts && a.apiKey
    ensures answer.Some? ==> Prompted in calls && answer == a.patch && answer.value != []
  {
    answer := None;
    if node.attempts >= node.maxAttempts {
      calls := [Reported(a.report)];
    } else if !a.apiKey {
      calls := [Unkeyed];
    } else {
      calls := [Prompted];
      if a.patch != Some([]) {
        answer := a.patch;
      }
    }
  }

  /** The body of the loop over the graph's nodes. */
  method RunNode(graph: TaskGraph, node: TaskNode, a: Answers) returns (thrown: bool, calls: seq<Call>)
    modifies node, graph`status
    ensures var end := NodeRun(node.role, node.maxAttempts, a);
            node.Became(end) && thrown == end.thrown && calls == end.calls
    ensures graph.status == if node.status == Failed then GraphFailed else old(graph.status)
  {
    node.status := Running;
    node.attempts := 0;
    calls := [];
    thrown := true;
    if node.role == Coder {
      calls := [Coded(None, a.draft)];
      if a.draft.None? { return; }
      var diff := a.draft.value;
      node.attempts := node.attempts + 1;

      calls := calls + [Judged(diff, a.review)];
      if a.review.None? { return; }
      var verdict := a.review.value;
      if verdict.RequestChanges? {
        calls := calls + [Coded(Some(verdict.reasons), a.redraft)];
        if a.redraft.None? { return; }
        diff := a.redraft.value;
        node.attempts := node.attempts + 1;
        calls := calls + [Judged(diff, a.rereview)];
        if a.rereview.None? { return; }
        verdict := a.rereview.value;
        if verdict.RequestChanges? {
          calls := calls + [Reported(a.report)];
          if !a.report { return; }
          node.status := Failed;
          node.errorLog := node.errorLog + [HaltReport(node.attempts, verdict.reasons, [])];
          graph.status := GraphFailed;
          return;
        }
      }

      calls := calls + [Tested(diff, a.tests)];
      if a.tests.None? { return; }
      if !a.tests.value.passed {
        node.attempts := node.attempts + 1;
        var patch, made := PatcherAgent(node, a);
        calls := calls + made + [Patching(diff, patch)];
        if patch.None? { return; }
        calls := calls + [Judged(patch.value, a.patchReview)];
        if a.patchReview.None? { return; }
        if a.patchReview.value.RequestChanges? {
          calls := calls + [Reported(a.report)];
          if !a.report { return; }
          node.status := Failed;
          node.errorLog := node.errorLog
                           + [HaltReport(node.attempts, a.patchReview.value.reasons, a.tests.value.failures)];
          graph.status := GraphFailed;
          return;
        }
        diff := patch.value;
      }

      node.outputs := Some(diff);
      node.status := Passed;
      calls := calls + [Traced(a.trace)];
      thrown := !a.trace;
    } else {
      node.status := Passed;
      thrown := false;
    }
  }

  // ----- the whole graph -----

  function Ends(nodes: seq<TaskNode>, answers: seq<Answers>): (ends: seq<NodeEnd>)
    requires |answers| == |nodes|
    ensures |ends| == |nodes|
  {
    seq(|nodes|, i requires 0 <= i < |nodes| => NodeRun(nodes[i].role, nodes[i].maxAttempts, answers[i]))
  }

  /** The first node whose run throws, or the number of nodes. */
  function FirstThrow(ends: seq<NodeEnd>): nat {
    if ends == [] || ends[0].thrown then 0 else 1 + FirstThrow(ends[1..])
  }

  lemma {:induction false} FirstThrowFacts(ends: seq<NodeEnd>, k: nat)
    requires k <= |ends| && forall i :: 0 <= i < k ==> !ends[i].thrown
    ensures k <= FirstThrow(ends) <= |ends|
    ensures k < |ends| && ends[k].thrown ==> FirstThrow(ends) == k
  {
    if k > 0 {
      FirstThrowFacts(ends[1..], k - 1);
    } else if ends != [] {
      FirstThrowFacts(ends[1..], 0);
    }
  }

  /** The calls of the nodes up to the one that throws. */
  function CallsUpTo(ends: seq<NodeEnd>, k: nat): seq<Call>
    requires k <= |ends|
  {
    if k == 0 then [] else CallsUpTo(ends, k - 1) + ends[k - 1].calls
  }

  lemma CallsStart(ends: seq<NodeEnd>)
    ensures CallsUpTo(ends, 0) == []
  {
  }

  lemma CallsNext(ends: seq<NodeEnd>, i: nat)
    requires i < |ends|
    ensures CallsUpTo(ends, i + 1) == CallsUpTo(ends, i) + ends[i].calls
  {
  }

  /** Every call of those nodes is in the list, behind the calls of the nodes before. */
  lemma {:induction false} CallAt(ends: seq<NodeEnd>, k: nat, i: nat, j: nat)
    requires i < k <= |ends| && j < |ends[i].calls|
    ensures |CallsUpTo(ends, i)| + j < |CallsUpTo(ends, k)|
    ensures CallsUpTo(ends, k)[|CallsUpTo(ends, i)| + j] == ends[i].calls[j]
  {
    if i < k - 1 {
      CallAt(ends, k - 1, i, j);
    }
  }

  lemma EndsAt(nodes: seq<TaskNode>, answers: seq<Answers>, i: nat)
    requires |answers| == |nodes| && i < |nodes|
    ensures Ends(nodes, answers)[i] == NodeRun(nodes[i].role, nodes[i].maxAttempts, answers[i])
  {
  }

  ghost predicate NoNodeTwice(nodes: seq<TaskNode>) {
    forall i, j :: 0 <= i < j < |nodes| ==> nodes[i] != nodes[j]
  }

  /** `runAgentLoop`, once the planner has answered. */
  method RunAgentLoop(graph: TaskGraph, answers: seq<Answers>) returns (returned: bool, calls: seq<Call>)
    requires |answers| == |graph.nodes| && NoNodeTwice(graph.nodes)
    modifies graph`status, graph.nodes
    ensures var ends := Ends(graph.nodes, answers);
            var k := FirstThrow(ends);
            && k <= |ends|
            && (forall i :: 0 <= i < |ends| && i <= k ==> graph.nodes[i].Became(ends[i]))
            && (forall i :: k < i < |ends| ==> unchanged(graph.nodes[i]))
            && returned == (k == |ends|)
            && calls == CallsUpTo(ends, if returned then k else k + 1)
            && graph.status == (if returned then Complete
                                else if ends[k].status == Failed then GraphFailed
                                else InProgress)
  {
    hide NodeRun, FirstThrow, Ends, CallsUpTo;
    CallsStart(Ends(graph.nodes, answers));
    ghost var ends := Ends(graph.nodes, answers);
    graph.status := InProgress;
    calls := [];
    returned := true;
    for i := 0 to |graph.nodes|
      invariant returned && graph.status == InProgress
      invariant forall j :: 0 <= j < i ==> !ends[j].thrown && graph.nodes[j].Became(ends[j])
      invariant forall j :: i <= j < |ends| ==> unchanged(graph.nodes[j])
      invariant calls == CallsUpTo(ends, i)
    {
      var thrown, made := RunNode(graph, graph.nodes[i], answers[i]);
      calls := calls + made;
      EndsAt(graph.nodes, answers, i);
      CallsNext(ends, i);
      FirstThrowFacts(ends, i);
      NotThrownPassed(graph.nodes[i].role, graph.nodes[i].maxAttempts, answers[i]);
      if thrown {
        returned := false;
        break;
      }
    }
    if returned {
      FirstThrowFacts(ends, |ends|);
      graph.status := Complete;
    }
  }

  /** Every node before the first throw has passed; the one that threw has not,
      unless all that failed was writing its trace. */
  lemma PassedNodesArePrefix(nodes: seq<TaskNode>, answers: seq<Answers>, i: nat)
    requires |answers| == |nodes| && i < |nodes| && i <= FirstThrow(Ends(nodes, answers))
    ensures var end := Ends(nodes, answers)[i];
            if i < FirstThrow(Ends(nodes, answers)) then end.status == Passed
            else end.status == Passed ==> end.calls != [] && end.calls[|end.calls| - 1] == Traced(false)
  {
    hide NodeRun;
    var ends := Ends(nodes, answers);
    if i < FirstThrow(ends) {
      BeforeFirstThrow(ends, i);
      NotThrownPassed(nodes[i].role, nodes[i].maxAttempts, answers[i]);
    } else {
      AtFirstThrow(ends);
      ThrownPassed(nodes[i].role, nodes[i].maxAttempts, answers[i]);
    }
  }

  lemma {:induction false} BeforeFirstThrow(ends: seq<NodeEnd>, i: nat)
    requires i < |ends| && i < FirstThrow(ends)
    ensures !ends[i].thrown
  {
    if i > 0 {
      BeforeFirstThrow(ends[1..], i - 1);
    }
  }

  lemma {:induction false} AtFirstThrow(ends: seq<NodeEnd>)
    requires FirstThrow(ends) < |ends|
    ensures ends[FirstThrow(ends)].thrown
  {
    if !ends[0].thrown {
      AtFirstThrow(ends[1..]);
    }
  }

  lemma ThrownPassed(role: Role, maxAttempts: int, a: Answers)
    ensures var end := NodeRun(role, maxAttempts, a);
            end.thrown && end.status == Passed ==> end.calls != [] && end.calls[|end.calls| - 1] == Traced(false)
  {
  }

  // ----- what a run of one node means -----

  lemma NotThrownPassed(role: Role, maxAttempts: int, a: Answers)
    ensures !NodeRun(role, maxAttempts, a).thrown ==> NodeRun(role, maxAttempts, a).status == Passed
  {
  }

  /** What a list of calls amounts to. `ordered` says that the critic, the tests
      and the patcher were each given the diff produced last. */
  datatype Summary = Summary(coderCalls: nat, reviews: nat, patcherCalls: nat, produced: nat, latest: Option<Diff>,
                             lastReview: Option<Call>, testedOk: set<Diff>, ordered: bool)

  function Extend(s: Summary, c: Call): Summary {
    match c
    case Coded(_, draft) =>
      s.(coderCalls := s.coderCalls + 1, produced := s.produced + (if draft.Some? then 1 else 0),
         latest := if draft.Some? then draft else s.latest)
    case Judged(diff, _) =>
      s.(reviews := s.reviews + 1, lastReview := Some(c), ordered := s.ordered && s.latest == Some(diff))
    case Tested(diff, tests) =>
      s.(testedOk := if tests.Some? && tests.value.passed then s.testedOk + {diff} else s.testedOk,
         ordered := s.ordered && s.latest == Some(diff))
    case Patching(diff, patch) =>
      s.(patcherCalls := s.patcherCalls + 1, latest := if patch.Some? then patch else s.latest,
         ordered := s.ordered && s.latest == Some(diff))
    case Prompted => s
    case Unkeyed => s
    case Reported(_) => s
    case Traced(_) => s
  }

  function Summarize(calls: seq<Call>): Summary {
    if calls == [] then Summary(0, 0, 0, 0, None, None, {}, true)
    else Extend(Summarize(calls[..|calls| - 1]), calls[|calls| - 1])
  }

  lemma Pushed(calls: seq<Call>, c: Call)
    ensures Summarize(calls + [c]) == Extend(Summarize(calls), c)
  {
    assert (calls + [c])[..|calls|] == calls;
  }

  /** How a node's run may end, told by its calls alone. */
  ghost predicate Accounted(end: NodeEnd, start: Summary) {
    var s := Summarize(end.calls);
    && s.ordered
    && s.coderCalls == start.coderCalls && s.reviews <= start.reviews + 1 && s.patcherCalls <= start.patcherCalls + 1
    && end.attempts == s.produced + s.patcherCalls
    && (end.status == Passed ==>
          && end.outputs.Some? && s.latest == end.outputs
          && s.lastReview == Some(Judged(end.outputs.value, Some(Approve)))
          && (end.outputs.value in s.testedOk || s.patcherCalls == start.patcherCalls + 1))
    && (end.status != Passed ==> end.outputs == None)
    && (end.status == Passed || end.status == Running || end.status == Failed)
  }

  ghost predicate Ready(diff: Diff, attempts: nat, s: Summary) {
    && s.ordered && s.latest == Some(diff) && s.lastReview == Some(Judged(diff, Some(Approve)))
    && attempts == s.produced + s.patcherCalls
  }

  lemma ApprovalAccounted(diff: Diff, attempts: nat, maxAttempts: int, a: Answers, calls: seq<Call>)
    requires Ready(diff, attempts, Summarize(calls))
    ensures Accounted(AfterApproval(diff, attempts, maxAttempts, a, calls), Summarize(calls))
  {
    hide Summarize, PatcherAnswer;
    var calls1 := calls + [Tested(diff, a.tests)];
    Pushed(calls, Tested(diff, a.tests));
    Pushed(calls1, Traced(a.trace));
    if a.tests.Some? && !a.tests.value.passed {
      PatchAccounted(diff, attempts, maxAttempts, a, calls);
    }
  }

  lemma PatchAccounted(diff: Diff, attempts: nat, maxAttempts: int, a: Answers, calls: seq<Call>)
    requires Ready(diff, attempts, Summarize(calls)) && a.tests.Some? && !a.tests.value.passed
    ensures Accounted(AfterApproval(diff, attempts, maxAttempts, a, calls), Summarize(calls))
  {
    hide Summarize, PatcherAnswer, PatcherCall, AfterPatching, Accounted;
    var calls1 := calls + [Tested(diff, a.tests)];
    Pushed(calls, Tested(diff, a.tests));
    var patch := PatcherAnswer(attempts + 1, maxAttempts, a);
    var call := PatcherCall(attempts + 1, maxAttempts, a);
    PatcherCallCounts(Summarize(calls1), attempts + 1, maxAttempts, a);
    Pushed(calls1, call);
    Pushed(calls1 + [call], Patching(diff, patch));
    PatchingAccounted(patch, attempts + 1, a, calls1 + [call] + [Patching(diff, patch)], Summarize(calls));
  }

  lemma PatcherCallCounts(s: Summary, attempts: nat, maxAttempts: int, a: Answers)
    ensures Extend(s, PatcherCall(attempts, maxAttempts, a)) == s
  {
  }

  lemma PatchingAccounted(patch: Option<Diff>, attempts: nat, a: Answers, calls: seq<Call>, start: Summary)
    requires a.tests.Some?
    requires var s := Summarize(calls);
             && s.ordered && s.coderCalls == start.coderCalls && s.reviews == start.reviews
             && s.patcherCalls == start.patcherCalls + 1 && attempts == s.produced + s.patcherCalls
             && (patch.Some? ==> s.latest == patch)
    ensures Accounted(AfterPatching(patch, attempts, a, calls), start)
  {
    hide Summarize;
    if patch.Some? {
      var calls1 := calls + [Judged(patch.value, a.patchReview)];
      Pushed(calls, Judged(patch.value, a.patchReview));
      Pushed(calls1, Traced(a.trace));
      Pushed(calls1, Reported(a.report));
    }
  }

  /** For a coder's node, whatever is answered: at most two coder calls, three
      reviews and one patcher call; every review and test is of the diff produced
      last; attempts count the drafts and the patcher's turn; and a node that
      passes keeps the very diff the critic judged last, and approved, which the
      tests passed unless it is the patch. */
  lemma CoderNode(maxAttempts: int, a: Answers)
    ensures var end := NodeRun(Coder, maxAttempts, a);
            var s := Summarize(end.calls);
            && s.ordered && s.coderCalls <= 2 && s.reviews <= 3 && s.patcherCalls <= 1
            && end.attempts == s.produced + s.patcherCalls
            && (end.status == Passed ==>
                  && end.outputs.Some? && s.lastReview == Some(Judged(end.outputs.value, Some(Approve)))
                  && (end.outputs.value in s.testedOk || s.patcherCalls == 1))
            && (end.status != Passed ==> end.outputs == None && end.thrown)
  {
    hide Summarize, AfterApproval;
    NothingCalled();
    var c0 := Coded(None, a.draft);
    Pushed([], c0);
    assert [] + [c0] == [c0];
    if a.draft.Some? {
      var calls1 := [c0] + [Judged(a.draft.value, a.review)];
      Pushed([c0], Judged(a.draft.value, a.review));
      ApprovalThrows(a.draft.value, 1, maxAttempts, a, calls1);
      match a.review
      case None =>
      case Some(Approve) => ApprovalAccounted(a.draft.value, 1, maxAttempts, a, calls1);
      case Some(RequestChanges(reasons)) =>
        var calls2 := calls1 + [Coded(Some(reasons), a.redraft)];
        Pushed(calls1, Coded(Some(reasons), a.redraft));
        if a.redraft.Some? {
          var calls3 := calls2 + [Judged(a.redraft.value, a.rereview)];
          Pushed(calls2, Judged(a.redraft.value, a.rereview));
          Pushed(calls3, Reported(a.report));
          ApprovalThrows(a.redraft.value, 2, maxAttempts, a, calls3);
          if a.rereview == Some(Approve) {
            ApprovalAccounted(a.redraft.value, 2, maxAttempts, a, calls3);
          }
        }
    }
  }

  lemma NothingCalled()
    ensures Summarize([]) == Summary(0, 0, 0, 0, None, None, {}, true)
  {
  }

  lemma ApprovalThrows(diff: Diff, attempts: nat, maxAttempts: int, a: Answers, calls: seq<Call>)
    ensures var end := AfterApproval(diff, attempts, maxAttempts, a, calls); end.status != Passed ==> end.thrown
  {
  }

  predicate Rejection(c: Call) {
    c.Judged? && c.verdict.Some? && c.verdict.value.RequestChanges?
  }

  /** The run ended with a rejection by the critic and then its halt report. */
  predicate EndsRejected(calls: seq<Call>, written: bool) {
    |calls| >= 2 && Rejection(calls[|calls| - 2]) && calls[|calls| - 1] == Reported(written)
  }

  /** The node ends failed if and only if the last thing that happened was a
      rejection by the critic whose halt report could be written; when the report's
      file cannot be written the node stays running. */
  lemma FailedIffRejectedLast(maxAttempts: int, a: Answers)
    ensures var end := NodeRun(Coder, maxAttempts, a);
            && (end.status == Failed <==> EndsRejected(end.calls, true))
            && (EndsRejected(end.calls, false) ==> end.status == Running)
  {
    hide AfterApproval;
    if a.draft.Some? && a.review.Some? {
      if a.review.value.Approve? {
        LastAfterApproval(a.draft.value, 1, maxAttempts, a, [Coded(None, a.draft)] + [Judged(a.draft.value, a.review)]);
      } else if a.redraft.Some? && a.rereview == Some(Approve) {
        LastAfterApproval(a.redraft.value, 2, maxAttempts, a,
                          [Coded(None, a.draft)] + [Judged(a.draft.value, a.review)]
                          + [Coded(Some(a.review.value.reasons), a.redraft)] + [Judged(a.redraft.value, a.rereview)]);
      }
    }
  }

  lemma LastAfterApproval(diff: Diff, attempts: nat, maxAttempts: int, a: Answers, calls: seq<Call>)
    ensures var end := AfterApproval(diff, attempts, maxAttempts, a, calls);
            && (end.status == Failed <==> EndsRejected(end.calls, true))
            && (EndsRejected(end.calls, false) ==> end.status == Running)
  {
  }

  /** The patcher's model is called if and only if the patcher's turn comes while an
      attempt is left and the key is set. */
  lemma PromptedIffAttemptLeft(maxAttempts: int, a: Answers)
    ensures var end := NodeRun(Coder, maxAttempts, a);
            Prompted in end.calls <==>
            (exists c :: c in end.calls && c.Patching?) && end.attempts < maxAttempts && a.apiKey
  {
    hide AfterApproval;
    if a.draft.Some? && a.review.Some? {
      if a.review.value.Approve? {
        PromptedAfterApproval(a.draft.value, 1, maxAttempts, a,
                              [Coded(None, a.draft)] + [Judged(a.draft.value, a.review)]);
      } else if a.redraft.Some? && a.rereview == Some(Approve) {
        PromptedAfterApproval(a.redraft.value, 2, maxAttempts, a,
                              [Coded(None, a.draft)] + [Judged(a.draft.value, a.review)]
                              + [Coded(Some(a.review.value.reasons), a.redraft)]
                              + [Judged(a.redraft.value, a.rereview)]);
      }
    }
  }

  lemma PromptedAfterApproval(diff: Diff, attempts: nat, maxAttempts: int, a: Answers, calls: seq<Call>)
    requires forall c :: c in calls ==> !c.Prompted? && !c.Patching?
    ensures var end := AfterApproval(diff, attempts, maxAttempts, a, calls);
            Prompted in end.calls <==>
            (exists c :: c in end.calls && c.Patching?) && end.attempts < maxAttempts && a.apiKey
  {
    var end := AfterApproval(diff, attempts, maxAttempts, a, calls);
    if a.tests.Some? && !a.tests.value.passed {
      var patch := PatcherAnswer(attempts + 1, maxAttempts, a);
      assert Patching(diff, patch) in end.calls;
      assert PatcherCall(attempts + 1, maxAttempts, a) in end.calls;
    }
  }

  /** The tests passed on the diff the node keeps. */
  ghost predicate KeepsTested(maxAttempts: int, a: Answers) {
    var end := NodeRun(Coder, maxAttempts, a);
    end.status == Passed ==> end.outputs.Some? && end.outputs.value in Summarize(end.calls).testedOk
  }

  const SOME_DIFF := [FileDiff("f", "a", "b")]
  const SOME_PATCH := [FileDiff("f", "b", "c")]

  /** Approved at once, failing its tests, and patched with the critic's approval. */
  const PATCHED := Answers(Some(SOME_DIFF), Some(Approve), None, None, Some(Tests(false, [])), Some(SOME_PATCH),
                           Some(Approve), true, true, true)

  /** Every node that passes has passed its tests as it stands exactly when
      `max_attempts` is at most 2; from 3 on a patch that was never tested may stay. */
  lemma TestedIffTwoAttempts(maxAttempts: int)
    ensures (forall a :: KeepsTested(maxAttempts, a)) <==> maxAttempts <= 2
  {
    if maxAttempts <= 2 {
      forall a: Answers
        ensures KeepsTested(maxAttempts, a)
      {
        CoderNode(maxAttempts, a);
        PatcherRefuses(maxAttempts, a);
      }
    } else {
      var calls := [Coded(None, Some(SOME_DIFF))] + [Judged(SOME_DIFF, Some(Approve))]
                   + [Tested(SOME_DIFF, PATCHED.tests)]
                   + [Prompted] + [Patching(SOME_DIFF, Some(SOME_PATCH))] + [Judged(SOME_PATCH, Some(Approve))]
                   + [Traced(true)];
      assert NodeRun(Coder, maxAttempts, PATCHED).calls == calls;
      NeverTestedOk(calls);
      assert !KeepsTested(maxAttempts, PATCHED);
    }
  }

  lemma {:induction false} NeverTestedOk(calls: seq<Call>)
    requires forall c :: c in calls && c.Tested? ==> c.tests.Some? && !c.tests.value.passed
    ensures Summarize(calls).testedOk == {}
  {
    if calls != [] {
      NeverTestedOk(calls[..|calls| - 1]);
    }
  }

  /** With two attempts or fewer no patch is ever taken. */
  lemma PatcherRefuses(maxAttempts: int, a: Answers)
    requires maxAttempts <= 2
    ensures var end := NodeRun(Coder, maxAttempts, a);
            end.status == Passed ==> Summarize(end.calls).patcherCalls == 0
  {
    hide Summarize;
    var end := NodeRun(Coder, maxAttempts, a);
    if end.status == Passed {
      forall c | c in end.calls
        ensures !c.Patching?
      {
      }
      NoPatching(end.calls);
    }
  }

  lemma {:induction false} NoPatching(calls: seq<Call>)
    requires forall c :: c in calls ==> !c.Patching?
    ensures Summarize(calls).patcherCalls == 0
  {
    if calls != [] {
      NoPatching(calls[..|calls| - 1]);
    }
  }
}
