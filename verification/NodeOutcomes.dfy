/**
  What one coder's node of the agent loop comes to (src/agents/orchestrator.ts),
  told from the answers alone: which calls are made and which are not, when the
  node passes, and what the halt report says.
*/
module NodeOutcomes {
  import opened Wrappers
  import opened Orchestrator

  predicate Rejected(verdict: Option<Verdict>) {
    verdict.Some? && verdict.value.RequestChanges?
  }

  /** A draft came, and the critic asked for changes. */
  predicate SecondTry(a: Answers) {
    a.draft.Some? && Rejected(a.review)
  }

  /** The diff the critic approved, at the first or the second review. */
  predicate Approved(a: Answers, diff: Diff) {
    || (a.draft == Some(diff) && a.review == Some(Approve))
    || (SecondTry(a) && a.redraft == Some(diff) && a.rereview == Some(Approve))
  }

  predicate AnyApproved(a: Answers) {
    || (a.draft.Some? && Approved(a, a.draft.value))
    || (a.redraft.Some? && Approved(a, a.redraft.value))
  }

  /** An approved diff failed its tests. */
  predicate TestsFailed(a: Answers) {
    AnyApproved(a) && a.tests.Some? && !a.tests.value.passed
  }

  /** How many drafts were written before the tests. */
  function Drafts(a: Answers): nat {
    if a.draft.None? then 0 else if SecondTry(a) && a.redraft.Some? then 2 else 1
  }

  /** The patcher answers failing tests with a patch: an attempt is left when its
      own is counted, the key is set, and the model's patch is not empty. */
  predicate PatchComes(maxAttempts: int, a: Answers) {
    TestsFailed(a) && Drafts(a) + 1 < maxAttempts && a.apiKey && a.patch.Some? && a.patch.value != []
  }

  // ----- the calls, phase by phase -----

  function ReviewOf(draft: Option<Diff>, verdict: Option<Verdict>): seq<Call> {
    if draft.Some? then [Judged(draft.value, verdict)] else []
  }

  function Drafting(a: Answers): seq<Call> {
    [Coded(None, a.draft)] + ReviewOf(a.draft, a.review)
  }

  function Redrafting(a: Answers): seq<Call> {
    if SecondTry(a) then [Coded(Some(a.review.value.reasons), a.redraft)] + ReviewOf(a.redraft, a.rereview) else []
  }

  function ApprovedDiff(a: Answers): Diff
    requires AnyApproved(a)
  {
    if a.draft.Some? && Approved(a, a.draft.value) then a.draft.value else a.redraft.value
  }

  function Testing(a: Answers): seq<Call> {
    if AnyApproved(a) then [Tested(ApprovedDiff(a), a.tests)] else []
  }

  function PatchTried(maxAttempts: int, a: Answers): seq<Call> {
    if !TestsFailed(a) then []
    else
      var patch := if PatchComes(maxAttempts, a) then a.patch else None;
      [if Drafts(a) + 1 >= maxAttempts then Reported(a.report) else if a.apiKey then Prompted else Unkeyed]
      + [Patching(ApprovedDiff(a), patch)] + ReviewOf(patch, a.patchReview)
  }

  /** The halt report, or the trace, is written last. */
  function Writing(maxAttempts: int, a: Answers): seq<Call> {
    if (SecondTry(a) && a.redraft.Some? && Rejected(a.rereview))
       || (PatchComes(maxAttempts, a) && Rejected(a.patchReview))
    then [Reported(a.report)]
    else if AnyApproved(a) && a.tests.Some?
            && (a.tests.value.passed || (PatchComes(maxAttempts, a) && a.patchReview == Some(Approve)))
    then [Traced(a.trace)]
    else []
  }

  lemma ApprovalCalls(diff: Diff, maxAttempts: int, a: Answers, calls: seq<Call>)
    requires AnyApproved(a) && ApprovedDiff(a) == diff
    ensures AfterApproval(diff, Drafts(a), maxAttempts, a, calls).calls ==
            calls + Testing(a) + PatchTried(maxAttempts, a) + Writing(maxAttempts, a)
  {
    hide AfterPatching, Drafts, AnyApproved, Approved, ApprovedDiff;
    NotBothRejected(a);
    var calls1 := calls + Testing(a);
    assert calls1 + [] == calls1;
    if TestsFailed(a) {
      PatchCalls(diff, maxAttempts, a, calls1);
    }
  }

  lemma NotBothRejected(a: Answers)
    requires AnyApproved(a)
    ensures !(SecondTry(a) && a.redraft.Some? && Rejected(a.rereview))
  {
  }

  lemma PatchCalls(diff: Diff, maxAttempts: int, a: Answers, calls: seq<Call>)
    requires AnyApproved(a) && ApprovedDiff(a) == diff && TestsFailed(a)
    ensures var patch := PatcherAnswer(Drafts(a) + 1, maxAttempts, a);
            var before := calls + [PatcherCall(Drafts(a) + 1, maxAttempts, a)] + [Patching(diff, patch)];
            AfterPatching(patch, Drafts(a) + 1, a, before).calls ==
            calls + PatchTried(maxAttempts, a) + Writing(maxAttempts, a)
  {
    hide Drafts, AnyApproved, Approved, ApprovedDiff;
    NotBothRejected(a);
    assert PatcherAnswer(Drafts(a) + 1, maxAttempts, a) == if PatchComes(maxAttempts, a) then a.patch else None;
    var patch := PatcherAnswer(Drafts(a) + 1, maxAttempts, a);
    var first, second := [PatcherCall(Drafts(a) + 1, maxAttempts, a)], [Patching(diff, patch)];
    Regroup(calls, first, second, ReviewOf(patch, a.patchReview), Writing(maxAttempts, a));
  }

  lemma Regroup(a: seq<Call>, b: seq<Call>, c: seq<Call>, d: seq<Call>, e: seq<Call>)
    ensures a + (b + c + d) + e == ((a + b + c) + d) + e
    ensures (a + b + c) + [] == a + b + c && ((a + b + c) + d) + [] == (a + b + c) + d
  {
  }

  /** The phases in order, and nothing else. */
  lemma CallsInOrder(maxAttempts: int, a: Answers)
    ensures NodeRun(Coder, maxAttempts, a).calls ==
            Drafting(a) + Redrafting(a) + Testing(a) + PatchTried(maxAttempts, a) + Writing(maxAttempts, a)
  {
    hide AfterApproval, Testing, PatchTried, Writing;
    Padding(Drafting(a), Redrafting(a));
    if a.draft == None || a.review == None {
      NothingAfter(maxAttempts, a);
    } else if a.review == Some(Approve) {
      ApprovalCalls(a.draft.value, maxAttempts, a, Drafting(a));
    } else {
      SecondTryCalls(maxAttempts, a);
    }
  }

  lemma SecondTryCalls(maxAttempts: int, a: Answers)
    requires SecondTry(a)
    ensures AfterRejection(a.review.value.reasons, maxAttempts, a, Drafting(a)).calls ==
            Drafting(a) + Redrafting(a) + Testing(a) + PatchTried(maxAttempts, a) + Writing(maxAttempts, a)
  {
    hide AfterApproval, Testing, PatchTried, Drafting;
    var calls := Drafting(a) + Redrafting(a);
    var retry := [Coded(Some(a.review.value.reasons), a.redraft)];
    Regrouped(Drafting(a), retry, ReviewOf(a.redraft, a.rereview));
    if a.redraft.Some? && a.rereview == Some(Approve) {
      ApprovalCalls(a.redraft.value, maxAttempts, a, calls);
    } else {
      NothingAfter(maxAttempts, a);
      Padding(calls, []);
      hide Writing;
    }
  }

  lemma Regrouped(a: seq<Call>, b: seq<Call>, c: seq<Call>)
    ensures a + (b + c) == (a + b) + c && (a + b) + [] == a + b
  {
  }

  lemma Padding(a: seq<Call>, b: seq<Call>)
    ensures a + [] == a && a + b + [] == a + b && a + b + [] + [] == a + b
  {
  }

  lemma NothingAfter(maxAttempts: int, a: Answers)
    requires !AnyApproved(a)
    ensures Testing(a) == [] && PatchTried(maxAttempts, a) == []
    ensures Writing(maxAttempts, a) ==
            if SecondTry(a) && a.redraft.Some? && Rejected(a.rereview) then [Reported(a.report)] else []
  {
  }

  lemma InParts<T>(a: seq<T>, b: seq<T>, c: seq<T>, d: seq<T>, e: seq<T>, x: T)
    ensures x in a + b + c + d + e <==> x in a || x in b || x in c || x in d || x in e
  {
  }

  lemma CallInPhase(maxAttempts: int, a: Answers, c: Call)
    ensures c in NodeRun(Coder, maxAttempts, a).calls <==>
            || c in Drafting(a) || c in Redrafting(a) || c in Testing(a) || c in PatchTried(maxAttempts, a)
            || c in Writing(maxAttempts, a)
  {
    hide NodeRun, Drafting, Redrafting, Testing, PatchTried, Writing;
    CallsInOrder(maxAttempts, a);
    InParts(Drafting(a), Redrafting(a), Testing(a), PatchTried(maxAttempts, a), Writing(maxAttempts, a), c);
  }

  lemma DraftingHas(a: Answers, c: Call)
    ensures c in Drafting(a) <==> c == Coded(None, a.draft) || (a.draft.Some? && c == Judged(a.draft.value, a.review))
    ensures c in Redrafting(a) <==>
            && SecondTry(a)
            && (c == Coded(Some(a.review.value.reasons), a.redraft)
                || (a.redraft.Some? && c == Judged(a.redraft.value, a.rereview)))
  {
  }

  lemma PatchingHas(maxAttempts: int, a: Answers, c: Call)
    ensures c in Testing(a) <==> AnyApproved(a) && c == Tested(ApprovedDiff(a), a.tests)
    ensures c in Writing(maxAttempts, a) ==> c.Reported? || c.Traced?
    ensures c in PatchTried(maxAttempts, a) && !c.Reported? && !c.Prompted? && !c.Unkeyed? <==>
            && TestsFailed(a)
            && (c == Patching(ApprovedDiff(a), if PatchComes(maxAttempts, a) then a.patch else None)
                || (PatchComes(maxAttempts, a) && c == Judged(a.patch.value, a.patchReview)))
  {
    hide AnyApproved, ApprovedDiff, Drafts;
  }

  /** The coder is called once, and a second time exactly when its draft came and was
      sent back, with the critic's reasons. */
  lemma CoderIsCalled(maxAttempts: int, a: Answers)
    ensures var calls := NodeRun(Coder, maxAttempts, a).calls;
            && (forall draft :: Coded(None, draft) in calls <==> draft == a.draft)
            && (forall reasons, draft :: Coded(Some(reasons), draft) in calls <==>
                  SecondTry(a) && reasons == a.review.value.reasons && draft == a.redraft)
  {
    hide NodeRun, Drafting, Redrafting, Testing, PatchTried, Writing, PatchComes;
    forall feedback, draft
      ensures Coded(feedback, draft) in NodeRun(Coder, maxAttempts, a).calls <==>
              || (feedback == None && draft == a.draft)
              || (SecondTry(a) && feedback == Some(a.review.value.reasons) && draft == a.redraft)
    {
      CallInPhase(maxAttempts, a, Coded(feedback, draft));
      DraftingHas(a, Coded(feedback, draft));
      PatchingHas(maxAttempts, a, Coded(feedback, draft));
    }
  }

  /** The critic judges each draft that came, and the patch. */
  lemma CriticIsCalled(maxAttempts: int, a: Answers)
    ensures forall diff, verdict ::
              Judged(diff, verdict) in NodeRun(Coder, maxAttempts, a).calls <==>
              || (a.draft == Some(diff) && verdict == a.review)
              || (SecondTry(a) && a.redraft == Some(diff) && verdict == a.rereview)
              || (PatchComes(maxAttempts, a) && a.patch == Some(diff) && verdict == a.patchReview)
  {
    hide NodeRun, Drafting, Redrafting, Testing, PatchTried, Writing;
    forall diff, verdict
      ensures Judged(diff, verdict) in NodeRun(Coder, maxAttempts, a).calls <==>
              || (a.draft == Some(diff) && verdict == a.review)
              || (SecondTry(a) && a.redraft == Some(diff) && verdict == a.rereview)
              || (PatchComes(maxAttempts, a) && a.patch == Some(diff) && verdict == a.patchReview)
    {
      CallInPhase(maxAttempts, a, Judged(diff, verdict));
      DraftingHas(a, Judged(diff, verdict));
      PatchingHas(maxAttempts, a, Judged(diff, verdict));
    }
  }

  /** Exactly the approved diff is tested, and exactly when that fails the patcher is
      called with it. */
  lemma TesterAndPatcherAreCalled(maxAttempts: int, a: Answers)
    ensures var calls := NodeRun(Coder, maxAttempts, a).calls;
            && (forall diff, tests :: Tested(diff, tests) in calls <==> Approved(a, diff) && tests == a.tests)
            && (forall diff, patch :: Patching(diff, patch) in calls <==>
                  && Approved(a, diff) && TestsFailed(a)
                  && patch == if PatchComes(maxAttempts, a) then a.patch else None)
  {
    OneApproved(a);
    hide NodeRun, Drafting, Redrafting, Testing, PatchTried, Writing, PatchComes, Approved, ApprovedDiff, AnyApproved;
    forall diff, tests
      ensures Tested(diff, tests) in NodeRun(Coder, maxAttempts, a).calls <==> Approved(a, diff) && tests == a.tests
    {
      CallInPhase(maxAttempts, a, Tested(diff, tests));
      DraftingHas(a, Tested(diff, tests));
      PatchingHas(maxAttempts, a, Tested(diff, tests));
    }
    forall diff, patch
      ensures Patching(diff, patch) in NodeRun(Coder, maxAttempts, a).calls <==>
              && Approved(a, diff) && TestsFailed(a)
              && patch == if PatchComes(maxAttempts, a) then a.patch else None
    {
      CallInPhase(maxAttempts, a, Patching(diff, patch));
      DraftingHas(a, Patching(diff, patch));
      PatchingHas(maxAttempts, a, Patching(diff, patch));
    }
  }

  lemma OneApproved(a: Answers)
    ensures forall diff :: Approved(a, diff) <==> AnyApproved(a) && diff == ApprovedDiff(a)
  {
  }

  lemma ApprovalPasses(diff: Diff, maxAttempts: int, a: Answers, calls: seq<Call>)
    requires AnyApproved(a) && ApprovedDiff(a) == diff
    ensures var end := AfterApproval(diff, Drafts(a), maxAttempts, a, calls);
            && (end.status == Passed <==>
                  && a.tests.Some?
                  && (a.tests.value.passed || (PatchComes(maxAttempts, a) && a.patchReview == Some(Approve))))
            && (end.status == Passed ==>
                  end.outputs.Some? && end.outputs == if a.tests.value.passed then Some(diff) else a.patch)
            && (end.status != Passed ==> end.outputs == None)
            && (end.thrown <==> end.status != Passed || !a.trace)
  {
    hide AnyApproved, ApprovedDiff, Drafts;
  }

  /** The node passes if and only if a draft is approved and then passes its tests, or
      fails them and is patched with the critic's approval. It keeps that very diff. */
  lemma PassesIff(maxAttempts: int, a: Answers)
    ensures var end := NodeRun(Coder, maxAttempts, a);
            && (end.status == Passed <==>
                  && AnyApproved(a) && a.tests.Some?
                  && (a.tests.value.passed || (PatchComes(maxAttempts, a) && a.patchReview == Some(Approve))))
            && (end.status == Passed ==>
                  end.outputs.Some? && if a.tests.value.passed then Approved(a, end.outputs.value)
                                       else end.outputs == a.patch)
            && (end.status != Passed ==> end.outputs == None)
            && (end.thrown <==> end.status != Passed || !a.trace)
  {
    hide AfterApproval, PatchComes;
    if AnyApproved(a) {
      OneApproved(a);
      if a.review == Some(Approve) {
        ApprovalPasses(a.draft.value, maxAttempts, a, [Coded(None, a.draft)] + [Judged(a.draft.value, a.review)]);
      } else {
        ApprovalPasses(a.redraft.value, maxAttempts, a,
                       [Coded(None, a.draft)] + [Judged(a.draft.value, a.review)]
                       + [Coded(Some(a.review.value.reasons), a.redraft)] + [Judged(a.redraft.value, a.rereview)]);
      }
    }
  }

  /** A halt report is kept exactly when the second draft or the patch was rejected and
      the report could be written. It has the reasons of that rejection and the
      failures of the tests that were run. */
  lemma ReportSays(maxAttempts: int, a: Answers)
    ensures var end := NodeRun(Coder, maxAttempts, a);
            var redraftRejected := SecondTry(a) && a.redraft.Some? && Rejected(a.rereview);
            var patchRejected := PatchComes(maxAttempts, a) && Rejected(a.patchReview);
            && (end.status == Failed <==> (redraftRejected || patchRejected) && a.report)
            && (end.status != Failed ==> end.reports == [])
            && (end.status == Failed && redraftRejected ==>
                  end.reports == [HaltReport(end.attempts, a.rereview.value.reasons, [])])
            && (end.status == Failed && !redraftRejected ==>
                  end.reports == [HaltReport(end.attempts, a.patchReview.value.reasons, a.tests.value.failures)])
  {
  }

  /** Attempts count the drafts and the patcher's turn. */
  lemma AttemptsCount(maxAttempts: int, a: Answers)
    ensures NodeRun(Coder, maxAttempts, a).attempts == Drafts(a) + (if TestsFailed(a) then 1 else 0)
  {
  }

  /** A node of any other role is passed without a call. */
  lemma OtherRolesPass(role: Role, maxAttempts: int, a: Answers)
    requires role != Coder
    ensures var end := NodeRun(role, maxAttempts, a);
            end.status == Passed && end.calls == [] && end.outputs == None && end.reports == [] && !end.thrown
  {
  }
}
