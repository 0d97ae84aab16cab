/**
  What can always still happen in the run protocol (src-tauri/src/commands/query.rs):
  every query can come to its end by itself, and all permits can come back.
*/
module RunProgress {
  import opened Batches
  import opened Wrappers
  import opened Streamers
  import opened RunProtocol
  import opened RunGuarantees
  import Permits = QueryGuard

  // ----- every query can come to its end -----

  /** The actions of task `i` itself. */
  predicate OnlyOf<Row>(actions: seq<Action<Row>>, i: nat) {
    forall k :: 0 <= k < |actions| ==>
      actions[k] == Spawn(i) || actions[k] == Next(i) || actions[k] == Record(i) || actions[k] == Close(i)
  }

  lemma RunSnoc<Row>(sys: System<Row>, actions: seq<Action<Row>>, a: Action<Row>, size: Row -> nat,
                     columnsOf: Row -> seq<string>)
    ensures Run(sys, actions + [a], size, columnsOf) == Step(Run(sys, actions, size, columnsOf), a, size, columnsOf)
  {
    assert (actions + [a])[..|actions|] == actions;
  }

  /** How far a query is from its end. */
  function Distance<Row>(t: Task<Row>): nat {
    match t.phase
    case Looking => |t.source| + 4
    case Streaming => (if t.taken <= |t.source| then |t.source| - t.taken else 0) + 3
    case Recording(_) => 2
    case Closing(_) => 1
    case _ => 0
  }

  lemma AdvanceNearer<Row>(t: Task<Row>, cancelled: bool, size: Row -> nat, columnsOf: Row -> seq<string>)
    requires t.phase.Streaming?
    ensures var t' := Advance(t, cancelled, size, columnsOf);
            Distance(t') < Distance(t) && !t'.phase.Lost?
  {
    hide FillsNext, HeaderAfter, Push, Flush, Final;
  }

  /** Its own next action always brings it nearer. */
  lemma OwnActionProgresses<Row>(sys: System<Row>, i: nat, size: Row -> nat, columnsOf: Row -> seq<string>)
    returns (a: Action<Row>)
    requires i < |sys.tasks| && HoldsPermit(sys.tasks[i])
    ensures OnlyOf([a], i)
    ensures var sys' := Step(sys, a, size, columnsOf);
            i < |sys'.tasks| && Distance(sys'.tasks[i]) < Distance(sys.tasks[i]) && !sys'.tasks[i].phase.Lost?
  {
    hide Checks, Advance, Permits.Release;
    var t := sys.tasks[i];
    match t.phase
    case Looking => a := Spawn(i);
    case Streaming =>
      AdvanceNearer(t, Checks(t, size) && t.queryId in sys.cancelSet, size, columnsOf);
      a := Next(i);
    case Recording(_) => a := Record(i);
    case Closing(_) => a := Close(i);
  }

  /** From any state an unfinished query reaches its end by its own actions: no other
      query, cancel request or permit can hold it up. */
  lemma EveryQueryCanFinish<Row>(sys: System<Row>, i: nat, size: Row -> nat, columnsOf: Row -> seq<string>)
    returns (actions: seq<Action<Row>>)
    requires i < |sys.tasks| && HoldsPermit(sys.tasks[i])
    ensures OnlyOf(actions, i)
    ensures var later := Run(sys, actions, size, columnsOf);
            i < |later.tasks| && later.tasks[i].phase.Finished?
  {
    hide Step, Distance;
    actions := [];
    var now := sys;
    while HoldsPermit(now.tasks[i])
      invariant now == Run(sys, actions, size, columnsOf) && OnlyOf(actions, i)
      invariant i < |now.tasks| && !now.tasks[i].phase.Lost?
      decreases Distance(now.tasks[i])
    {
      var a := OwnActionProgresses(now, i, size, columnsOf);
      RunSnoc(sys, actions, a, size, columnsOf);
      assert a == [a][0];
      actions := actions + [a];
      now := Step(now, a, size, columnsOf);
    }
  }

  // ----- all permits can come back -----

  /** A task whose process is lost before it runs gives its permit back. */
  lemma LosingFrees<Row>(sys: System<Row>, i: nat, size: Row -> nat, columnsOf: Row -> seq<string>)
    requires i < |sys.tasks| && sys.tasks[i].phase.Looking?
    ensures var sys' := Step(sys, Lose(i), size, columnsOf);
            && |sys'.tasks| == |sys.tasks| && sys'.tasks[i].phase.Lost?
            && PermitsHeld(sys'.tasks) + multiset{sys.tasks[i].connection} == PermitsHeld(sys.tasks)
  {
    hide Permits.Release, Gather;
    GatherUpdate(sys.tasks, i, sys.tasks[i].(phase := Lost), t => PermitOf(t));
  }

  lemma {:induction false} RunAppend<Row>(sys: System<Row>, a: seq<Action<Row>>, b: seq<Action<Row>>,
                                          size: Row -> nat, columnsOf: Row -> seq<string>)
    ensures Run(sys, a + b, size, columnsOf) == Run(Run(sys, a, size, columnsOf), b, size, columnsOf)
  {
    hide Step;
    if b == [] {
      assert a + b == a;
    } else {
      var init, last := b[..|b| - 1], b[|b| - 1];
      RunAppend(sys, a, init, size, columnsOf);
      assert a + b == (a + init) + [last];
      RunSnoc(sys, a + init, last, size, columnsOf);
    }
  }

  lemma OwnStepElsewhere<Row>(sys: System<Row>, a: Action<Row>, i: nat, size: Row -> nat, columnsOf: Row -> seq<string>)
    requires a == Spawn(i) || a == Next(i) || a == Record(i) || a == Close(i)
    ensures var sys' := Step(sys, a, size, columnsOf);
            && sys'.holders == sys.holders && |sys'.tasks| == |sys.tasks|
            && forall j :: 0 <= j < |sys.tasks| && j != i ==> sys'.tasks[j] == sys.tasks[j]
  {
    hide Advance, Checks, Permits.Release;
  }

  /** The actions of one task change no other, nor what others hold. */
  lemma {:induction false} OthersStay<Row>(sys: System<Row>, actions: seq<Action<Row>>, i: nat, size: Row -> nat,
                                           columnsOf: Row -> seq<string>)
    requires OnlyOf(actions, i)
    ensures var later := Run(sys, actions, size, columnsOf);
            && later.holders == sys.holders && |later.tasks| == |sys.tasks|
            && forall j :: 0 <= j < |sys.tasks| && j != i ==> later.tasks[j] == sys.tasks[j]
  {
    hide Step;
    if actions != [] {
      var init, last := actions[..|actions| - 1], actions[|actions| - 1];
      OthersStay(sys, init, i, size, columnsOf);
      OwnStepElsewhere(Run(sys, init, size, columnsOf), last, i, size, columnsOf);
    }
  }

  predicate EndedUpTo<Row>(tasks: seq<Task<Row>>, k: nat) {
    forall j :: 0 <= j < k && j < |tasks| ==> !HoldsPermit(tasks[j])
  }

  /** One query after another comes to its end. */
  lemma {:induction false} AllCanFinish<Row>(sys: System<Row>, k: nat, size: Row -> nat, columnsOf: Row -> seq<string>)
    returns (actions: seq<Action<Row>>)
    requires k <= |sys.tasks|
    ensures var later := Run(sys, actions, size, columnsOf);
            later.holders == sys.holders && |later.tasks| == |sys.tasks| && EndedUpTo(later.tasks, k)
  {
    hide Run;
    if k == 0 {
      actions := [];
      NothingRun(sys, size, columnsOf);
    } else {
      actions := AllCanFinish(sys, k - 1, size, columnsOf);
      var now := Run(sys, actions, size, columnsOf);
      if HoldsPermit(now.tasks[k - 1]) {
        var more := EveryQueryCanFinish(now, k - 1, size, columnsOf);
        OthersStay(now, more, k - 1, size, columnsOf);
        RunAppend(sys, actions, more, size, columnsOf);
        actions := actions + more;
      }
    }
  }

  lemma NothingRun<Row>(sys: System<Row>, size: Row -> nat, columnsOf: Row -> seq<string>)
    ensures Run(sys, [], size, columnsOf) == sys
  {
  }

  /** One holder after another drops its permit. */
  lemma {:induction false} AllCanDrop<Row>(sys: System<Row>, size: Row -> nat, columnsOf: Row -> seq<string>)
    returns (actions: seq<Action<Row>>)
    ensures var later := Run(sys, actions, size, columnsOf);
            later.holders == multiset{} && later.tasks == sys.tasks
    decreases |sys.holders|
  {
    hide Permits.Release;
    if sys.holders == multiset{} {
      actions := [];
    } else {
      var c :| c in sys.holders;
      var next := Step(sys, HolderDrop(c), size, columnsOf);
      var more := AllCanDrop(next, size, columnsOf);
      RunSnoc(sys, [], HolderDrop(c), size, columnsOf);
      assert [] + [Action<Row>.HolderDrop(c)] == [HolderDrop(c)];
      RunAppend(sys, [HolderDrop(c)], more, size, columnsOf);
      actions := [HolderDrop(c)] + more;
    }
  }

  lemma {:induction false} NoneHeld<Row>(tasks: seq<Task<Row>>)
    requires EndedUpTo(tasks, |tasks|)
    ensures PermitsHeld(tasks) == multiset{}
  {
    if tasks != [] {
      NoneHeld(tasks[..|tasks| - 1]);
    }
  }

  /** From every reachable state all permits can come back by the actions of the queries
      and holders alone: then nothing is counted, and a permit is granted to anyone. */
  lemma AllPermitsComeBack<Row>(actions: seq<Action<Row>>, size: Row -> nat, columnsOf: Row -> seq<string>)
    returns (more: seq<Action<Row>>)
    ensures var sys := Run(Initial(), actions + more, size, columnsOf);
            && sys.guard.total == 0
            && forall c :: Permits.CountOf(sys.guard, c) == 0 && Permits.Acquire(sys.guard, c).Ok?
  {
    hide Run, EndedUpTo, PermitsHeld, Permits.CountOf;
    var now := Run(Initial(), actions, size, columnsOf);
    var finish := AllCanFinish(now, |now.tasks|, size, columnsOf);
    var ended := Run(now, finish, size, columnsOf);
    var drop := AllCanDrop(ended, size, columnsOf);
    more := finish + drop;
    RunAppend(now, finish, drop, size, columnsOf);
    RunAppend(Initial(), actions, more, size, columnsOf);
    NoneHeld(ended.tasks);
    EveryState(actions + more, size, columnsOf);
  }
}
