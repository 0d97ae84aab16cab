/**
  The connection health monitor (src-tauri/src/db/health_monitor.rs). What a ping
  and a reconnect answer is input; the events emitted and the reconnects tried are
  kept in a log.
*/
module HealthMonitor {

  const MAX_RECONNECT_ATTEMPTS := 3

  /** One ping: whether it succeeded in time, whether the manager still has the
      connection's configuration, and what connecting again would answer. */
  datatype Probe = Probe(id: string, alive: bool, configured: bool, reconnects: bool)

  datatype Entry = Dropped(id: string) | Tried(id: string) | Restored(id: string)

  function Count(counts: map<string, nat>, id: string): nat {
    if id in counts then counts[id] else 0
  }

  // ----- what one ping means for its connection -----

  function NextCount(n: nat, p: Probe): nat {
    if p.alive then 0
    else if n < MAX_RECONNECT_ATTEMPTS && p.configured && p.reconnects then 0
    else n + 1
  }

  function Logged(n: nat, p: Probe): seq<Entry> {
    if p.alive then
      if n > 0 then [Restored(p.id)] else []
    else
      var dropped := if n == 0 then [Dropped(p.id)] else [];
      var tried := if n < MAX_RECONNECT_ATTEMPTS && p.configured then [Tried(p.id)] else [];
      var restored := if n < MAX_RECONNECT_ATTEMPTS && p.configured && p.reconnects then [Restored(p.id)] else [];
      dropped + tried + restored
  }

  /** The failure count of one connection after a run. */
  function CountAfter(probes: seq<Probe>, id: string): nat {
    if probes == [] then 0
    else
      var before, p := CountAfter(probes[..|probes| - 1], id), probes[|probes| - 1];
      if p.id == id then NextCount(before, p) else before
  }

  /** The log of a run, over all connections. */
  function LogAfter(probes: seq<Probe>): seq<Entry> {
    if probes == [] then []
    else
      var init, p := probes[..|probes| - 1], probes[|probes| - 1];
      LogAfter(init) + Logged(CountAfter(init, p.id), p)
  }

  // ----- the monitor -----

  ghost predicate Counts(counts: map<string, nat>, probes: seq<Probe>) {
    forall id :: Count(counts, id) == CountAfter(probes, id)
  }

  lemma CountsStep(counts: map<string, nat>, probes: seq<Probe>, p: Probe)
    requires Counts(counts, probes)
    ensures Count(counts, p.id) == CountAfter(probes, p.id)
    ensures Counts(counts[p.id := NextCount(Count(counts, p.id), p)], probes + [p])
  {
    hide NextCount;
    OneMoreProbe(probes, p);
  }

  class Monitor {
    var failureCounts: map<string, nat>
    var log: seq<Entry>
    ghost var probes: seq<Probe>

    ghost predicate Valid()
      reads this
    {
      Counts(failureCounts, probes) && log == LogAfter(probes)
    }

    constructor ()
      ensures Valid() && probes == []
    {
      failureCounts, log, probes := map[], [], [];
    }

    /** One connection's turn in the loop. */
    method Visit(p: Probe)
      requires Valid()
      modifies this
      ensures Valid() && probes == old(probes) + [p]
    {
      hide LogAfter, Counts, CountAfter;
      CountsStep(failureCounts, probes, p);
      OneMoreProbe(probes, p);
      var n := Count(failureCounts, p.id);
      var entries: seq<Entry> := [];
      if p.alive {
        if p.id in failureCounts {
          if failureCounts[p.id] > 0 {
            failureCounts := failureCounts[p.id := 0];
            entries := entries + [Restored(p.id)];
          }
        }
        if p.id !in failureCounts {
          failureCounts := failureCounts[p.id := 0];
        }
      } else {
        var count := n + 1;
        failureCounts := failureCounts[p.id := count];
        if count == 1 {
          entries := entries + [Dropped(p.id)];
        }
        if count <= MAX_RECONNECT_ATTEMPTS {
          if p.configured {
            entries := entries + [Tried(p.id)];
            if p.reconnects {
              failureCounts := failureCounts[p.id := 0];
              entries := entries + [Restored(p.id)];
            }
          }
        }
      }
      assert entries == Logged(n, p);
      assert failureCounts == old(failureCounts)[p.id := NextCount(n, p)];
      log := log + entries;
      probes := probes + [p];
    }

    /** One tick of the interval: every active connection in turn. */
    method Tick(pings: seq<Probe>)
      requires Valid()
      modifies this
      ensures Valid() && probes == old(probes) + pings
    {
      hide Counts, LogAfter;
      for i := 0 to |pings|
        invariant Valid() && probes == old(probes) + pings[..i]
      {
        Visit(pings[i]);
      }
      assert pings[..|pings|] == pings;
    }
  }

  lemma OneMoreProbe(probes: seq<Probe>, p: Probe)
    ensures LogAfter(probes + [p]) == LogAfter(probes) + Logged(CountAfter(probes, p.id), p)
    ensures forall id :: CountAfter(probes + [p], id)
                      == if p.id == id then NextCount(CountAfter(probes, id), p) else CountAfter(probes, id)
  {
    assert (probes + [p])[..|probes|] == probes;
  }

  // ----- what the log must look like -----

  /** A connection as its events tell it: up, or down with so many reconnects
      tried; `Broken` if the events do not alternate or a fourth is tried. */
  datatype Phase = Up | Down(attempts: nat) | Broken

  function Advance(phase: Phase, e: Entry): Phase {
    match e
    case Dropped(_) => if phase == Up then Down(0) else Broken
    case Tried(_) =>
      if phase.Down? && phase.attempts < MAX_RECONNECT_ATTEMPTS then Down(phase.attempts + 1) else Broken
    case Restored(_) => if phase.Down? then Up else Broken
  }

  function PhaseOf(log: seq<Entry>, id: string): Phase {
    if log == [] then Up
    else
      var before, e := PhaseOf(log[..|log| - 1], id), log[|log| - 1];
      if e.id == id then Advance(before, e) else before
  }

  ghost predicate Agrees(phase: Phase, n: nat) {
    match phase
    case Up => n == 0
    case Down(attempts) => n > 0 && attempts <= n
    case Broken => false
  }

  lemma PhasePushed(log: seq<Entry>, e: Entry, id: string)
    ensures PhaseOf(log + [e], id) == if e.id == id then Advance(PhaseOf(log, id), e) else PhaseOf(log, id)
  {
    assert (log + [e])[..|log|] == log;
  }

  lemma {:induction false} PhaseElsewhere(log: seq<Entry>, more: seq<Entry>, id: string)
    requires forall i :: 0 <= i < |more| ==> more[i].id != id
    ensures PhaseOf(log + more, id) == PhaseOf(log, id)
  {
    if more == [] {
      assert log + more == log;
    } else {
      PhaseElsewhere(log, more[..|more| - 1], id);
      assert log + more == (log + more[..|more| - 1]) + [more[|more| - 1]];
      PhasePushed(log + more[..|more| - 1], more[|more| - 1], id);
    }
  }

  lemma ProbeAdvances(log: seq<Entry>, n: nat, p: Probe)
    requires Agrees(PhaseOf(log, p.id), n)
    ensures Agrees(PhaseOf(log + Logged(n, p), p.id), NextCount(n, p))
  {
    hide PhaseOf;
    var d, t, r := Dropped(p.id), Tried(p.id), Restored(p.id);
    if p.alive {
      if n > 0 {
        PhasePushed(log, r, p.id);
      } else {
        assert log + [] == log;
      }
    } else {
      var log1 := if n == 0 then log + [d] else log;
      PhasePushed(log, d, p.id);
      if n < MAX_RECONNECT_ATTEMPTS && p.configured {
        PhasePushed(log1, t, p.id);
        PhasePushed(log1 + [t], r, p.id);
        assert log + Logged(n, p) == if p.reconnects then (log1 + [t]) + [r] else log1 + [t];
      } else {
        assert log + Logged(n, p) == log1;
      }
    }
  }

  /** For every run and every connection: the events fit the pattern, and the
      failure count is positive exactly while the connection is down. */
  lemma {:induction false} EveryRun(probes: seq<Probe>, id: string)
    ensures Agrees(PhaseOf(LogAfter(probes), id), CountAfter(probes, id))
  {
    hide PhaseOf, Logged, NextCount;
    if probes == [] {
      NothingYet(id);
    } else {
      var init, p := probes[..|probes| - 1], probes[|probes| - 1];
      EveryRun(init, id);
      var n := CountAfter(init, p.id);
      if p.id == id {
        ProbeAdvances(LogAfter(init), n, p);
      } else {
        LoggedFor(n, p);
        PhaseElsewhere(LogAfter(init), Logged(n, p), id);
      }
    }
  }

  lemma NothingYet(id: string)
    ensures PhaseOf([], id) == Up
  {
  }

  lemma LoggedFor(n: nat, p: Probe)
    ensures forall i :: 0 <= i < |Logged(n, p)| ==> Logged(n, p)[i].id == p.id
  {
  }

  // ----- the same, said of the events -----

  /** The dropped and restored events of one connection, in order. */
  function Events(log: seq<Entry>, id: string): seq<Entry> {
    if log == [] then []
    else
      var before, e := Events(log[..|log| - 1], id), log[|log| - 1];
      if e.id == id && !e.Tried? then before + [e] else before
  }

  /** Reconnects tried for the connection since it was last dropped. */
  function AttemptsSinceDropped(log: seq<Entry>, id: string): nat {
    if log == [] then 0
    else
      var before, e := AttemptsSinceDropped(log[..|log| - 1], id), log[|log| - 1];
      if e == Dropped(id) then 0 else if e == Tried(id) then before + 1 else before
  }

  ghost predicate Alternates(events: seq<Entry>, id: string) {
    forall i :: 0 <= i < |events| ==> events[i] == if i % 2 == 0 then Dropped(id) else Restored(id)
  }

  lemma {:induction false} PhaseMeans(log: seq<Entry>, id: string)
    requires PhaseOf(log, id) != Broken
    ensures Alternates(Events(log, id), id)
    ensures PhaseOf(log, id).Down? <==> |Events(log, id)| % 2 == 1
    ensures AttemptsSinceDropped(log, id) <= MAX_RECONNECT_ATTEMPTS
    ensures PhaseOf(log, id).Down? ==> AttemptsSinceDropped(log, id) == PhaseOf(log, id).attempts
  {
    if log != [] {
      PhaseMeans(log[..|log| - 1], id);
    }
  }

  lemma {:induction false} PrefixNotBroken(log: seq<Entry>, k: nat, id: string)
    requires PhaseOf(log, id) != Broken && k <= |log|
    ensures PhaseOf(log[..k], id) != Broken
  {
    if k < |log| {
      PrefixNotBroken(log[..|log| - 1], k, id);
      assert log[..|log| - 1][..k] == log[..k];
    } else {
      assert log[..k] == log;
    }
  }

  /** At every point of every run: dropped and restored strictly alternate,
      starting with dropped, and no outage sees more than three reconnects; after
      the run the failure count is positive exactly when the last event is dropped. */
  lemma DroppedAndRestoredAlternate(probes: seq<Probe>, id: string, k: nat)
    requires k <= |LogAfter(probes)|
    ensures Alternates(Events(LogAfter(probes)[..k], id), id)
    ensures AttemptsSinceDropped(LogAfter(probes)[..k], id) <= 3
    ensures var events := Events(LogAfter(probes), id);
            CountAfter(probes, id) > 0 <==> events != [] && events[|events| - 1] == Dropped(id)
  {
    hide LogAfter, CountAfter, PhaseOf, Events, AttemptsSinceDropped;
    var log := LogAfter(probes);
    EveryRun(probes, id);
    PrefixNotBroken(log, k, id);
    PhaseMeans(log[..k], id);
    PhaseMeans(log, id);
  }

  // ----- connections do not disturb one another -----

  function ProbesOf(probes: seq<Probe>, id: string): seq<Probe> {
    if probes == [] then []
    else
      var before, p := ProbesOf(probes[..|probes| - 1], id), probes[|probes| - 1];
      if p.id == id then before + [p] else before
  }

  function EntriesOf(log: seq<Entry>, id: string): seq<Entry> {
    if log == [] then []
    else
      var before, e := EntriesOf(log[..|log| - 1], id), log[|log| - 1];
      if e.id == id then before + [e] else before
  }

  lemma {:induction false} EntriesAppend(log: seq<Entry>, more: seq<Entry>, id: string, own: bool)
    requires forall i :: 0 <= i < |more| ==> (more[i].id == id) == own
    ensures EntriesOf(log + more, id) == EntriesOf(log, id) + (if own then more else [])
  {
    if more == [] {
      assert log + more == log;
    } else {
      var init, e := more[..|more| - 1], more[|more| - 1];
      EntriesAppend(log, init, id, own);
      assert (log + more)[..|log + more| - 1] == log + init;
      assert more == init + [e];
    }
  }

  /** Counts are zeroed and events emitted for a connection as if it were the only one. */
  lemma {:induction false} Independent(probes: seq<Probe>, id: string)
    ensures EntriesOf(LogAfter(probes), id) == LogAfter(ProbesOf(probes, id))
    ensures CountAfter(probes, id) == CountAfter(ProbesOf(probes, id), id)
  {
    hide Logged, NextCount, EntriesOf;
    if probes == [] {
      assert EntriesOf([], id) == [] by {
        NoEntries(id);
      }
    } else {
      var init, p := probes[..|probes| - 1], probes[|probes| - 1];
      Independent(init, id);
      var n := CountAfter(init, p.id);
      LoggedFor(n, p);
      EntriesAppend(LogAfter(init), Logged(n, p), id, p.id == id);
      if p.id == id {
        OneMoreProbe(ProbesOf(init, id), p);
      }
    }
  }

  lemma NoEntries(id: string)
    ensures EntriesOf([], id) == []
  {
  }

  // ----- what is logged and counted, told from the pings -----

  /** One more ping logs a drop exactly when it is the first to fail, a reconnect exactly
      when it is among the first three and the configuration is there, and a recovery
      exactly when the connection is back; each at most once. */
  lemma PingTells(probes: seq<Probe>, p: Probe)
    ensures LogAfter(probes) <= LogAfter(probes + [p])
    ensures var n, more := CountAfter(probes, p.id), LogAfter(probes + [p])[|LogAfter(probes)|..];
            && (Dropped(p.id) in more <==> !p.alive && n == 0)
            && (Tried(p.id) in more <==> !p.alive && n < 3 && p.configured)
            && (Restored(p.id) in more <==> if p.alive then n > 0 else n < 3 && p.configured && p.reconnects)
            && (forall e :: e in more ==> e.id == p.id)
            && (forall i, j :: 0 <= i < j < |more| ==> more[i] != more[j])
  {
    hide LogAfter, CountAfter;
    OneMoreProbe(probes, p);
    assert LogAfter(probes + [p])[|LogAfter(probes)|..] == Logged(CountAfter(probes, p.id), p);
  }

  /** The ping `k` after an outage began brings the connection back. */
  predicate Recovers(p: Probe, k: nat) {
    p.alive || (k < 3 && p.configured && p.reconnects)
  }

  /** The failure count is the length of the outage: so many pings at the end failed
      without recovery, and the one before them, if any, ended an outage or succeeded. */
  lemma {:induction false} CountIsOutage(pings: seq<Probe>, id: string)
    requires forall i :: 0 <= i < |pings| ==> pings[i].id == id
    ensures CountAfter(pings, id) <= |pings|
    ensures var start := |pings| - CountAfter(pings, id);
            && (forall i :: start <= i < |pings| ==> !Recovers(pings[i], i - start))
            && (start > 0 ==> Recovers(pings[start - 1], CountAfter(pings[..start - 1], id)))
  {
    if pings != [] {
      var init := pings[..|pings| - 1];
      CountIsOutage(init, id);
      var start := |init| - CountAfter(init, id);
      if !Recovers(pings[|pings| - 1], CountAfter(init, id)) && start > 0 {
        assert init[..start - 1] == pings[..start - 1];
      }
    }
  }

  function Tries(id: string, n: nat): seq<Entry> {
    seq(n, i => Tried(id))
  }

  ghost predicate StaysDown(outage: seq<Probe>, id: string) {
    forall i :: 0 <= i < |outage| ==>
      outage[i].id == id && !outage[i].alive && outage[i].configured && !outage[i].reconnects
  }

  /** An outage of a connection that was up, in which connecting again keeps failing, logs
      one drop and one try for each of the first three pings. */
  lemma {:induction false} OutageTriesThree(probes: seq<Probe>, outage: seq<Probe>, id: string)
    requires CountAfter(probes, id) == 0 && outage != [] && StaysDown(outage, id)
    ensures CountAfter(probes + outage, id) == |outage|
    ensures LogAfter(probes + outage)
         == LogAfter(probes) + [Dropped(id)] + Tries(id, if |outage| < 3 then |outage| else 3)
  {
    hide LogAfter, CountAfter;
    var init, p := outage[..|outage| - 1], outage[|outage| - 1];
    assert probes + outage == (probes + init) + [p];
    OneMoreProbe(probes + init, p);
    if init == [] {
      assert probes + init == probes;
      OneTry(LogAfter(probes), id);
    } else {
      OutageTriesThree(probes, init, id);
      OneTryMore(LogAfter(probes) + [Dropped(id)], id, if |init| < 3 then |init| else 3);
    }
  }

  lemma OneTry(log: seq<Entry>, id: string)
    ensures log + ([Dropped(id)] + [Tried(id)] + []) == log + [Dropped(id)] + Tries(id, 1)
  {
  }

  lemma OneTryMore(log: seq<Entry>, id: string, n: nat)
    ensures log + Tries(id, n) + ([] + [Tried(id)] + []) == log + Tries(id, n + 1)
    ensures log + Tries(id, n) + ([] + [] + []) == log + Tries(id, n)
  {
  }
}
