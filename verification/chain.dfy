// Processors with a worker thread each, and the chain that wires the enabled ones of a list one behind
// another while the worker threads run.
module Processors {
  // A stream is known by where it comes from.
  datatype Signal = Outside(id: int) | OutOf(p: Processor)

  class Processor {
    var input: Signal
    var inputs: seq<Signal>
    var running: bool
    var tempStopped: bool
    var tempStopDepth: nat
    // The worker thread exists.
    var live: bool

    // A worker exists while running and not temporarily stopped, and none inside a temporary stop.
    ghost predicate Valid()
      reads this
    {
      && live == (running && !tempStopped)
      && (tempStopped ==> running && tempStopDepth > 0)
      && (tempStopDepth > 0 ==> !live)
      && inputs == [input]
    }

    // Not inside a temporary stop.
    ghost predicate Steady()
      reads this
    {
      Valid() && tempStopDepth == 0
    }

    constructor (from: Signal)
      ensures Steady() && input == from && !running
    {
      input, inputs := from, [from];
      running, tempStopped, tempStopDepth, live := false, false, 0, false;
    }

    // Starting a second worker while one exists ends the program.
    method DoStart() returns (ok: bool)
      modifies this`live
      ensures live && ok == !old(live)
    {
      ok := !live;
      live := true;
    }

    method DoStop()
      modifies this`live
      ensures !live
    {
      live := false;
    }

    // Neither this nor stopping looks at temporary stops: inside one, a call that changes `running` leaves the
    // processor in a state it must not be in.
    method Start() returns (ok: bool)
      modifies this`running, this`live
      ensures ok <==> old(running) || !old(live)
      ensures running && live == (old(live) || !old(running))
      ensures old(Valid()) ==> ok && (Valid() <==> old(running) || tempStopDepth == 0)
    {
      if running { return true; }
      running := true;
      ok := DoStart();
    }

    method Stop()
      modifies this`running, this`live
      ensures !running && live == (old(live) && !old(running))
      ensures old(Valid()) ==> !live && (Valid() <==> !old(running) || tempStopDepth == 0)
    {
      if !running { return; }
      DoStop();
      running := false;
    }

    // Only the outermost call of nested ones stops the worker, and only the outermost end starts it again.
    method TempStop()
      modifies this`tempStopDepth, this`tempStopped, this`live
      ensures tempStopDepth == old(tempStopDepth) + 1
      ensures var stops := old(tempStopDepth) == 0 && running && !old(tempStopped);
              tempStopped == (old(tempStopped) || stops) && live == (old(live) && !stops)
      ensures old(Valid()) ==> Valid() && !live
    {
      tempStopDepth := tempStopDepth + 1;
      if tempStopDepth > 1 { return; }
      if running && !tempStopped {
        DoStop();
        tempStopped := true;
      }
    }

    // The program ends exactly if the outermost end finds a worker that the temporary stop did not leave.
    method TempStart() returns (ok: bool)
      modifies this`tempStopDepth, this`tempStopped, this`live
      ensures ok <==> !(old(tempStopDepth) == 1 && old(tempStopped) && old(live))
      ensures tempStopDepth == if old(tempStopDepth) == 0 then 0 else old(tempStopDepth) - 1
      ensures live == (old(live) || (old(tempStopDepth) == 1 && old(tempStopped)))
      ensures ok ==> tempStopped == (old(tempStopped) && old(tempStopDepth) != 1)
      ensures old(Valid()) ==> ok && Valid()
    {
      if tempStopDepth == 0 { return true; }
      tempStopDepth := tempStopDepth - 1;
      if tempStopDepth > 0 { return true; }
      ok := true;
      if tempStopped {
        ok := DoStart();
        if ok { tempStopped := false; }
      }
    }

    // The input is changed while no worker uses it, and whether one runs afterwards is as before.
    method SetInput(from: Signal)
      requires Valid()
      modifies this`input, this`inputs, this`tempStopDepth, this`tempStopped, this`live
      ensures Valid() && input == from && live == old(live) && tempStopDepth == old(tempStopDepth)
    {
      TempStop();
      assert !live;
      assert Without([input], input) == Without([], input) == [];
      inputs := Without(inputs, input);
      input := from;
      inputs := inputs + [from];
      var ok := TempStart();
      assert ok;
    }

    // Stopped inside a temporary stop, a processor has a worker again afterwards although it does not run.
    method StopInsideTemporaryStop()
      requires Steady() && running
      modifies this
      ensures !running && live && tempStopDepth == 0
    {
      TempStop();
      Stop();
      var ok := TempStart();
      assert ok;
    }

    // Started inside one, it has a worker while its inputs may be exchanged.
    method StartInsideTemporaryStop()
      requires Steady() && !running
      modifies this
      ensures running && live && tempStopDepth == 1
    {
      TempStop();
      var ok := Start();
      assert ok;
    }

    // Stopped and started inside one, it has a worker when the temporary stop ends, and the program ends.
    method RestartInsideTemporaryStop() returns (ok: bool)
      requires Steady() && running
      modifies this
      ensures !ok
    {
      TempStop();
      Stop();
      ok := Start();
      assert ok;
      ok := TempStart();
    }
  }

  function Without(inputs: seq<Signal>, s: Signal): seq<Signal> {
    if inputs == [] then []
    else (if inputs[0] == s then [] else [inputs[0]]) + Without(inputs[1..], s)
  }
}

module Chains {
  import opened Options
  import opened Processors

  type Links = seq<Processor>

  type States = map<Processor, bool>

  predicate On(states: States, p: Processor) { p in states && states[p] }

  // The signal in front of place i: the output of the last enabled processor before it, or the chain's input.
  function Before(input: Signal, links: Links, states: States, i: nat): Signal
    requires i <= |links|
  {
    if i == 0 then input
    else if On(states, links[i - 1]) then OutOf(links[i - 1])
    else Before(input, links, states, i - 1)
  }

  ghost predicate Distinct(links: Links) { forall i, j :: 0 <= i < j < |links| ==> links[i] != links[j] }

  // No processor between the two places is enabled.
  ghost predicate Idle(links: Links, states: States, from: nat, to: nat)
    requires to <= |links|
  {
    forall j :: from <= j < to ==> !On(states, links[j])
  }

  lemma {:induction false} BeforeIsLastEnabled(input: Signal, links: Links, states: States, i: nat)
    requires i <= |links|
    ensures Idle(links, states, 0, i) ==> Before(input, links, states, i) == input
    ensures forall j :: 0 <= j < i && On(states, links[j]) && Idle(links, states, j + 1, i) ==>
              Before(input, links, states, i) == OutOf(links[j])
  {
    if i > 0 { BeforeIsLastEnabled(input, links, states, i - 1); }
  }

  // Only what lies before a place counts for it.
  lemma {:induction false} SamePrefix(input: Signal, links: Links, states: States, links': Links, states': States, i: nat)
    requires i <= |links| && i <= |links'|
    requires forall j :: 0 <= j < i ==> links'[j] == links[j] && On(states', links[j]) == On(states, links[j])
    ensures Before(input, links', states', i) == Before(input, links, states, i)
  {
    if i > 0 { SamePrefix(input, links, states, links', states', i - 1); }
  }

  // A place with an enabled processor between it and a change does not see the change.
  lemma {:induction false} SameBehind(input: Signal, input': Signal, links: Links, states: States, states': States, k: nat, i: nat)
    requires k < i <= |links| && On(states, links[k])
    requires forall j :: k <= j < i ==> On(states', links[j]) == On(states, links[j])
    ensures Before(input', links, states', i) == Before(input, links, states, i)
  {
    if !On(states, links[i - 1]) { SameBehind(input, input', links, states, states', k, i - 1); }
  }

  lemma {:induction false} SkipsIdle(input: Signal, links: Links, states: States, k: nat, i: nat)
    requires k <= i <= |links| && Idle(links, states, k, i)
    ensures Before(input, links, states, i) == Before(input, links, states, k)
  {
    if k < i { SkipsIdle(input, links, states, k, i - 1); }
  }

  // Taking a disabled processor out of the list changes no signal.
  lemma {:induction false} RemovedUnseen(input: Signal, links: Links, states: States, k: nat, i: nat)
    requires k < |links| && k < i <= |links| && !On(states, links[k])
    ensures Before(input, links[..k] + links[k + 1..], states, i - 1) == Before(input, links, states, i)
  {
    var rest := links[..k] + links[k + 1..];
    if i == k + 1 {
      SamePrefix(input, links, states, rest, states, k);
    } else {
      RemovedUnseen(input, links, states, k, i - 1);
    }
  }

  // The wiring is the one the list and the switches call for.
  ghost predicate WiredBy(input: Signal, out: Signal, links: Links, states: States, ins: seq<Signal>)
    requires |ins| == |links|
  {
    out == Before(input, links, states, |links|) && WiredUpTo(input, links, states, ins, |links|)
  }

  ghost predicate WiredUpTo(input: Signal, links: Links, states: States, ins: seq<Signal>, n: nat)
    requires n <= |ins| == |links|
  {
    n == 0 ||
      (WiredUpTo(input, links, states, ins, n - 1)
       && (On(states, links[n - 1]) ==> ins[n - 1] == Before(input, links, states, n - 1)))
  }

  lemma {:induction false} WiredEverywhere(input: Signal, links: Links, states: States, ins: seq<Signal>, n: nat)
    requires n <= |ins| == |links|
    ensures WiredUpTo(input, links, states, ins, n)
            <==> forall i :: 0 <= i < n && On(states, links[i]) ==> ins[i] == Before(input, links, states, i)
  {
    if n > 0 { WiredEverywhere(input, links, states, ins, n - 1); }
  }

  // What switching the processor at k changes: the places up to the next enabled one at `at`, which then
  // see it or what is before it.
  lemma Switched(input: Signal, links: Links, states: States, states': States, k: nat, at: nat)
    requires Distinct(links) && k < at <= |links| && Idle(links, states, k + 1, at)
    requires at < |links| ==> On(states, links[at])
    requires forall j :: 0 <= j < |links| && j != k ==> On(states', links[j]) == On(states, links[j])
    ensures forall i :: 0 <= i <= k ==> Before(input, links, states', i) == Before(input, links, states, i)
    ensures forall i :: k < i <= at ==>
              Before(input, links, states', i) == if On(states', links[k]) then OutOf(links[k]) else Before(input, links, states, k)
    ensures forall i :: at < i <= |links| ==> Before(input, links, states', i) == Before(input, links, states, i)
  {
    forall i | 0 <= i <= k ensures Before(input, links, states', i) == Before(input, links, states, i) {
      SamePrefix(input, links, states, links, states', i);
    }
    forall i | k < i <= at
      ensures Before(input, links, states', i) == if On(states', links[k]) then OutOf(links[k]) else Before(input, links, states, k)
    {
      SkipsIdle(input, links, states', k + 1, i);
      SamePrefix(input, links, states, links, states', k);
    }
    forall i | at < i <= |links| ensures Before(input, links, states', i) == Before(input, links, states, i) {
      SameBehind(input, input, links, states, states', at, i);
    }
  }

  // So only two inputs, or one and the output, need to be set.
  lemma EnabledWired(input: Signal, out: Signal, links: Links, states: States, k: nat, at: nat, ins: seq<Signal>)
    requires Distinct(links) && k < |links| && at == Next(links, states, k + 1)
    requires |ins| == |links| && WiredBy(input, out, links, states, ins)
    ensures var now := OutOf(links[k]);
            WiredBy(input, if at < |links| then out else now, links, states[links[k] := true],
                    SetAt(ins, at, now)[k := Before(input, links, states, k)])
  {
    WiredEverywhere(input, links, states, ins, |links|);
    Switched(input, links, states, states[links[k] := true], k, at);
    WiredEverywhere(input, links, states[links[k] := true], SetAt(ins, at, OutOf(links[k]))[k := Before(input, links, states, k)], |links|);
  }

  lemma DisabledWired(input: Signal, out: Signal, links: Links, states: States, k: nat, at: nat, ins: seq<Signal>)
    requires Distinct(links) && k < |links| && at == Next(links, states, k + 1)
    requires |ins| == |links| && WiredBy(input, out, links, states, ins)
    ensures var now := Before(input, links, states, k);
            WiredBy(input, if at < |links| then out else now, links, states[links[k] := false], SetAt(ins, at, now))
  {
    WiredEverywhere(input, links, states, ins, |links|);
    Switched(input, links, states, states[links[k] := false], k, at);
    WiredEverywhere(input, links, states[links[k] := false], SetAt(ins, at, Before(input, links, states, k)), |links|);
  }

  // The place of the first enabled processor from i on, or the end of the list.
  function Next(links: Links, states: States, i: nat): (at: nat)
    requires i <= |links|
    ensures i <= at <= |links| && (at < |links| ==> On(states, links[at]))
    ensures forall j :: i <= j < at ==> !On(states, links[j])
    decreases |links| - i
  {
    if i < |links| && !On(states, links[i]) then Next(links, states, i + 1) else i
  }

  function SetAt(ins: seq<Signal>, at: nat, s: Signal): (r: seq<Signal>)
    ensures |r| == |ins|
  {
    if at < |ins| then ins[at := s] else ins
  }

  // Switching a processor off is not seen in front of it, nor in where its successor is.
  lemma {:induction false} SameNext(links: Links, states: States, k: nat, i: nat)
    requires Distinct(links) && k < i <= |links|
    ensures Next(links, states[links[k] := false], i) == Next(links, states, i)
    decreases |links| - i
  {
    if i < |links| { SameNext(links, states, k, i + 1); }
  }

  lemma SameNeighbours(input: Signal, links: Links, states: States, k: nat)
    requires Distinct(links) && k < |links|
    ensures Next(links, states[links[k] := false], k + 1) == Next(links, states, k + 1)
    ensures Before(input, links, states[links[k] := false], k) == Before(input, links, states, k)
  {
    SameNext(links, states, k, k + 1);
    SamePrefix(input, links, states, links, states[links[k] := false], k);
  }

  // Each switch belongs to a processor of the list, in which none appears twice.
  ghost predicate Registered(links: Links, states: States) {
    Distinct(links) && (forall p <- links :: p in states) && forall p <- states :: p in links
  }

  lemma DroppedRegistered(links: Links, states: States, k: nat)
    requires Registered(links, states) && k < |links|
    ensures Registered(Dropped(links, k), states - {links[k]})
  {
    var links', states' := Dropped(links, k), states - {links[k]};
    forall p | p in states' ensures p in links' {
      var j :| 0 <= j < |links| && links[j] == p;
      assert links'[if j < k then j else j - 1] == p;
    }
  }

  ghost predicate AllSteady(states: States)
    reads states.Keys
  {
    forall p <- states :: p.Steady()
  }

  ghost function Running(states: States): set<Processor>
    reads states.Keys
  {
    set p | p in states && p.running
  }

  // The processors that are to run: those enabled, when the chain runs.
  ghost function ToRun(states: States, running: bool): set<Processor> {
    set p | p in states && running && states[p]
  }

  lemma SwitchedRuns(states: States, p: Processor, running: bool)
    ensures ToRun(states[p := true], running) == if running then ToRun(states, running) + {p} else {}
    ensures ToRun(states[p := false], running) == ToRun(states, running) - {p}
  {
  }

  // A new input reaches the first enabled processor, or the output if there is none.
  lemma InputWired(input: Signal, input': Signal, out: Signal, links: Links, states: States, at: nat, ins: seq<Signal>)
    requires at == Next(links, states, 0) && |ins| == |links| && WiredBy(input, out, links, states, ins)
    ensures WiredBy(input', if at < |links| then out else input', links, states, SetAt(ins, at, input'))
  {
    var ins' := SetAt(ins, at, input');
    WiredEverywhere(input, links, states, ins, |links|);
    forall i | 0 <= i < |links| && On(states, links[i]) ensures ins'[i] == Before(input', links, states, i) {
      InputSeen(input, input', links, states, i, at);
    }
    InputSeen(input, input', links, states, |links|, at);
    WiredEverywhere(input', links, states, ins', |links|);
  }

  lemma InputSeen(input: Signal, input': Signal, links: Links, states: States, i: nat, at: nat)
    requires at == Next(links, states, 0) && i <= |links|
    ensures i <= at ==> Before(input', links, states, i) == input'
    ensures at < i ==> Before(input', links, states, i) == Before(input, links, states, i)
  {
    if i <= at {
      SkipsIdle(input', links, states, 0, i);
    } else {
      SameBehind(input, input', links, states, states, at, i);
    }
  }

  // A disabled processor may join or leave the list without a change to any other's wiring.
  lemma AppendedWired(input: Signal, out: Signal, links: Links, states: States, p: Processor, ins: seq<Signal>, s: Signal)
    requires p !in links && |ins| == |links| && WiredBy(input, out, links, states, ins)
    ensures WiredBy(input, out, links + [p], states[p := false], ins + [s])
  {
    var links', states' := links + [p], states[p := false];
    WiredEverywhere(input, links, states, ins, |links|);
    forall i | 0 <= i <= |links| ensures Before(input, links', states', i) == Before(input, links, states, i) {
      SamePrefix(input, links, states, links', states', i);
    }
    WiredEverywhere(input, links', states', ins + [s], |links'|);
  }

  function Dropped<T>(s: seq<T>, k: nat): (r: seq<T>)
    requires k < |s|
    ensures |r| == |s| - 1
  {
    s[..k] + s[k + 1..]
  }

  lemma DroppedPointwise<T>(s: seq<T>, k: nat)
    requires k < |s|
    ensures forall i :: 0 <= i < |s| - 1 ==> Dropped(s, k)[i] == s[if i < k then i else i + 1]
  {
  }

  lemma DroppedWired(input: Signal, out: Signal, links: Links, states: States, k: nat, ins: seq<Signal>)
    requires Distinct(links) && k < |links| && !On(states, links[k])
    requires |ins| == |links| && WiredBy(input, out, links, states, ins)
    ensures WiredBy(input, out, Dropped(links, k), states - {links[k]}, Dropped(ins, k))
  {
    var links', states', ins' := Dropped(links, k), states - {links[k]}, Dropped(ins, k);
    WiredEverywhere(input, links, states, ins, |links|);
    forall i | 0 <= i <= |links'|
      ensures Before(input, links', states', i) == Before(input, links, states, if i <= k then i else i + 1)
    {
      DroppedUnseen(input, links, states, k, i);
    }
    assert Before(input, links, states, k + 1) == Before(input, links, states, k);
    forall i | 0 <= i < |links'| && On(states', links'[i]) ensures ins'[i] == Before(input, links', states', i) {
      var j := if i < k then i else i + 1;
      assert links'[i] == links[j] && ins'[i] == ins[j] && On(states, links[j]);
    }
    WiredEverywhere(input, links', states', ins', |links'|);
  }

  lemma DroppedUnseen(input: Signal, links: Links, states: States, k: nat, i: nat)
    requires Distinct(links) && k < |links| && !On(states, links[k]) && i < |links|
    ensures Before(input, Dropped(links, k), states - {links[k]}, i)
            == Before(input, links, states, if i <= k then i else i + 1)
  {
    var links', states' := Dropped(links, k), states - {links[k]};
    if i <= k {
      SamePrefix(input, links, states, links', states', i);
    } else {
      RemovedUnseen(input, links, states, k, i + 1);
      SamePrefix(input, links', states, links', states', i);
    }
  }

  ghost predicate AllSet(links: Links, states: States, n: nat, enabled: bool) {
    n <= |links| && forall j :: 0 <= j < n ==> On(states, links[j]) == enabled
  }

  lemma OneMoreSet(links: Links, states: States, i: nat, enabled: bool)
    requires i < |links| && AllSet(links, states, i, enabled)
    ensures AllSet(links, states[links[i] := enabled], i + 1, enabled)
  {
  }

  lemma SetAgain(states: States, p: Processor, a: bool, b: bool)
    ensures states[p := a][p := b] == states[p := b] && states[p := a] - {p} == states - {p}
  {
  }

  lemma DroppedRuns(states: States, p: Processor, running: bool)
    requires !On(states, p) && Running(states) == ToRun(states, running)
    ensures Running(states - {p}) == ToRun(states - {p}, running)
  {
    assert p !in Running(states);
    assert Running(states - {p}) == Running(states) && ToRun(states - {p}, running) == ToRun(states, running);
  }

  // One by one: each processor of the list runs exactly if it is switched on and the chain runs.
  lemma RunsOneByOne(links: Links, states: States, running: bool)
    requires Registered(links, states)
    ensures AllSteady(states) && Running(states) == ToRun(states, running)
            <==> forall j :: 0 <= j < |links| ==> links[j].Steady() && links[j].running == (running && On(states, links[j]))
  {
    if AllSteady(states) && Running(states) == ToRun(states, running) {
      forall j | 0 <= j < |links| ensures links[j].Steady() && links[j].running == (running && On(states, links[j])) {
        assert links[j] in states && (links[j] in Running(states) <==> links[j] in ToRun(states, running));
      }
    }
    if forall j :: 0 <= j < |links| ==> links[j].Steady() && links[j].running == (running && On(states, links[j])) {
      forall p | p in states ensures p.Steady() && (p in Running(states) <==> p in ToRun(states, running)) {
        assert p in links;
      }
    }
  }

  lemma NewcomerRuns(states: States, p: Processor, running: bool, enabled: bool)
    requires p !in states
    ensures ToRun(states[p := enabled], running) == ToRun(states, running) + if enabled && running then {p} else {}
    ensures p !in ToRun(states, running)
  {
  }

  // What a call does besides the wiring: an exception, or calls of the output callback.
  datatype Outcome = Done(notices: seq<Signal>) | Thrown

  // A new output is told to the caller.
  predicate Tells(r: Outcome, before: Signal, after: Signal) {
    r.Done? && (r.notices == [] ==> after == before) && (r.notices == [] || r.notices == [after])
  }

  class Chain {
    var input: Signal
    var out: Signal
    var links: Links
    var states: States
    var running: bool

    // The list, the switches and the processors themselves are in order, whichever of them run.
    ghost predicate Sound()
      reads this, states.Keys
    {
      Registered(links, states) && AllSteady(states)
    }

    ghost function Inputs(): (ins: seq<Signal>)
      reads this, states.Keys
      requires Registered(links, states)
      ensures |ins| == |links| && forall i :: 0 <= i < |links| ==> ins[i] == links[i].input
    {
      seq(|links|, i requires Registered(links, states) && 0 <= i < |links| reads this, states.Keys => links[i].input)
    }

    ghost predicate Wired()
      reads this, states.Keys
    {
      Sound() && WiredBy(input, out, links, states, Inputs())
    }

    // A processor runs exactly when the chain runs and it is enabled.
    ghost predicate Valid()
      reads this, states.Keys
    {
      Wired() && Running(states) == ToRun(states, running)
    }

    constructor (from: Signal)
      ensures Valid() && input == from && links == [] && states == map[] && !running
    {
      input, out, links, states, running := from, from, [], map[], false;
    }

    method BlockExists(p: Processor) returns (r: bool)
      requires Sound()
      ensures r == (p in links)
    {
      r := p in states;
    }

    ghost function Place(p: Processor): (k: nat)
      reads this
      requires p in links
      ensures k < |links| && links[k] == p
    {
      var k :| 0 <= k < |links| && links[k] == p;
      k
    }

    method BlockBefore(p: Processor, ghost k: nat) returns (prev: Option<Processor>)
      requires Sound() && k < |links| && links[k] == p
      ensures (match prev case None => input case Some(q) => OutOf(q)) == Before(input, links, states, k)
    {
      prev := None;
      for i := 0 to |links|
        invariant i <= k
        invariant (match prev case None => input case Some(q) => OutOf(q)) == Before(input, links, states, i)
      {
        if links[i] == p {
          assert i == k;
          return;
        }
        if states[links[i]] {
          prev := Some(links[i]);
        }
      }
      assert false;
    }

    method BlockAfter(p: Processor, ghost k: nat) returns (next: Option<Processor>)
      requires Sound() && k < |links| && links[k] == p
      ensures var at := Next(links, states, k + 1); next == if at < |links| then Some(links[at]) else None
    {
      var found := false;
      for i := 0 to |links|
        invariant found == (k < i)
        invariant found ==> Next(links, states, k + 1) == Next(links, states, i)
      {
        if links[i] == p {
          found := true;
        } else if states[links[i]] && found {
          return Some(links[i]);
        }
      }
      return None;
    }

    method Neighbours(p: Processor, ghost k: nat) returns (from: Signal, after: Option<Processor>)
      requires Sound() && k < |links| && links[k] == p
      ensures from == Before(input, links, states, k)
      ensures var at := Next(links, states, k + 1); after == if at < |links| then Some(links[at]) else None
    {
      var before := BlockBefore(p, k);
      from := if before.Some? then OutOf(before.value) else input;
      after := BlockAfter(p, k);
    }

    // The processor behind, or else the chain's output, gets a new signal.
    method Redirect(after: Option<Processor>, s: Signal, ghost at: nat) returns (notices: seq<Signal>)
      requires Sound() && at <= |links|
      requires after == if at < |links| then Some(links[at]) else None
      modifies this`out, states.Keys
      ensures Sound() && Running(states) == old(Running(states))
      ensures Inputs() == SetAt(old(Inputs()), at, s)
      ensures if at < |links| then out == old(out) && notices == [] else out == s && notices == [s]
    {
      if after.Some? {
        assert after.value in states;
        after.value.SetInput(s);
        notices := [];
      } else {
        out := s;
        notices := [s];
      }
    }

    method Feed(p: Processor, s: Signal, ghost k: nat)
      requires Sound() && k < |links| && links[k] == p
      modifies states.Keys
      ensures Sound() && Inputs() == old(Inputs())[k := s] && Running(states) == old(Running(states))
    {
      assert p in states;
      p.SetInput(s);
    }

    method SwitchOn(p: Processor, ghost k: nat)
      requires Sound() && k < |links| && links[k] == p && !On(states, p)
      modifies this`states, states.Keys
      ensures Sound() && Inputs() == old(Inputs()) && states == old(states)[p := true]
      ensures Running(states) == old(Running(states)) + if running then {p} else {}
    {
      if running { StartOne(p, k); }
      states := states[p := true];
    }

    method StartOne(p: Processor, ghost k: nat)
      requires Sound() && k < |links| && links[k] == p
      modifies states.Keys
      ensures Sound() && Inputs() == old(Inputs()) && Running(states) == old(Running(states)) + {p}
    {
      assert p in states;
      var ok := p.Start();
      assert ok;
    }

    method FeedAndSwitchOn(p: Processor, s: Signal, ghost k: nat)
      requires Sound() && k < |links| && links[k] == p && !On(states, p)
      modifies this`states, states.Keys
      ensures Sound() && Inputs() == old(Inputs())[k := s] && states == old(states)[p := true]
      ensures Running(states) == old(Running(states)) + if running then {p} else {}
    {
      Feed(p, s, k);
      SwitchOn(p, k);
    }

    method SwitchOff(p: Processor, ghost k: nat)
      requires Sound() && k < |links| && links[k] == p
      modifies this`states, states.Keys
      ensures Sound() && Inputs() == old(Inputs()) && states == old(states)[p := false]
      ensures Running(states) == old(Running(states)) - {p}
    {
      p.Stop();
      states := states[p := false];
    }

    // Puts p between its neighbours.
    method Insert(p: Processor, from: Signal, after: Option<Processor>, ghost k: nat, ghost at: nat) returns (notices: seq<Signal>)
      requires Sound() && k < |links| && links[k] == p && !On(states, p) && k < at <= |links|
      requires after == if at < |links| then Some(links[at]) else None
      modifies this`out, this`states, states.Keys
      ensures Sound() && states == old(states)[p := true]
      ensures Running(states) == old(Running(states)) + if running then {p} else {}
      ensures Inputs() == SetAt(old(Inputs()), at, OutOf(p))[k := from]
      ensures if at < |links| then out == old(out) && notices == [] else out == OutOf(p) && notices == [out]
    {
      ghost var ins, on := SetAt(Inputs(), at, OutOf(p)), states[p := true];
      notices := Redirect(after, OutOf(p), at);
      assert Inputs() == ins;
      FeedAndSwitchOn(p, from, k);
      assert Inputs() == ins[k := from] && states == on;
    }

    // Joins p's neighbours.
    method Remove(p: Processor, ghost k: nat, ghost at: nat) returns (notices: seq<Signal>)
      requires Sound() && k < |links| && links[k] == p && at == Next(links, states, k + 1)
      modifies this`out, this`states, states.Keys
      ensures Sound() && states == old(states)[p := false] && Running(states) == old(Running(states)) - {p}
      ensures Inputs() == SetAt(old(Inputs()), at, Before(input, links, old(states), k))
      ensures if at < |links| then out == old(out) && notices == []
              else out == Before(input, links, old(states), k) && notices == [out]
    {
      SameNeighbours(input, links, states, k);
      SwitchOff(p, k);
      var from, after := Neighbours(p, k);
      notices := Redirect(after, from, at);
    }

    // Whatever runs goes on running, and the newly enabled processor joins it if the chain runs.
    method EnableBlock(p: Processor) returns (r: Outcome)
      requires Wired()
      modifies this`out, this`states, states.Keys
      ensures Wired() && (old(Valid()) ==> Valid())
      ensures Running(states) == old(Running(states)) + if p in links && !old(states)[p] && running then {p} else {}
      ensures p !in links ==> r == Thrown && states == old(states) && out == old(out)
      ensures p in links ==> states == old(states)[p := true] && Tells(r, old(out), out)
    {
      var known := BlockExists(p);
      if !known { return Thrown; }
      if states[p] { return Done([]); }
      SwitchedRuns(states, p, running);
      r := WireIn(p, Place(p));
    }

    method WireIn(p: Processor, ghost k: nat) returns (r: Outcome)
      requires Wired() && k < |links| && links[k] == p && p in states && !states[p]
      modifies this`out, this`states, states.Keys
      ensures Wired() && states == old(states)[p := true] && Tells(r, old(out), out)
      ensures Running(states) == old(Running(states)) + if running then {p} else {}
    {
      ghost var at := Next(links, states, k + 1);
      var from, after := Neighbours(p, k);
      EnabledWired(input, out, links, states, k, at, Inputs());
      ghost var on, will, end := states[p := true], SetAt(Inputs(), at, OutOf(p))[k := from], if at < |links| then out else OutOf(p);
      r := InsertAs(p, from, after, k, at, on, will, end);
    }

    // The wiring after putting p between its neighbours.
    method InsertAs(p: Processor, from: Signal, after: Option<Processor>, ghost k: nat, ghost at: nat,
                    ghost on: States, ghost will: seq<Signal>, ghost end: Signal) returns (r: Outcome)
      requires Sound() && k < |links| && links[k] == p && !On(states, p) && k < at <= |links|
      requires after == if at < |links| then Some(links[at]) else None
      requires on == states[p := true] && will == SetAt(Inputs(), at, OutOf(p))[k := from]
      requires end == (if at < |links| then out else OutOf(p)) && WiredBy(input, end, links, on, will)
      modifies this`out, this`states, states.Keys
      ensures Wired() && states == on && Tells(r, old(out), out)
      ensures Running(states) == old(Running(states)) + if running then {p} else {}
    {
      var notices := Insert(p, from, after, k, at);
      r := Done(notices);
    }

    method DisableBlock(p: Processor) returns (r: Outcome)
      requires Valid()
      modifies this`out, this`states, states.Keys
      ensures Valid()
      ensures p !in links ==> r == Thrown && states == old(states) && out == old(out)
      ensures p in links ==> states == old(states)[p := false] && Tells(r, old(out), out)
    {
      var known := BlockExists(p);
      if !known { return Thrown; }
      if !states[p] { return Done([]); }
      SwitchedRuns(states, p, running);
      r := WireOut(p, Place(p));
    }

    method WireOut(p: Processor, ghost k: nat) returns (r: Outcome)
      requires Wired() && k < |links| && links[k] == p
      modifies this`out, this`states, states.Keys
      ensures Wired() && states == old(states)[p := false] && Tells(r, old(out), out)
      ensures Running(states) == old(Running(states)) - {p}
    {
      ghost var at := Next(links, states, k + 1);
      DisabledWired(input, out, links, states, k, at, Inputs());
      ghost var now := Before(input, links, states, k);
      ghost var off, will, end := states[p := false], SetAt(Inputs(), at, now), if at < |links| then out else now;
      assert WiredBy(input, end, links, off, will);
      var notices := Remove(p, k, at);
      assert states == off && out == end && Inputs() == will;
      return Done(notices);
    }

    method SetBlockEnabled(p: Processor, enabled: bool) returns (r: Outcome)
      requires Valid()
      modifies this`out, this`states, states.Keys
      ensures Valid()
      ensures p !in links ==> r == Thrown && states == old(states) && out == old(out)
      ensures p in links ==> states == old(states)[p := enabled] && Tells(r, old(out), out)
    {
      if enabled {
        r := EnableBlock(p);
      } else {
        r := DisableBlock(p);
      }
    }

    method SetInput(from: Signal) returns (notices: seq<Signal>)
      requires Valid()
      modifies this`input, this`out, states.Keys
      ensures Valid() && input == from && Tells(Done(notices), old(out), out)
    {
      ghost var before, ins := input, Inputs();
      input := from;
      assert Inputs() == ins;
      var k := FirstEnabled();
      if k < |links| {
        FeedFirst(from, k, before, ins);
        return [];
      }
      Bypass(from, before, ins);
      return [out];
    }

    method FirstEnabled() returns (k: nat)
      requires Sound()
      ensures k == Next(links, states, 0)
    {
      for i := 0 to |links|
        invariant Next(links, states, i) == Next(links, states, 0)
      {
        if states[links[i]] { return i; }
      }
      return |links|;
    }

    method Bypass(s: Signal, ghost before: Signal, ghost ins: seq<Signal>)
      requires Sound() && |links| == Next(links, states, 0) && input == s && Running(states) == ToRun(states, running)
      requires ins == Inputs() && WiredBy(before, out, links, states, ins)
      modifies this`out
      ensures Valid() && out == s
    {
      InputWired(before, s, out, links, states, |links|, ins);
      out := s;
      assert Inputs() == ins;
    }

    method FeedFirst(s: Signal, k: nat, ghost before: Signal, ghost ins: seq<Signal>)
      requires Sound() && k < |links| && k == Next(links, states, 0) && input == s && Running(states) == ToRun(states, running)
      requires ins == Inputs() && WiredBy(before, out, links, states, ins)
      modifies states.Keys
      ensures Valid()
    {
      InputWired(before, s, out, links, states, k, ins);
      ghost var will := SetAt(ins, k, s);
      Feed(links[k], s, k);
      assert Inputs() == will;
    }

    // A processor joins the list behind all others. One that runs already goes on running, so that the chain is
    // in order afterwards exactly if the newcomer was stopped or is switched on in a running chain.
    method AddBlock(p: Processor, enabled: bool) returns (r: Outcome)
      requires Valid() && (p !in links ==> p.Steady())
      modifies this`links, this`out, this`states, states.Keys, p
      ensures Wired() && (Valid() <==> p in old(links) || !old(p.running) || (enabled && running))
      ensures p in old(links) ==> r == Thrown && links == old(links) && states == old(states) && out == old(out)
      ensures p !in old(links) ==> r.Done? && links == old(links) + [p] && states == old(states)[p := enabled]
      ensures Running(states) == old(Running(states))
              + if p !in old(links) && (old(p.running) || (enabled && running)) then {p} else {}
    {
      var known := BlockExists(p);
      if known { return Thrown; }
      NewcomerRuns(states, p, running, enabled);
      Join(p, enabled);
      return Done([]);
    }

    method Join(p: Processor, enabled: bool)
      requires Wired() && p !in links && p.Steady()
      modifies this`links, this`out, this`states, states.Keys, p
      ensures Wired() && links == old(links) + [p] && states == old(states)[p := enabled]
      ensures Running(states) == old(Running(states)) + if old(p.running) || (enabled && running) then {p} else {}
    {
      if enabled { JoinEnabled(p); } else { Append(p); }
    }

    method JoinEnabled(p: Processor)
      requires Wired() && p !in links && p.Steady()
      modifies this`links, this`out, this`states, states.Keys, p
      ensures Wired() && links == old(links) + [p] && states == old(states)[p := true]
      ensures Running(states) == old(Running(states)) + if old(p.running) || running then {p} else {}
    {
      SetAgain(states, p, false, true);
      Append(p);
      ghost var now := Running(states);
      assert p in links && p in states && !states[p];
      var _ := EnableBlock(p);
      assert Running(states) == now + if running then {p} else {};
    }

    method Append(p: Processor)
      requires Wired() && p !in links && p.Steady()
      modifies this`links, this`states
      ensures Wired() && links == old(links) + [p] && states == old(states)[p := false]
      ensures Running(states) == old(Running(states)) + if p.running then {p} else {}
    {
      ghost var will := Inputs() + [p.input];
      AppendedWired(input, out, links, states, p, Inputs(), p.input);
      links := links + [p];
      states := states[p := false];
      assert Inputs() == will;
    }

    // Disabled in a chain that does not run, a newcomer that ran before goes on running.
    method RunningNewcomer(p: Processor) returns (r: Outcome)
      requires Valid() && !running && p !in links && p.Steady() && p.running
      modifies this`links, this`out, this`states, states.Keys, p
      ensures r.Done? && !Valid() && p in states && !states[p] && p.running
    {
      r := AddBlock(p, false);
      assert p in Running(states);
    }

    method RemoveBlock(p: Processor) returns (r: Outcome, ghost place: nat)
      requires Valid()
      modifies this`links, this`out, this`states, states.Keys
      ensures Valid()
      ensures p !in old(links) ==> r == Thrown && links == old(links) && states == old(states) && out == old(out)
      ensures p in old(links) ==> Tells(r, old(out), out) && states == old(states) - {p} && p.Steady() && !p.running
      ensures p in old(links) ==> place < |old(links)| && old(links)[place] == p && links == Dropped(old(links), place)
    {
      var known := BlockExists(p);
      if !known { return Thrown, 0; }
      SetAgain(states, p, false, false);
      r := DisableBlock(p);
      place := Place(p);
      DisabledStopped(place);
      Drop(p, place);
    }

    lemma DisabledStopped(k: nat)
      requires Valid() && k < |links| && !On(states, links[k])
      ensures links[k].Steady() && !links[k].running
    {
      RunsOneByOne(links, states, running);
    }

    method Drop(p: Processor, ghost place: nat)
      requires Valid() && place < |links| && links[place] == p && !On(states, p)
      modifies this`links, this`states
      ensures Valid() && states == old(states) - {p} && links == Dropped(old(links), place)
    {
      DroppedRuns(states, p, running);
      TakeOff(p, place);
    }

    method TakeOff(p: Processor, ghost place: nat)
      requires Wired() && place < |links| && links[place] == p && !On(states, p)
      modifies this`links, this`states
      ensures Wired() && states == old(states) - {p} && links == Dropped(old(links), place)
    {
      ghost var ins := Inputs();
      DroppedWired(input, out, links, states, place, Inputs());
      DroppedRegistered(links, states, place);
      var k := IndexOf(p, place);
      states := states - {p};
      links := links[..k] + links[k + 1..];
      DroppedPointwise(old(links), place);
      DroppedPointwise(ins, place);
      assert Inputs() == Dropped(ins, place);
    }

    method IndexOf(p: Processor, ghost place: nat) returns (k: nat)
      requires Distinct(links) && place < |links| && links[place] == p
      ensures k == place
    {
      k := 0;
      while links[k] != p
        invariant k <= place
        decreases place - k
      {
        k := k + 1;
      }
    }

    method EnableAllBlocks()
      requires Valid()
      modifies this`out, this`states, states.Keys
      ensures Valid() && AllSet(links, states, |links|, true)
    {
      for i := 0 to |links|
        invariant Valid() && states.Keys == old(states.Keys) && AllSet(links, states, i, true)
      {
        EnableNext(i);
      }
    }

    method EnableNext(i: nat)
      requires Valid() && i < |links| && AllSet(links, states, i, true)
      modifies this`out, this`states, states.Keys
      ensures Valid() && states.Keys == old(states.Keys) && AllSet(links, states, i + 1, true)
    {
      ghost var was := states;
      assert links[i] in states;
      var _ := EnableBlock(links[i]);
      OneMoreSet(links, was, i, true);
    }

    method DisableAllBlocks()
      requires Valid()
      modifies this`out, this`states, states.Keys
      ensures Valid() && AllSet(links, states, |links|, false) && out == input
    {
      for i := 0 to |links|
        invariant Valid() && states.Keys == old(states.Keys) && AllSet(links, states, i, false)
      {
        ghost var was := states;
        var _ := DisableBlock(links[i]);
        OneMoreSet(links, was, i, false);
      }
      BeforeIsLastEnabled(input, links, states, |links|);
    }

    method Start()
      requires Valid()
      modifies this`running, states.Keys
      ensures Valid() && running
    {
      if running { return; }
      ghost var ins := Inputs();
      StartEnabled();
      running := true;
      assert Inputs() == ins;
      RunsOneByOne(links, states, running);
    }

    method StartEnabled()
      requires Valid() && !running
      modifies states.Keys
      ensures Inputs() == old(Inputs())
      ensures forall j :: 0 <= j < |links| ==> links[j].Steady() && links[j].running == On(states, links[j])
    {
      RunsOneByOne(links, states, running);
      for i := 0 to |links|
        invariant Inputs() == old(Inputs())
        invariant forall j :: 0 <= j < |links| ==> links[j].Steady() && links[j].running == (j < i && On(states, links[j]))
      {
        if states[links[i]] {
          var ok := links[i].Start();
          assert ok;
        }
      }
    }

    method Stop()
      requires Valid()
      modifies this`running, states.Keys
      ensures Valid() && !running
    {
      if !running { return; }
      ghost var ins := Inputs();
      StopEnabled();
      running := false;
      assert Inputs() == ins;
      RunsOneByOne(links, states, running);
    }

    method StopEnabled()
      requires Valid() && running
      modifies states.Keys
      ensures Inputs() == old(Inputs())
      ensures forall j :: 0 <= j < |links| ==> links[j].Steady() && !links[j].running
    {
      RunsOneByOne(links, states, running);
      for i := 0 to |links|
        invariant Inputs() == old(Inputs())
        invariant forall j :: 0 <= j < |links| ==> links[j].Steady() && links[j].running == (i <= j && On(states, links[j]))
      {
        if states[links[i]] {
          links[i].Stop();
        }
      }
    }
  }
}
