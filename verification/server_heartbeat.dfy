// The heartbeat looks at the current slot first, takes the control lock to decide whether to close what it
// saw, lets it go, and takes it again to stop the source. In between, another session may have taken over.
module ServerHeartbeat {
  import opened Options
  import opened ServerSessions

  // A promotion that succeeds.
  predicate Promotes(x: State, a: Action) {
    a.Promote? && Can(x, a) && MayPromote(x.slots, x.holder.s, Busy(x))
  }

  ghost predicate AnyPromotion(x: State, c: Config, actions: seq<Action>)
    requires IsRun(x, c, actions)
    decreases |actions|
  {
    actions != [] && (Promotes(x, actions[0]) || AnyPromotion(Do(x, c, actions[0]), c, actions[1..]))
  }

  // What lies between the heartbeat's look at the current slot and its stopping of the source.
  predicate IsGap(actions: seq<Action>) {
    LookForCurrent !in actions && StopSource !in actions
  }

  predicate Watches(tick: Tick, s: Id) { tick == Waiting(s) || tick == Held(s) || tick == Stopping(s) }

  predicate BetweenTicks(tick: Tick) { tick.AtRetired? || tick.AtPending? || tick.AtCurrent? }

  // A client that has been displaced never is the client again.
  lemma {:induction false} NeverTheClientAgain(x: State, c: Config, s: Id, actions: seq<Action>)
    requires Inv(x, c) && IsRun(x, c, actions)
    requires s < |x.sessions| && x.sessions[s].promoted && x.slots.current != Some(s)
    ensures After(x, c, actions).slots.current != Some(s)
    decreases |actions|
  {
    if actions != [] {
      Kept(x, c, actions[0]);
      StillPromoted(x, c, s, actions[0]);
      if Do(x, c, actions[0]).slots.current != x.slots.current { ClientChanges(x, c, actions[0]); }
      NeverTheClientAgain(Do(x, c, actions[0]), c, s, actions[1..]);
    }
  }

  lemma StillPromoted(x: State, c: Config, s: Id, a: Action)
    requires Can(x, a) && s < |x.sessions| && x.sessions[s].promoted
    ensures s < |Do(x, c, a).sessions| && Do(x, c, a).sessions[s].promoted
  {
    if !(a.Promote? && MayPromote(x.slots, x.holder.s, Busy(x))) { OnlyPromotionPromotes(x, c, a); }
  }

  lemma TickInGap(x: State, c: Config, s: Id, a: Action)
    requires Can(x, a) && !a.LookForCurrent? && !a.StopSource? && (Watches(x.tick, s) || BetweenTicks(x.tick))
    ensures Watches(Do(x, c, a).tick, s) || BetweenTicks(Do(x, c, a).tick)
    ensures !a.ClearCurrent? && !a.Shut?
  {
  }

  lemma CurrentInGap(x: State, c: Config, a: Action)
    requires Inv(x, c) && Can(x, a) && !a.ClearCurrent? && x.slots.current.Some?
    ensures if Promotes(x, a) then Do(x, c, a).slots.current != x.slots.current
            else Do(x, c, a).slots.current == x.slots.current
  {
  }

  lemma {:induction false} GapKept(x: State, c: Config, s: Id, gap: seq<Action>)
    requires Inv(x, c) && IsRun(x, c, gap) && IsGap(gap)
    requires (Watches(x.tick, s) || BetweenTicks(x.tick)) && x.slots.current == Some(s)
    ensures var y := After(x, c, gap);
            && Inv(y, c) && (Watches(y.tick, s) || BetweenTicks(y.tick))
            && (y.slots.current == Some(s) <==> !AnyPromotion(x, c, gap))
    decreases |gap|
  {
    if gap != [] {
      var a, next := gap[0], Do(x, c, gap[0]);
      assert a in gap && forall b <- gap[1..] :: b in gap;
      Kept(x, c, a);
      TickInGap(x, c, s, a);
      CurrentInGap(x, c, a);
      if Promotes(x, a) {
        StillPromoted(x, c, s, a);
        NeverTheClientAgain(next, c, s, gap[1..]);
        TickThroughGap(next, c, s, gap[1..]);
      } else {
        GapKept(next, c, s, gap[1..]);
      }
    }
  }

  lemma {:induction false} TickThroughGap(x: State, c: Config, s: Id, gap: seq<Action>)
    requires Inv(x, c) && IsRun(x, c, gap) && IsGap(gap) && (Watches(x.tick, s) || BetweenTicks(x.tick))
    ensures var y := After(x, c, gap); Inv(y, c) && (Watches(y.tick, s) || BetweenTicks(y.tick))
    decreases |gap|
  {
    if gap != [] {
      assert gap[0] in gap && forall b <- gap[1..] :: b in gap;
      Kept(x, c, gap[0]);
      TickInGap(x, c, s, gap[0]);
      TickThroughGap(Do(x, c, gap[0]), c, s, gap[1..]);
    }
  }

  // Stopping the source on account of s ends the streaming of another open client.
  predicate EndsAnothersStreaming(y: State, z: State, s: Id) {
    Busy(y) && y.slots.current != Some(s) && !Busy(z)
  }

  // In every run: from the heartbeat's look at the client up to its stopping of the source, the client stays
  // the one it saw exactly if no promotion succeeds; and it ends another client's streaming exactly if one
  // did and an open client streams when it gets there.
  lemma HeartbeatAndSuccessor(values: Values, c: Config, before: seq<Action>, gap: seq<Action>)
    requires IsRun(Started(values), c, before)
    requires var w := After(Started(values), c, before);
             && Can(w, LookForCurrent) && w.slots.current.Some?
             && var x := Do(w, c, LookForCurrent);
                IsRun(x, c, gap) && IsGap(gap) && Can(After(x, c, gap), StopSource)
    ensures var x := Do(After(Started(values), c, before), c, LookForCurrent);
            var s, y := x.slots.current.value, After(x, c, gap);
            && y.tick == Stopping(s)
            && (y.slots.current == Some(s) <==> !AnyPromotion(x, c, gap))
            && (EndsAnothersStreaming(y, Do(y, c, StopSource), s) <==> AnyPromotion(x, c, gap) && Busy(y))
  {
    RunKept(Started(values), c, before);
    var w := After(Started(values), c, before);
    Kept(w, c, LookForCurrent);
    GapKept(Do(w, c, LookForCurrent), c, w.slots.current.value, gap);
  }

  // ---- such a run

  lemma {:induction false} Extended(x: State, c: Config, actions: seq<Action>, a: Action)
    requires IsRun(x, c, actions) && Can(After(x, c, actions), a)
    ensures IsRun(x, c, actions + [a]) && After(x, c, actions + [a]) == Do(After(x, c, actions), c, a)
    decreases |actions|
  {
    if actions == [] {
      assert [] + [a] == [a] && [a][1..] == [];
    } else {
      assert (actions + [a])[1..] == actions[1..] + [a];
      Extended(Do(x, c, actions[0]), c, actions[1..], a);
    }
  }

  // A newcomer arrives while nobody streams.
  lemma Arrives(x: State, c: Config) returns (actions: seq<Action>, y: State)
    requires x.holder == Free && x.acceptor == Listening && !x.running
    ensures IsRun(x, c, actions) && After(x, c, actions) == y && IsGap(actions)
    ensures y == x.(sessions := x.sessions + [NEWCOMER], slots := x.slots.(pending := Some(|x.sessions|)))
  {
    actions, y := Then(x, c, [], x, Accept);
    if y.acceptor == Checking { actions, y := Then(x, c, actions, y, CheckBusy); }
    actions, y := Then(x, c, actions, y, Publish);
  }

  // It says hello and takes over.
  lemma TakesOver(x: State, c: Config) returns (actions: seq<Action>, y: State)
    requires !c.authRequired && x.holder == Free && x.acceptor == Listening && !x.running
    requires x.slots.current != Some(|x.sessions|)
    ensures IsRun(x, c, actions) && After(x, c, actions) == y && IsGap(actions)
    ensures y.holder == Free && y.acceptor == Listening && y.tick == x.tick && !y.running
    ensures |y.sessions| == |x.sessions| + 1 && y.slots.current == Some(|x.sessions|) && y.slots.pending == None
    ensures y.sessions[|x.sessions|].open && y.sessions[|x.sessions|].ready
  {
    actions, y := Arrives(x, c);
    var s := |x.sessions|;
    actions, y := Then(x, c, actions, y, Hello(s, true, true));
    actions, y := Then(x, c, actions, y, Activate(0));
    assert y.holder == Promoting(s) && y.slots.pending == Some(s) && y.sessions[s].open && !y.running;
    actions, y := Then(x, c, actions, y, Promote);
    assert y.holder == Resetting(s) && y.slots.current == Some(s) && y.slots.pending == None && y.sessions[s].open;
    actions, y := Then(x, c, actions, y, Reset);
  }

  // And starts to stream.
  lemma StartsStreaming(x: State, c: Config, s: Id, started: seq<Action>, y: State) returns (actions: seq<Action>, z: State)
    requires IsRun(x, c, started) && After(x, c, started) == y && IsGap(started)
    requires !c.authRequired && y.holder == Free
    requires s < |y.sessions| && y.sessions[s].open && y.sessions[s].ready && y.slots.current == Some(s)
    ensures IsRun(x, c, actions) && After(x, c, actions) == z && IsGap(actions)
    ensures z.holder == Free && Busy(z) && z.slots == y.slots && z.tick == y.tick
  {
    actions, z := Then(x, c, started, y, Gate(s, Start));
    actions, z := Then(x, c, actions, z, Dispatch);
    actions, z := Then(x, c, actions, z, LookForFlush);
    actions, z := Then(x, c, actions, z, SendFlush);
  }

  lemma TickFlushes(x: State, c: Config, s: Id, started: seq<Action>, y: State) returns (actions: seq<Action>, z: State)
    requires IsRun(x, c, started) && After(x, c, started) == y && IsGap(started)
    requires y.holder == FlushLook(true) && y.slots.current == Some(s) && s < |y.sessions| && y.sessions[s].open
    ensures IsRun(x, c, actions) && After(x, c, actions) == z && IsGap(actions)
    ensures z.holder == Deciding && z.tick == y.tick && z.running == y.running && z.slots == y.slots
    ensures z.acceptor == y.acceptor && |z.sessions| == |y.sessions|
  {
    actions, z := Then(x, c, started, y, LookForFlush);
    actions, z := Then(x, c, actions, z, SendFlush);
  }

  // The heartbeat decides to close a client that is late with its answer.
  lemma FindsLate(x: State, c: Config, s: Id) returns (actions: seq<Action>, y: State)
    requires x.holder == Free && x.tick == Waiting(s) && x.slots.current == Some(s)
    requires s < |x.sessions| && x.sessions[s].open
    ensures IsRun(x, c, actions) && After(x, c, actions) == y && IsGap(actions)
    ensures y.holder == Free && y.tick == Stopping(s) && y.running == x.running && y.slots == x.slots
    ensures y.acceptor == x.acceptor && |y.sessions| == |x.sessions|
  {
    actions, y := Then(x, c, [], x, LockForTick);
    actions, y := TickFlushes(x, c, s, actions, y);
    actions, y := Then(x, c, actions, y, Decide(true));
  }

  // The first client takes over, and the heartbeat comes to look at it.
  lemma FirstClient(values: Values, c: Config) returns (actions: seq<Action>, y: State)
    requires !c.authRequired
    ensures IsRun(Started(values), c, actions) && After(Started(values), c, actions) == y
    ensures y.holder == Free && y.acceptor == Listening && y.tick == AtCurrent && !y.running
    ensures |y.sessions| == 1 && y.slots.current == Some(0) && y.sessions[0].open
  {
    actions, y := TakesOver(Started(values), c);
    actions, y := Then(Started(values), c, actions, y, TakeRetired);
    actions, y := Then(Started(values), c, actions, y, ReapPending(false));
  }

  // From the start: a client takes over, the heartbeat looks at it and decides to close it, a newcomer takes
  // over and streams, and the heartbeat stops the source under it.
  lemma SuccessorIsStopped(values: Values, c: Config) returns (before: seq<Action>, gap: seq<Action>)
    requires !c.authRequired
    ensures IsRun(Started(values), c, before)
    ensures var w := After(Started(values), c, before);
            && Can(w, LookForCurrent) && w.slots.current.Some?
            && var x := Do(w, c, LookForCurrent);
               IsRun(x, c, gap) && IsGap(gap)
               && var y := After(x, c, gap);
                  Can(y, StopSource) && EndsAnothersStreaming(y, Do(y, c, StopSource), x.slots.current.value)
  {
    var w, y, z, late, taken;
    before, w := FirstClient(values, c);
    var x := Do(w, c, LookForCurrent);
    late, y := FindsLate(x, c, 0);
    taken, z := TakesOver(y, c);
    Joined(x, c, late, taken);
    gap, z := StartsStreaming(x, c, 1, late + taken, z);
  }

  lemma Then(x: State, c: Config, actions: seq<Action>, y: State, a: Action) returns (more: seq<Action>, z: State)
    requires IsRun(x, c, actions) && After(x, c, actions) == y && Can(y, a)
    ensures more == actions + [a] && z == Do(y, c, a) && IsRun(x, c, more) && After(x, c, more) == z
  {
    more, z := actions + [a], Do(y, c, a);
    Extended(x, c, actions, a);
  }

  lemma {:induction false} Joined(x: State, c: Config, a: seq<Action>, b: seq<Action>)
    requires IsRun(x, c, a) && IsRun(After(x, c, a), c, b)
    ensures IsRun(x, c, a + b) && After(x, c, a + b) == After(After(x, c, a), c, b)
    decreases |a|
  {
    if a == [] {
      assert a + b == b;
    } else {
      assert (a + b)[1..] == a[1..] + b;
      Joined(Do(x, c, a[0]), c, a[1..], b);
    }
  }

  // ---- what the heartbeat decides

  predicate Giving(tick: Tick) { tick.Stopping? || tick.Shutting? || tick.Clearing? }

  predicate GivesUp(tick: Tick, s: Id) { tick == Stopping(s) || tick == Shutting(s) || tick == Clearing(s) }

  // What makes the heartbeat give a session up: it was rejected, is closed, or did not answer in time.
  predicate Late(x: State, s: Id, timedOut: bool)
    requires s < |x.sessions|
  {
    x.sessions[s].rejected || !x.sessions[s].open || timedOut
  }

  // Whom the heartbeat watches has been the client.
  predicate WatchesAClient(x: State) {
    x.tick.Waiting? || x.tick.Held? || Giving(x.tick) ==> x.tick.s < |x.sessions| && x.sessions[x.tick.s].promoted
  }

  lemma WatchKept(x: State, c: Config, a: Action)
    requires Inv(x, c) && WatchesAClient(x) && Can(x, a)
    ensures WatchesAClient(Do(x, c, a))
  {
    if x.tick.Waiting? || x.tick.Held? || Giving(x.tick) { StillPromoted(x, c, x.tick.s, a); }
  }

  lemma {:induction false} WatchKeptByRun(x: State, c: Config, actions: seq<Action>)
    requires Inv(x, c) && WatchesAClient(x) && IsRun(x, c, actions)
    ensures WatchesAClient(After(x, c, actions))
    decreases |actions|
  {
    if actions != [] {
      Kept(x, c, actions[0]);
      WatchKept(x, c, actions[0]);
      WatchKeptByRun(Do(x, c, actions[0]), c, actions[1..]);
    }
  }

  // The heartbeat is giving s up, or has done so: the source was stopped, then s closed, then its slot cleared.
  predicate GivenUp(x: State, s: Id, quiet: bool)
    requires s < |x.sessions|
  {
    || x.tick == Stopping(s)
    || ((quiet ==> !x.running)
        && (|| x.tick == Shutting(s)
            || (x.tick == Clearing(s) && !x.sessions[s].open)
            || (!Giving(x.tick) && !x.sessions[s].open && x.slots.current != Some(s))))
  }

  lemma GivenUpKept(x: State, c: Config, s: Id, a: Action, quiet: bool)
    requires Inv(x, c) && Can(x, a) && s < |x.sessions| && x.sessions[s].promoted && GivenUp(x, s, quiet)
    requires !a.Decide? && (quiet ==> !a.Dispatch?)
    ensures s < |Do(x, c, a).sessions| && GivenUp(Do(x, c, a), s, quiet)
  {
    StillPromoted(x, c, s, a);
    if ByHeartbeat(a) { GivenUpByHeartbeat(x, c, s, a, quiet); } else { GivenUpMeanwhile(x, c, s, a, quiet); }
  }

  lemma GivenUpByHeartbeat(x: State, c: Config, s: Id, a: Action, quiet: bool)
    requires SlotsOk(x.slots, x.sessions) && Can(x, a) && s < |x.sessions| && x.sessions[s].promoted && GivenUp(x, s, quiet)
    requires ByHeartbeat(a) && !a.Decide?
    ensures s < |Do(x, c, a).sessions| && GivenUp(Do(x, c, a), s, quiet)
  {
  }

  // What others do meanwhile opens no session, and makes none the client that has been it before.
  lemma GivenUpMeanwhile(x: State, c: Config, s: Id, a: Action, quiet: bool)
    requires Inv(x, c) && Can(x, a) && s < |x.sessions| && x.sessions[s].promoted && GivenUp(x, s, quiet)
    requires !ByHeartbeat(a) && (quiet ==> !a.Dispatch?)
    ensures s < |Do(x, c, a).sessions| && GivenUp(Do(x, c, a), s, quiet)
  {
    if Do(x, c, a).slots.current != x.slots.current { ClientChanges(x, c, a); }
    StaysClosed(x, c, s, a);
  }

  lemma StaysClosed(x: State, c: Config, s: Id, a: Action)
    requires Can(x, a) && s < |x.sessions|
    ensures s < |Do(x, c, a).sessions| && (!x.sessions[s].open ==> !Do(x, c, a).sessions[s].open)
    ensures !ByHeartbeat(a) ==> Giving(Do(x, c, a).tick) == Giving(x.tick)
    ensures !ByHeartbeat(a) && Giving(x.tick) ==> Do(x, c, a).tick == x.tick
  {
  }

  lemma {:induction false} GivenUpKeptByRun(x: State, c: Config, s: Id, actions: seq<Action>, quiet: bool)
    requires Inv(x, c) && IsRun(x, c, actions) && s < |x.sessions| && x.sessions[s].promoted && GivenUp(x, s, quiet)
    requires forall a <- actions :: !a.Decide? && (quiet ==> !a.Dispatch?)
    ensures s < |After(x, c, actions).sessions| && GivenUp(After(x, c, actions), s, quiet)
    decreases |actions|
  {
    if actions != [] {
      assert actions[0] in actions && forall a <- actions[1..] :: a in actions;
      Kept(x, c, actions[0]);
      StillPromoted(x, c, s, actions[0]);
      GivenUpKept(x, c, s, actions[0], quiet);
      GivenUpKeptByRun(Do(x, c, actions[0]), c, s, actions[1..], quiet);
    }
  }

  // The heartbeat leaves s alone: only its own connection closes it, only promotions change the client, and only
  // commands and promotions what runs.
  lemma LeftAlone(x: State, c: Config, s: Id, a: Action)
    requires Inv(x, c) && Can(x, a) && s < |x.sessions| && x.sessions[s].promoted && !Giving(x.tick)
    requires !a.Decide? && a != Disconnect(s)
    ensures var y := Do(x, c, a);
            && s < |y.sessions| && y.sessions[s].open == x.sessions[s].open && !Giving(y.tick)
            && (!a.Promote? ==> y.slots.current == x.slots.current)
            && (!a.Dispatch? && !a.Reset? ==> y.running == x.running)
  {
    if ByHeartbeat(a) { LeftAloneByHeartbeat(x, c, s, a); } else { LeftAloneByOthers(x, c, s, a); }
  }

  lemma LeftAloneByHeartbeat(x: State, c: Config, s: Id, a: Action)
    requires SlotsOk(x.slots, x.sessions) && Can(x, a) && s < |x.sessions| && x.sessions[s].promoted && !Giving(x.tick)
    requires ByHeartbeat(a) && !a.Decide?
    ensures var y := Do(x, c, a);
            && s < |y.sessions| && y.sessions[s].open == x.sessions[s].open && !Giving(y.tick)
            && y.slots.current == x.slots.current && y.running == x.running
  {
  }

  lemma LeftAloneByOthers(x: State, c: Config, s: Id, a: Action)
    requires Can(x, a) && s < |x.sessions| && !Giving(x.tick) && !ByHeartbeat(a) && a != Disconnect(s)
    ensures var y := Do(x, c, a);
            && s < |y.sessions| && y.sessions[s].open == x.sessions[s].open && !Giving(y.tick)
            && (!a.Promote? ==> y.slots.current == x.slots.current)
            && (!a.Dispatch? && !a.Reset? ==> y.running == x.running)
  {
  }

  lemma {:induction false} LeftAloneInRun(x: State, c: Config, s: Id, actions: seq<Action>)
    requires Inv(x, c) && IsRun(x, c, actions) && s < |x.sessions| && x.sessions[s].promoted && !Giving(x.tick)
    requires forall a <- actions :: !a.Decide? && a != Disconnect(s)
    ensures var y := After(x, c, actions);
            && s < |y.sessions| && y.sessions[s].open == x.sessions[s].open && !Giving(y.tick)
            && ((forall a <- actions :: !a.Promote?) ==> y.slots.current == x.slots.current)
            && ((forall a <- actions :: !a.Dispatch? && !a.Reset?) ==> y.running == x.running)
    decreases |actions|
  {
    if actions != [] {
      assert actions[0] in actions && forall a <- actions[1..] :: a in actions;
      Kept(x, c, actions[0]);
      StillPromoted(x, c, s, actions[0]);
      LeftAlone(x, c, s, actions[0]);
      LeftAloneInRun(Do(x, c, actions[0]), c, s, actions[1..]);
    }
  }

  // In every run: once the heartbeat that looked at a session under the control lock is over, and before it
  // decides again, the session is closed if and only if it was late then, or its connection closed. A late one is
  // not the client, and what ran was stopped; otherwise the heartbeat changed neither the client nor what runs.
  lemma HeartbeatDecides(values: Values, c: Config, before: seq<Action>, timedOut: bool, rest: seq<Action>)
    requires IsRun(Started(values), c, before) && Can(After(Started(values), c, before), Decide(timedOut))
    requires IsRun(Do(After(Started(values), c, before), c, Decide(timedOut)), c, rest) && forall a <- rest :: !a.Decide?
    requires !Giving(After(Do(After(Started(values), c, before), c, Decide(timedOut)), c, rest).tick)
    requires Disconnect(After(Started(values), c, before).tick.s) !in rest
    ensures var x := After(Started(values), c, before);
            var s, y := x.tick.s, After(Do(x, c, Decide(timedOut)), c, rest);
            && s < |x.sessions| && s < |y.sessions|
            && (!y.sessions[s].open <==> Late(x, s, timedOut))
            && (Late(x, s, timedOut) ==> y.slots.current != Some(s))
            && (Late(x, s, timedOut) && (forall a <- rest :: !a.Dispatch?) ==> !y.running)
            && (!Late(x, s, timedOut) && (forall a <- rest :: !a.Promote?) ==> y.slots.current == x.slots.current)
            && (!Late(x, s, timedOut) && (forall a <- rest :: !a.Dispatch? && !a.Reset?) ==> y.running == x.running)
  {
    RunKept(Started(values), c, before);
    WatchKeptByRun(Started(values), c, before);
    var x := After(Started(values), c, before);
    var z, s := Do(x, c, Decide(timedOut)), x.tick.s;
    Kept(x, c, Decide(timedOut));
    if Late(x, s, timedOut) {
      GivenUpKeptByRun(z, c, s, rest, false);
      if forall a <- rest :: !a.Dispatch? { GivenUpKeptByRun(z, c, s, rest, true); }
    } else {
      LeftAloneInRun(z, c, s, rest);
    }
  }

  // What connections do to a session, and nothing else: a failure marks it as rejected, a disconnect closes it.
  lemma ConnectionsFail(x: State, c: Config, s: Id)
    requires s < |x.sessions|
    ensures var y := Do(x, c, Fail(s)); y == x.(sessions := y.sessions) && |y.sessions| == |x.sessions|
                                        && y.sessions[s].rejected && y.sessions[s] == x.sessions[s].(rejected := true)
                                        && forall i :: 0 <= i < |x.sessions| && i != s ==> y.sessions[i] == x.sessions[i]
    ensures var y := Do(x, c, Disconnect(s)); y == x.(sessions := y.sessions) && |y.sessions| == |x.sessions|
                                              && !y.sessions[s].open && y.sessions[s] == x.sessions[s].(open := false)
                                              && forall i :: 0 <= i < |x.sessions| && i != s ==> y.sessions[i] == x.sessions[i]
  {
  }

  // ---- the heartbeat goes round

  function Turn(tick: Tick): nat {
    match tick
    case AtRetired => 0
    case AtPending => 1
    case AtCurrent => 2
    case Waiting(_) => 3
    case Held(_) => 4
    case Stopping(_) => 5
    case Shutting(_) => 6
    case Clearing(_) => 7
  }

  // Each of its steps takes it further, up to the next round; a round ends early without a client, and after a look
  // at one that is not late.
  lemma HeartbeatGoesOn(x: State, c: Config, a: Action)
    requires Inv(x, c) && Can(x, a) && ByHeartbeat(a)
    ensures var y := Do(x, c, a);
            if a.LookForCurrent? && x.slots.current == None then y.tick == AtRetired
            else if a.Decide? && !Late(x, x.tick.s, a.timedOut) then y.tick == AtRetired && y.holder == Free
            else if a.ClearCurrent? then y.tick == AtRetired
            else Turn(y.tick) == Turn(x.tick) + 1
    ensures a.LookForCurrent? && x.slots.current.Some? ==> Do(x, c, a).tick == Waiting(x.slots.current.value)
    ensures a.TakeRetired? ==> Do(x, c, a) == x.(slots := x.slots.(retired := []), tick := AtPending)
  {
  }

  // It always has a step to take, once the control lock is free.
  lemma HeartbeatNeverStuck(x: State, c: Config) returns (a: Action)
    requires Inv(x, c) && x.holder == Free && !x.tick.Held?
    ensures Can(x, a) && ByHeartbeat(a)
  {
    a := match x.tick
         case AtRetired => TakeRetired
         case AtPending => ReapPending(false)
         case AtCurrent => LookForCurrent
         case Waiting(_) => LockForTick
         case Stopping(_) => StopSource
         case Shutting(_) => Shut
         case _ => ClearCurrent;
  }

  // ---- a healthy client

  predicate Healthy(x: State, s: Id) {
    s < |x.sessions| && x.sessions[s].promoted && x.sessions[s].open && !x.sessions[s].rejected && !GivesUp(x.tick, s)
  }

  // Nothing wrong with s: no write to it fails, its connection stays, and it answers in time.
  predicate Spares(a: Action, s: Id) { a != Fail(s) && a != Disconnect(s) && a != Decide(true) }

  lemma HealthyKept(x: State, c: Config, s: Id, a: Action)
    requires Inv(x, c) && Can(x, a) && Healthy(x, s) && Spares(a, s)
    ensures Healthy(Do(x, c, a), s)
  {
    StillPromoted(x, c, s, a);
    assert SessionOk(c, x.sessions[s], x.holder == Resetting(s));
  }

  // However long it stays, a healthy client is never closed by the heartbeat.
  lemma {:induction false} HealthyClientStaysOpen(x: State, c: Config, s: Id, actions: seq<Action>)
    requires Inv(x, c) && IsRun(x, c, actions) && Healthy(x, s) && forall a <- actions :: Spares(a, s)
    ensures Healthy(After(x, c, actions), s)
    decreases |actions|
  {
    if actions != [] {
      assert actions[0] in actions && forall a <- actions[1..] :: a in actions;
      Kept(x, c, actions[0]);
      HealthyKept(x, c, s, actions[0]);
      HealthyClientStaysOpen(Do(x, c, actions[0]), c, s, actions[1..]);
    }
  }

  // A new client is healthy if and only if it is open and was never turned down.
  lemma NewClientIsHealthy(x: State, c: Config)
    requires Inv(x, c) && WatchesAClient(x) && Can(x, Promote) && Promotes(x, Promote)
    ensures var s := x.holder.s; Healthy(Do(x, c, Promote), s) <==> x.sessions[s].open && !x.sessions[s].rejected
  {
  }

  // One that answered its challenge wrongly, and rightly before the heartbeat came to reap it, is not: it becomes
  // the client, and is given up although its connection stays, no write fails and it is never late.
  lemma TurnedDownThenPromoted(values: Values, c: Config) returns (actions: seq<Action>, y: State)
    requires c.authRequired
    ensures IsRun(Started(values), c, actions) && After(Started(values), c, actions) == y
    ensures forall a <- actions :: Spares(a, 0)
    ensures y.slots.current == Some(0) && y.tick == Stopping(0) && |y.sessions| == 1 && y.sessions[0].open
  {
    var x := Started(values);
    actions, y := AnswersTwice(values, c);
    actions, y := TakesOverAnyway(values, c, actions, y);
    actions, y := Then(x, c, actions, y, TakeRetired);
    actions, y := Then(x, c, actions, y, ReapPending(false));
    actions, y := Then(x, c, actions, y, LookForCurrent);
    actions, y := Then(x, c, actions, y, LockForTick);
    actions, y := TickFinds(values, c, actions, y);
  }

  lemma AnswersTwice(values: Values, c: Config) returns (actions: seq<Action>, y: State)
    requires c.authRequired
    ensures IsRun(Started(values), c, actions) && After(Started(values), c, actions) == y && forall a <- actions :: Spares(a, 0)
    ensures y.holder == Promoting(0) && |y.sessions| == 1 && y.sessions[0].rejected && y.sessions[0].open
    ensures y.slots == Slots(None, Some(0), []) && y.tick == AtRetired && !y.running
  {
    var right := c.expected(0);
    actions, y := AsksToEnter(values, c);
    actions, y := Then(Started(values), c, actions, y, Gate(0, AuthResponse(right + 1, false)));
    actions, y := Then(Started(values), c, actions, y, Gate(0, AuthResponse(right, false)));
  }

  // A newcomer says hello and is sent challenge 0.
  lemma AsksToEnter(values: Values, c: Config) returns (actions: seq<Action>, y: State)
    requires c.authRequired
    ensures IsRun(Started(values), c, actions) && After(Started(values), c, actions) == y && forall a <- actions :: Spares(a, 0)
    ensures y == Started(values).(sessions := [NEWCOMER.(helloDone := true, ready := true, challenge := Some(0))],
                                 slots := Slots(None, Some(0), []))
  {
    actions, y := Then(Started(values), c, [], Started(values), Accept);
    actions, y := Then(Started(values), c, actions, y, Publish);
    assert y == Started(values).(sessions := [NEWCOMER], slots := Slots(None, Some(0), []));
    actions, y := Then(Started(values), c, actions, y, Hello(0, true, true));
    actions, y := Then(Started(values), c, actions, y, Activate(0));
  }

  lemma TakesOverAnyway(values: Values, c: Config, before: seq<Action>, y: State) returns (actions: seq<Action>, z: State)
    requires IsRun(Started(values), c, before) && After(Started(values), c, before) == y && forall a <- before :: Spares(a, 0)
    requires y.holder == Promoting(0) && |y.sessions| == 1 && y.sessions[0].rejected && y.sessions[0].open
    requires y.slots == Slots(None, Some(0), []) && y.tick == AtRetired && !y.running
    ensures IsRun(Started(values), c, actions) && After(Started(values), c, actions) == z && forall a <- actions :: Spares(a, 0)
    ensures z.holder == Free && |z.sessions| == 1 && z.sessions[0].rejected && z.sessions[0].open
    ensures z.slots == Slots(Some(0), None, []) && z.tick == AtRetired
  {
    actions, z := Then(Started(values), c, before, y, Promote);
    actions, z := Then(Started(values), c, actions, z, Reset);
  }

  lemma TickFinds(values: Values, c: Config, before: seq<Action>, y: State) returns (actions: seq<Action>, z: State)
    requires IsRun(Started(values), c, before) && After(Started(values), c, before) == y && forall a <- before :: Spares(a, 0)
    requires y.holder == FlushLook(true) && y.tick == Held(0) && |y.sessions| == 1 && y.sessions[0].rejected && y.sessions[0].open
    requires y.slots.current == Some(0)
    ensures IsRun(Started(values), c, actions) && After(Started(values), c, actions) == z && forall a <- actions :: Spares(a, 0)
    ensures z.slots.current == Some(0) && z.tick == Stopping(0) && |z.sessions| == 1 && z.sessions[0].open
  {
    actions, z := Then(Started(values), c, before, y, LookForFlush);
    actions, z := Then(Started(values), c, actions, z, SendFlush);
    actions, z := Then(Started(values), c, actions, z, Decide(false));
  }
}
