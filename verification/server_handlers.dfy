// The handlers of a session's packets as the original runs them, each under the control lock from its first to
// its last line. Undisturbed, a handler does what its steps do one after the other.
module ServerHandlers {
  import opened Options
  import opened ServerSessions

  // The steps of a hello, as far as they get.
  function AfterHello(x: State, c: Config, s: Id, compatible: bool, canAuth: bool, challenge: Challenge): State
    requires Can(x, Hello(s, compatible, canAuth))
  {
    var greeted := Do(x, c, Hello(s, compatible, canAuth));
    if !Can(greeted, Activate(challenge)) then greeted else Finished(Do(greeted, c, Activate(challenge)), c)
  }

  // A promotion under way is completed: promoted and reset, or turned down.
  function Finished(x: State, c: Config): State {
    if !Can(x, Promote) then x
    else
      var promoted := Do(x, c, Promote);
      if Can(promoted, Reset) then Do(promoted, c, Reset) else promoted
  }

  // The steps of a command, with the flush that follows one that got past the gate.
  function AfterCommand(x: State, c: Config, s: Id, cmd: Command): State
    requires Can(x, Gate(s, cmd))
  {
    var gated := Do(x, c, Gate(s, cmd));
    if Can(gated, Dispatch) then FlushedAll(Do(gated, c, Dispatch), c) else Finished(gated, c)
  }

  function FlushedAll(x: State, c: Config): State {
    if !Can(x, LookForFlush) then x
    else
      var looked := Do(x, c, LookForFlush);
      if Can(looked, SendFlush) then Do(looked, c, SendFlush) else looked
  }

  lemma FinishedKept(x: State, c: Config)
    requires Inv(x, c) && (x.holder.Free? || x.holder.Promoting?)
    ensures Inv(Finished(x, c), c) && Finished(x, c).holder == Free
  {
    if Can(x, Promote) {
      Kept(x, c, Promote);
      var promoted := Do(x, c, Promote);
      if Can(promoted, Reset) { Kept(promoted, c, Reset); }
    }
  }

  lemma FlushedAllKept(x: State, c: Config)
    requires Inv(x, c) && x.holder == FlushLook(false)
    ensures Inv(FlushedAll(x, c), c) && FlushedAll(x, c).holder == Free
  {
    Kept(x, c, LookForFlush);
    var looked := Do(x, c, LookForFlush);
    if Can(looked, SendFlush) { Kept(looked, c, SendFlush); }
  }

  // A handler starts and ends with the control lock free, and keeps the invariant.
  lemma HelloKeeps(x: State, c: Config, s: Id, compatible: bool, canAuth: bool, challenge: Challenge)
    requires Inv(x, c) && Can(x, Hello(s, compatible, canAuth))
    ensures var y := AfterHello(x, c, s, compatible, canAuth, challenge); Inv(y, c) && y.holder == Free
  {
    Kept(x, c, Hello(s, compatible, canAuth));
    var greeted := Do(x, c, Hello(s, compatible, canAuth));
    if Can(greeted, Activate(challenge)) {
      Kept(greeted, c, Activate(challenge));
      FinishedKept(Do(greeted, c, Activate(challenge)), c);
    }
  }

  lemma CommandKeeps(x: State, c: Config, s: Id, cmd: Command)
    requires Inv(x, c) && Can(x, Gate(s, cmd))
    ensures var y := AfterCommand(x, c, s, cmd); Inv(y, c) && y.holder == Free
  {
    Kept(x, c, Gate(s, cmd));
    var gated := Do(x, c, Gate(s, cmd));
    if Can(gated, Dispatch) {
      Kept(gated, c, Dispatch);
      if cmd != Malformed { FlushedAllKept(Do(gated, c, Dispatch), c); }
    } else {
      FinishedKept(gated, c);
    }
  }

  // ---- what the client and everybody else observe

  ghost predicate OthersUntouched(x: State, y: State, s: Id) {
    |y.sessions| == |x.sessions| && forall i :: 0 <= i < |x.sessions| && i != s ==> y.sessions[i] == x.sessions[i]
  }

  // The session is turned down, and that is all.
  ghost predicate TurnedDown(x: State, y: State, s: Id)
    requires s < |x.sessions|
  {
    && OthersUntouched(x, y, s) && y.sessions[s].rejected && !y.sessions[s].promoted
    && y.slots == x.slots && y.running == x.running && y.pushing == x.pushing
  }

  // The session is the client: nothing runs, it has been sent every value, and the one before it is retired.
  ghost predicate TakenOver(x: State, y: State, s: Id)
    requires s < |x.sessions|
  {
    && OthersUntouched(x, y, s) && y.sessions[s].ready && y.sessions[s].authenticated
    && y.slots.current == Some(s) && y.slots.pending == None && !y.running
    && y.slots.retired == x.slots.retired + (if x.slots.current.Some? then [x.slots.current.value] else [])
    && y.sessions[s].seen == y.pushing.values == x.pushing.values && !y.pushing.rateDirty && !y.pushing.limitsDirty
  }

  // A promotion is turned down exactly if an open client streams.
  lemma PromotionOutcome(x: State, c: Config, s: Id)
    requires x.holder == Promoting(s) && s < |x.sessions| && !x.sessions[s].promoted
    requires x.slots.pending == Some(s) && x.slots.current != Some(s)
    ensures if Busy(x) then TurnedDown(x, Finished(x, c), s) else TakenOver(x, Finished(x, c), s)
  {
  }

  lemma HelloRefused(x: State, c: Config, s: Id, compatible: bool, canAuth: bool, challenge: Challenge)
    requires Inv(x, c) && Can(x, Hello(s, compatible, canAuth))
    requires !compatible || (c.authRequired && !canAuth) || !IsActive(x.slots, s)
    ensures TurnedDown(x, AfterHello(x, c, s, compatible, canAuth, challenge), s)
  {
    assert SessionOk(c, x.sessions[s], false);
  }

  // A hello is turned down unless it is compatible, able to answer and from a session still wanted. With a
  // password it is then asked the challenge and displaces nobody; without one it takes over, unless an open
  // client streams.
  lemma HelloOutcome(x: State, c: Config, s: Id, compatible: bool, canAuth: bool, challenge: Challenge)
    requires Inv(x, c) && Can(x, Hello(s, compatible, canAuth))
    ensures var y := AfterHello(x, c, s, compatible, canAuth, challenge);
            if !compatible || (c.authRequired && !canAuth) || !IsActive(x.slots, s) then TurnedDown(x, y, s)
            else if c.authRequired then
              && OthersUntouched(x, y, s) && y.slots == x.slots && y.running == x.running && y.pushing == x.pushing
              && y.sessions[s].ready && !y.sessions[s].authenticated && y.sessions[s].challenge == Some(challenge)
            else if Busy(x) then TurnedDown(x, y, s)
            else TakenOver(x, y, s)
  {
    if !compatible || (c.authRequired && !canAuth) || !IsActive(x.slots, s) {
      HelloRefused(x, c, s, compatible, canAuth, challenge);
    } else {
      assert SessionOk(c, x.sessions[s], false);
      var activated := Activated(x, c, s, challenge);
      if !c.authRequired { PromotionOutcome(activated, c, s); }
    }
  }

  // Whether a command is the right answer to the session's own challenge, given in time.
  predicate Answers(c: Config, s: Session, cmd: Command) {
    cmd.AuthResponse? && !cmd.throttled && s.challenge.Some? && cmd.mac == c.expected(s.challenge.value)
  }

  // Before its handshake is over a session can only answer its challenge: rightly, and it takes over unless
  // an open client streams; wrongly, and it is turned down.
  lemma AnswerOutcome(x: State, c: Config, s: Id, cmd: Command)
    requires Inv(x, c) && Can(x, Gate(s, cmd)) && x.slots.current != Some(s)
    ensures var y := AfterCommand(x, c, s, cmd);
            if !IsActive(x.slots, s) || !cmd.AuthResponse? then y == x
            else if Answers(c, x.sessions[s], cmd) && !Busy(x) then TakenOver(x, y, s)
            else TurnedDown(x, y, s)
  {
    assert SessionOk(c, x.sessions[s], false);
    if IsActive(x.slots, s) && Answers(c, x.sessions[s], cmd) { PromotionOutcome(Gated(x, c, s, cmd), c, s); }
  }

  // The client's commands start and stop the source; each but a malformed one leaves an open client with
  // every value sent and no mark, and nothing changes for anybody else.
  lemma ClientCommandOutcome(x: State, c: Config, s: Id, cmd: Command)
    requires Inv(x, c) && Can(x, Gate(s, cmd)) && x.slots.current == Some(s)
    ensures var y := AfterCommand(x, c, s, cmd);
            && OthersUntouched(x, y, s) && y.slots == x.slots && y.pushing.values == x.pushing.values
            && y.running == (if cmd == Start then true else if cmd == Stop then false else x.running)
            && (if cmd != Malformed && x.sessions[s].open
                then y.sessions[s].seen == x.pushing.values && !y.pushing.rateDirty && !y.pushing.limitsDirty
                else y.sessions == x.sessions && y.pushing == x.pushing)
  {
    assert SessionOk(c, x.sessions[s], false);
  }

  // A flush sends an open client exactly what is marked and clears the marks; without one nothing is done.
  lemma FlushOutcome(x: State, c: Config)
    requires Can(x, LookForFlush)
    ensures var y := FlushedAll(x, c);
            && y.slots == x.slots && y.running == x.running && y.pushing.values == x.pushing.values && |y.sessions| == |x.sessions|
            && (!IsOpen(x.sessions, x.slots.current) ==> y.sessions == x.sessions && y.pushing == x.pushing)
            && (IsOpen(x.sessions, x.slots.current) ==>
                  var s := x.slots.current.value;
                  var was, now := x.sessions[s], y.sessions[s];
                  && !y.pushing.rateDirty && !y.pushing.limitsDirty && OthersUntouched(x, y, s) && now == was.(seen := now.seen)
                  && now.seen.rate == (if x.pushing.rateDirty then x.pushing.values.rate else was.seen.rate)
                  && now.seen.limits == (if x.pushing.limitsDirty then x.pushing.values.limits else was.seen.limits))
  {
  }

  // What a source module records is marked, and the next flush sends it to an open client.
  lemma RecordedIsSent(x: State, c: Config, rate: nat, limits: nat)
    requires IsOpen(x.sessions, x.slots.current)
    ensures var y := Do(Do(x, c, RecordRate(rate)), c, RecordLimits(limits));
            var z := FlushedAll(y.(holder := FlushLook(false)), c);
            && y.pushing == Pushing(Values(rate, limits), true, true) && y == x.(pushing := y.pushing)
            && z.sessions[x.slots.current.value].seen == Values(rate, limits)
            && !z.pushing.rateDirty && !z.pushing.limitsDirty
    ensures Do(x, c, RecordRate(rate)).pushing == x.pushing.(values := x.pushing.values.(rate := rate), rateDirty := true)
    ensures Do(x, c, RecordLimits(limits)).pushing == x.pushing.(values := x.pushing.values.(limits := limits), limitsDirty := true)
  {
    FlushOutcome(Do(Do(x, c, RecordRate(rate)), c, RecordLimits(limits)).(holder := FlushLook(false)), c);
  }

  class Server {
    const config: Config
    const slots: SessionSlots
    const pushed: PushedState
    var sessions: seq<Session>
    var running: bool

    // What the handlers see and change; the other threads stand still.
    ghost function Abs(): State
      reads this, slots, pushed
    {
      State(sessions, slots.Abs(), running, pushed.Abs(), Free, AtRetired, Listening)
    }

    ghost predicate Knows(s: Id)
      reads this
    {
      s < |sessions|
    }

    constructor (config: Config, start: Values)
      ensures Abs() == Started(start) && this.config == config && fresh(slots) && fresh(pushed)
    {
      this.config := config;
      slots := new SessionSlots();
      pushed := new PushedState(start);
      sessions, running := [], false;
    }

    method Reject(s: Id)
      requires Knows(s)
      modifies this`sessions
      ensures Abs() == Rejected(old(Abs()), s)
    {
      sessions := sessions[s := sessions[s].(rejected := true)];
    }

    method SendInitialState(s: Id)
      requires Knows(s)
      modifies this`sessions, pushed
      ensures pushed.Abs() == old(pushed.Abs()).(rateDirty := false, limitsDirty := false)
      ensures sessions == old(sessions)[s := old(sessions)[s].(seen := pushed.values)]
    {
      sessions := sessions[s := sessions[s].(seen := pushed.values)];
      pushed.rateDirty, pushed.limitsDirty := false, false;
    }

    method PromoteAndReset(s: Id) returns (ok: bool)
      requires Knows(s)
      modifies this`sessions, this`running, slots
      ensures ok == MayPromote(old(slots.Abs()), s, Busy(old(Abs())))
      ensures slots.Abs() == if ok then Promoted(old(slots.Abs()), s) else old(slots.Abs())
      ensures running == (!ok && old(running))
      ensures sessions == if ok then old(sessions)[s := old(sessions)[s].(promoted := true)] else old(sessions)
    {
      var open := slots.current.Some? && slots.current.value < |sessions| && sessions[slots.current.value].open;
      ok := slots.PromoteSession(s, open && running);
      if !ok { return; }
      sessions := sessions[s := sessions[s].(promoted := true)];
      running := false;
    }

    // What ends both kinds of handshake.
    method BecomeClient(s: Id) returns (ok: bool)
      requires Knows(s)
      modifies this`sessions, this`running, slots, pushed
      ensures Abs() == Finished(old(Abs()).(holder := Promoting(s)), config)
      ensures ok == MayPromote(old(slots.Abs()), s, Busy(old(Abs())))
    {
      ok := PromoteAndReset(s);
      if !ok {
        Reject(s);
        return;
      }
      sessions := sessions[s := sessions[s].(authenticated := true, ready := true)];
      SendInitialState(s);
    }

    method ActivateSession(s: Id, challenge: Challenge) returns (ok: bool)
      requires Knows(s) && IsActive(slots.Abs(), s)
      modifies this`sessions, this`running, slots, pushed
      ensures Abs() == Finished(Activated(old(Abs()), config, s, challenge), config)
    {
      sessions := sessions[s := sessions[s].(helloDone := true)];
      if config.authRequired {
        sessions := sessions[s := sessions[s].(ready := true, challenge := Some(challenge))];
        return true;
      }
      ok := BecomeClient(s);
    }

    method HandleHello(s: Id, compatible: bool, canAuth: bool, challenge: Challenge) returns (ok: bool)
      requires Knows(s) && Can(Abs(), Hello(s, compatible, canAuth))
      modifies this`sessions, this`running, slots, pushed
      ensures Abs() == AfterHello(old(Abs()), config, s, compatible, canAuth, challenge)
    {
      if !compatible || (config.authRequired && !canAuth) {
        Reject(s);
        return false;
      }
      var active := slots.IsActiveSession(s);
      if !active {
        Reject(s);
        return false;
      }
      ok := ActivateSession(s, challenge);
    }

    method FlushPushedState()
      modifies this`sessions, pushed
      ensures Abs() == FlushedAll(old(Abs()).(holder := FlushLook(false)), config)
    {
      var current := slots.current;
      if current.None? || current.value >= |sessions| || !sessions[current.value].open { return; }
      var s := current.value;
      var now := pushed.Flush(sessions[s].seen);
      sessions := sessions[s := sessions[s].(seen := now)];
    }

    method CommandHandler(s: Id, cmd: Command)
      requires Knows(s) && Can(Abs(), Gate(s, cmd))
      modifies this`sessions, this`running, slots, pushed
      ensures Abs() == AfterCommand(old(Abs()), config, s, cmd)
    {
      var active := slots.IsActiveSession(s);
      if !active { return; }
      if config.authRequired && !sessions[s].authenticated {
        if !cmd.AuthResponse? { return; }
        var ok := !cmd.throttled && sessions[s].challenge.Some? && cmd.mac == config.expected(sessions[s].challenge.value);
        if !ok {
          Reject(s);
          return;
        }
        sessions := sessions[s := sessions[s].(answer := Some(cmd.mac))];
        var _ := BecomeClient(s);
        return;
      }
      if cmd == Malformed { return; }
      if cmd == Start {
        running := true;
      } else if cmd == Stop {
        running := false;
      }
      FlushPushedState();
    }

    // ---- the sections of the accept thread, the heartbeat and the source modules

    // A newcomer takes the pending slot, from another newcomer at most.
    method PublishNewcomer() returns (dropped: Option<Id>)
      modifies this`sessions, slots
      ensures Abs() == Do(old(Abs()).(acceptor := Publishing), config, Publish)
      ensures dropped == old(slots.pending)
    {
      dropped := slots.PublishPending(|sessions|);
      sessions := sessions + [NEWCOMER];
    }

    method TakeRetiredSessions() returns (retired: seq<Id>)
      modifies slots
      ensures Abs().(tick := AtPending) == Do(old(Abs()), config, TakeRetired) && retired == old(slots.retired)
    {
      retired := slots.TakeRetired();
    }

    // The pending session goes if it was rejected, is closed, or has taken too long.
    method ReapPendingSession(expired: bool)
      requires slots.pending.Some? ==> Knows(slots.pending.value)
      modifies this`sessions, slots
      ensures Abs().(tick := AtCurrent) == Do(old(Abs()).(tick := AtPending), config, ReapPending(expired))
    {
      var pending := slots.pending;
      var dead := pending.Some? && (sessions[pending.value].rejected || !sessions[pending.value].open || expired);
      var reaped := slots.ReapPending(dead);
      if reaped.Some? {
        sessions := sessions[reaped.value := sessions[reaped.value].(open := false)];
      }
    }

    // The last two steps of a heartbeat that gives a session up.
    method CloseSession(s: Id)
      requires Knows(s)
      modifies this`sessions, slots
      ensures var shut := Do(old(Abs()).(tick := Shutting(s)), config, Shut); Abs() == Do(shut, config, ClearCurrent)
    {
      sessions := sessions[s := sessions[s].(open := false)];
      slots.ClearIfCurrent(s);
    }

    method SetInputSampleRate(rate: nat)
      modifies pushed
      ensures Abs() == Do(old(Abs()), config, RecordRate(rate))
    {
      pushed.SetSampleRate(rate);
    }

    method SetTuningLimits(limits: nat)
      modifies pushed
      ensures Abs() == Do(old(Abs()), config, RecordLimits(limits))
    {
      pushed.SetTuningLimits(limits);
    }
  }
}
