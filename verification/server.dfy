// The server's session protocol: one client at a time, newcomers that must finish their handshake before
// they take its place, and a heartbeat that clears away what is dead. A step is one section under the
// session lock, or the start or end of a stretch under the control lock.
module ServerSessions {
  import opened Options

  type Id = nat

  type Challenge = nat

  type Mac = nat

  // The fixed part: whether a password is asked for, and what the right answer to a challenge is.
  datatype Config = Config(authRequired: bool, expected: Challenge -> Mac)

  datatype Values = Values(rate: nat, limits: nat)

  // What the server knows of a connection. `helloDone`, `answer`, `promoted` and `seen` record its history:
  // a compatible hello, the accepted answer, whether it was ever made the client, the values last sent to it.
  datatype Session = Session(
    open: bool, ready: bool, authenticated: bool, rejected: bool, challenge: Option<Challenge>,
    helloDone: bool, answer: Option<Mac>, promoted: bool, seen: Values)

  const NEWCOMER := Session(true, false, false, false, None, false, None, false, Values(0, 0))

  // ---- the slots, guarded by the session lock

  datatype Slots = Slots(current: Option<Id>, pending: Option<Id>, retired: seq<Id>)

  predicate IsActive(slots: Slots, s: Id) { slots.current == Some(s) || slots.pending == Some(s) }

  predicate IsOpen(sessions: seq<Session>, s: Option<Id>) { s.Some? && s.value < |sessions| && sessions[s.value].open }

  // Whether promotion succeeds: for the client itself, and for the pending session unless an open client streams.
  predicate MayPromote(slots: Slots, s: Id, busy: bool) {
    slots.current == Some(s) || (slots.pending == Some(s) && !busy)
  }

  function Promoted(slots: Slots, s: Id): Slots {
    if slots.current == Some(s) then slots
    else Slots(Some(s), None, if slots.current.Some? then slots.retired + [slots.current.value] else slots.retired)
  }

  // Each session is in at most one slot, and only promoted ones are anywhere but pending.
  ghost predicate SlotsOk(slots: Slots, sessions: seq<Session>) {
    && (slots.current.Some? ==> slots.current.value < |sessions| && sessions[slots.current.value].promoted)
    && (slots.pending.Some? ==> slots.pending.value < |sessions| && !sessions[slots.pending.value].promoted)
    && (forall i :: 0 <= i < |slots.retired| ==>
          slots.retired[i] < |sessions| && sessions[slots.retired[i]].promoted && slots.current != Some(slots.retired[i]))
    && forall i, j :: 0 <= i < j < |slots.retired| ==> slots.retired[i] != slots.retired[j]
  }

  // The slots as the original keeps them; every method is one section under the session lock.
  class SessionSlots {
    var current: Option<Id>
    var pending: Option<Id>
    var retired: seq<Id>

    ghost function Abs(): Slots
      reads this
    {
      Slots(current, pending, retired)
    }

    constructor ()
      ensures Abs() == Slots(None, None, [])
    {
      current, pending, retired := None, None, [];
    }

    method PublishPending(s: Id) returns (dropped: Option<Id>)
      modifies this
      ensures Abs() == old(Abs()).(pending := Some(s)) && dropped == old(pending)
    {
      dropped := pending;
      pending := Some(s);
    }

    // `busy`: the current session is open and streams.
    method PromoteSession(s: Id, busy: bool) returns (ok: bool)
      requires busy ==> current.Some?
      modifies this
      ensures ok == MayPromote(old(Abs()), s, busy)
      ensures Abs() == if ok then Promoted(old(Abs()), s) else old(Abs())
    {
      if current == Some(s) { return true; }
      if pending != Some(s) { return false; }
      if current.Some? && busy { return false; }
      if current.Some? {
        retired := retired + [current.value];
      }
      current := pending;
      pending := None;
      return true;
    }

    method IsActiveSession(s: Id) returns (active: bool)
      ensures active == IsActive(Abs(), s)
    {
      return current == Some(s) || pending == Some(s);
    }

    method TakeRetired() returns (r: seq<Id>)
      modifies this
      ensures Abs() == old(Abs()).(retired := []) && r == old(retired)
    {
      r := retired;
      retired := [];
    }

    method ReapPending(dead: bool) returns (reaped: Option<Id>)
      modifies this
      ensures Abs() == if dead then old(Abs()).(pending := None) else old(Abs())
      ensures reaped == if dead then old(pending) else None
    {
      reaped := None;
      if pending.Some? && dead {
        reaped := pending;
        pending := None;
      }
    }

    method ClearIfCurrent(s: Id)
      modifies this
      ensures Abs() == if old(current) == Some(s) then old(Abs()).(current := None) else old(Abs())
    {
      if current == Some(s) {
        current := None;
      }
    }
  }

  // ---- the whole server

  // Sample rate and tuning limits, and whether the client has yet to be told.
  datatype Pushing = Pushing(values: Values, rateDirty: bool, limitsDirty: bool)

  // The values and the marks as the original keeps them, under a lock of their own.
  class PushedState {
    var values: Values
    var rateDirty: bool
    var limitsDirty: bool

    ghost function Abs(): Pushing
      reads this
    {
      Pushing(values, rateDirty, limitsDirty)
    }

    constructor (start: Values)
      ensures Abs() == Pushing(start, false, false)
    {
      values, rateDirty, limitsDirty := start, false, false;
    }

    method SetSampleRate(rate: nat)
      modifies this
      ensures Abs() == old(Abs()).(values := old(values).(rate := rate), rateDirty := true)
    {
      values := values.(rate := rate);
      rateDirty := true;
    }

    method SetTuningLimits(limits: nat)
      modifies this
      ensures Abs() == old(Abs()).(values := old(values).(limits := limits), limitsDirty := true)
    {
      values := values.(limits := limits);
      limitsDirty := true;
    }

    // What a client that has seen `seen` knows after a flush.
    method Flush(seen: Values) returns (now: Values)
      modifies this
      ensures Abs() == Pushing(old(values), false, false)
      ensures UpToDate(old(Abs()), seen) ==> now == values
      ensures now.rate == (if old(rateDirty) then values.rate else seen.rate)
      ensures now.limits == if old(limitsDirty) then values.limits else seen.limits
    {
      var sendRate, sendLimits := rateDirty, limitsDirty;
      rateDirty, limitsDirty := false, false;
      now := seen;
      if sendRate {
        now := now.(rate := values.rate);
      }
      if sendLimits {
        now := now.(limits := values.limits);
      }
    }
  }

  // `Malformed` stands for arguments that cannot be read: such a command ends before the values are flushed.
  datatype Command = Start | Stop | Other | Malformed | AuthResponse(mac: Mac, throttled: bool)

  // Who holds the control lock, and how far they are.
  datatype Holder =
    | Free
    | Greeting(s: Id)
    | Promoting(s: Id)
    | Resetting(s: Id)
    | Dispatching(s: Id, cmd: Command)
    | FlushLook(byTick: bool)
    | FlushSend(byTick: bool, to: Id)
    | Deciding

  // How far the heartbeat is.
  datatype Tick =
    | AtRetired
    | AtPending
    | AtCurrent
    | Waiting(s: Id)
    | Held(s: Id)
    | Stopping(s: Id)
    | Shutting(s: Id)
    | Clearing(s: Id)

  datatype Acceptor = Listening | Checking | Publishing

  datatype State = State(
    sessions: seq<Session>, slots: Slots, running: bool, pushing: Pushing,
    holder: Holder, tick: Tick, acceptor: Acceptor)

  // `Fail` is a session marked as rejected without the control lock: a write to it failed, or it announced a
  // packet of an impossible size.
  datatype Action =
    | Accept
    | CheckBusy
    | Publish
    | Hello(s: Id, compatible: bool, canAuth: bool)
    | Activate(challenge: Challenge)
    | Promote
    | Reset
    | Gate(s: Id, cmd: Command)
    | Dispatch
    | LookForFlush
    | SendFlush
    | TakeRetired
    | ReapPending(expired: bool)
    | LookForCurrent
    | LockForTick
    | Decide(timedOut: bool)
    | StopSource
    | Shut
    | ClearCurrent
    | Disconnect(s: Id)
    | Fail(s: Id)
    | RecordRate(rate: nat)
    | RecordLimits(limits: nat)

  predicate Can(x: State, a: Action) {
    match a
    case Accept => x.acceptor == Listening
    case CheckBusy => x.acceptor == Checking && x.holder == Free
    case Publish => x.acceptor == Publishing
    case Hello(s, _, _) => x.holder == Free && s < |x.sessions| && !x.sessions[s].ready && !x.sessions[s].rejected
    case Activate(_) => x.holder.Greeting? && x.holder.s < |x.sessions|
    case Promote => x.holder.Promoting? && x.holder.s < |x.sessions|
    case Reset => x.holder.Resetting? && x.holder.s < |x.sessions|
    case Gate(s, _) => x.holder == Free && s < |x.sessions| && x.sessions[s].ready
    case Dispatch => x.holder.Dispatching?
    case LookForFlush => x.holder.FlushLook?
    case SendFlush => x.holder.FlushSend? && x.holder.to < |x.sessions|
    case TakeRetired => x.tick == AtRetired
    case ReapPending(_) => x.tick == AtPending
    case LookForCurrent => x.tick == AtCurrent
    case LockForTick => x.tick.Waiting? && x.holder == Free
    case Decide(_) => x.holder == Deciding && x.tick.Held? && x.tick.s < |x.sessions|
    case StopSource => x.tick.Stopping? && x.holder == Free
    case Shut => x.tick.Shutting? && x.tick.s < |x.sessions|
    case ClearCurrent => x.tick.Clearing?
    case Disconnect(s) => s < |x.sessions|
    case Fail(s) => s < |x.sessions|
    case RecordRate(_) => true
    case RecordLimits(_) => true
  }

  function With(x: State, s: Id, session: Session): State
    requires s < |x.sessions|
  {
    x.(sessions := x.sessions[s := session])
  }

  function Busy(x: State): bool { IsOpen(x.sessions, x.slots.current) && x.running }

  function Rejected(x: State, s: Id): State
    requires s < |x.sessions|
  {
    With(x, s, x.sessions[s].(rejected := true)).(holder := Free)
  }

  // The compatible hello of a session that is still wanted.
  function Activated(x: State, c: Config, s: Id, challenge: Challenge): State
    requires s < |x.sessions|
  {
    var session := x.sessions[s].(helloDone := true);
    if !IsActive(x.slots, s) then Rejected(x, s)
    else if c.authRequired then With(x, s, session.(ready := true, challenge := Some(challenge))).(holder := Free)
    else With(x, s, session).(holder := Promoting(s))
  }

  function PromotedState(x: State, s: Id): State
    requires s < |x.sessions|
  {
    if !MayPromote(x.slots, s, Busy(x)) then Rejected(x, s)
    else With(x, s, x.sessions[s].(promoted := true)).(slots := Promoted(x.slots, s), holder := Resetting(s))
  }

  // The new client's settings are reset and it is sent all values.
  function ResetState(x: State, s: Id): State
    requires s < |x.sessions|
  {
    With(x, s, x.sessions[s].(ready := true, authenticated := true, seen := x.pushing.values))
    .(running := false, pushing := x.pushing.(rateDirty := false, limitsDirty := false), holder := Free)
  }

  // Where every command enters.
  function Gated(x: State, c: Config, s: Id, cmd: Command): State
    requires s < |x.sessions|
  {
    var session := x.sessions[s];
    if !IsActive(x.slots, s) then x
    else if c.authRequired && !session.authenticated then
      if !cmd.AuthResponse? then x
      else if cmd.throttled || session.challenge.None? || cmd.mac != c.expected(session.challenge.value) then Rejected(x, s)
      else With(x, s, session.(answer := Some(cmd.mac))).(holder := Promoting(s))
    else x.(holder := Dispatching(s, cmd))
  }

  function Flushed(x: State, byTick: bool): State { x.(holder := if byTick then Deciding else Free) }

  function SentFlush(x: State, byTick: bool, to: Id): State
    requires to < |x.sessions|
  {
    var p, seen := x.pushing, x.sessions[to].seen;
    var now := Values(if p.rateDirty then p.values.rate else seen.rate, if p.limitsDirty then p.values.limits else seen.limits);
    Flushed(With(x, to, x.sessions[to].(seen := now)).(pushing := p.(rateDirty := false, limitsDirty := false)), byTick)
  }

  function Reaped(x: State, expired: bool): State {
    var p := x.slots.pending;
    if p.Some? && p.value < |x.sessions| && (x.sessions[p.value].rejected || !x.sessions[p.value].open || expired)
    then With(x, p.value, x.sessions[p.value].(open := false)).(slots := x.slots.(pending := None), tick := AtCurrent)
    else x.(tick := AtCurrent)
  }

  function Do(x: State, c: Config, a: Action): State
    requires Can(x, a)
  {
    match a
    case Accept => x.(acceptor := if IsOpen(x.sessions, x.slots.current) then Checking else Publishing)
    case CheckBusy => x.(acceptor := if x.running then Listening else Publishing)
    case Publish =>
      x.(sessions := x.sessions + [NEWCOMER], slots := x.slots.(pending := Some(|x.sessions|)), acceptor := Listening)
    case Hello(s, compatible, canAuth) =>
      if !compatible || (c.authRequired && !canAuth) then Rejected(x, s) else x.(holder := Greeting(s))
    case Activate(challenge) => Activated(x, c, x.holder.s, challenge)
    case Promote => PromotedState(x, x.holder.s)
    case Reset => ResetState(x, x.holder.s)
    case Gate(s, cmd) => Gated(x, c, s, cmd)
    case Dispatch =>
      x.(running := if x.holder.cmd == Start then true else if x.holder.cmd == Stop then false else x.running,
         holder := if x.holder.cmd == Malformed then Free else FlushLook(false))
    case LookForFlush =>
      if IsOpen(x.sessions, x.slots.current) then x.(holder := FlushSend(x.holder.byTick, x.slots.current.value))
      else Flushed(x, x.holder.byTick)
    case SendFlush => SentFlush(x, x.holder.byTick, x.holder.to)
    case TakeRetired => x.(slots := x.slots.(retired := []), tick := AtPending)
    case ReapPending(expired) => Reaped(x, expired)
    case LookForCurrent => x.(tick := if x.slots.current.Some? then Waiting(x.slots.current.value) else AtRetired)
    case LockForTick => x.(holder := FlushLook(true), tick := Held(x.tick.s))
    case Decide(timedOut) =>
      var s := x.sessions[x.tick.s];
      x.(holder := Free, tick := if s.rejected || !s.open || timedOut then Stopping(x.tick.s) else AtRetired)
    case StopSource => x.(running := false, tick := Shutting(x.tick.s))
    case Shut => With(x, x.tick.s, x.sessions[x.tick.s].(open := false)).(tick := Clearing(x.tick.s))
    case ClearCurrent =>
      x.(slots := if x.slots.current == Some(x.tick.s) then x.slots.(current := None) else x.slots, tick := AtRetired)
    case Disconnect(s) => With(x, s, x.sessions[s].(open := false))
    case Fail(s) => With(x, s, x.sessions[s].(rejected := true))
    case RecordRate(rate) => x.(pushing := x.pushing.(values := x.pushing.values.(rate := rate), rateDirty := true))
    case RecordLimits(limits) =>
      x.(pushing := x.pushing.(values := x.pushing.values.(limits := limits), limitsDirty := true))
  }

  // ---- the invariant

  predicate Answered(c: Config, s: Session) { s.challenge.Some? && s.answer == Some(c.expected(s.challenge.value)) }

  // The handshake is over: a compatible hello, and the answer to its own challenge if one is asked for.
  predicate HandshakeDone(c: Config, s: Session) { s.helloDone && (c.authRequired ==> Answered(c, s)) }

  // A session gets past the gate only if it was promoted, and is promoted only after its handshake.
  predicate SessionOk(c: Config, s: Session, resetting: bool) {
    && (s.ready && (c.authRequired ==> s.authenticated) ==> s.promoted)
    && (s.authenticated ==> s.promoted)
    && (s.ready ==> s.helloDone)
    && (s.promoted ==> HandshakeDone(c, s))
    && (s.promoted && !resetting ==> s.ready && s.authenticated)
  }

  ghost predicate SessionsOk(c: Config, sessions: seq<Session>, holder: Holder) {
    forall s :: 0 <= s < |sessions| ==> SessionOk(c, sessions[s], holder == Resetting(s))
  }

  predicate HolderOk(c: Config, sessions: seq<Session>, holder: Holder) {
    match holder
    case Greeting(s) => s < |sessions| && !sessions[s].ready && !sessions[s].promoted
    case Promoting(s) => s < |sessions| && !sessions[s].promoted && HandshakeDone(c, sessions[s])
                         && (c.authRequired ==> sessions[s].ready)
    case Resetting(s) => s < |sessions| && sessions[s].promoted
    case FlushSend(_, to) => to < |sessions|
    case _ => true
  }

  // The heartbeat has shut the session it is about to clear.
  predicate TickOk(sessions: seq<Session>, tick: Tick, holder: Holder) {
    && (tick.Waiting? || tick.Held? || tick.Stopping? || tick.Shutting? || tick.Clearing? ==> tick.s < |sessions|)
    && (tick.Clearing? && tick.s < |sessions| ==> !sessions[tick.s].open)
  }

  // A value the client has not seen is marked as yet to be sent.
  predicate UpToDate(p: Pushing, seen: Values) {
    (p.rateDirty || seen.rate == p.values.rate) && (p.limitsDirty || seen.limits == p.values.limits)
  }

  predicate PushingOk(x: State) {
    && (x.slots.current.Some? && x.slots.current.value < |x.sessions| && x.holder != Resetting(x.slots.current.value) ==>
          UpToDate(x.pushing, x.sessions[x.slots.current.value].seen))
    && (x.holder.FlushSend? && x.slots.current.Some? ==> x.slots.current == Some(x.holder.to))
    && (x.holder.Resetting? && x.slots.current.Some? ==> x.slots.current == Some(x.holder.s))
  }

  ghost predicate Inv(x: State, c: Config) {
    && SlotsOk(x.slots, x.sessions) && SessionsOk(c, x.sessions, x.holder) && HolderOk(c, x.sessions, x.holder)
    && TickOk(x.sessions, x.tick, x.holder) && PushingOk(x)
  }

  // What a session's own worker does while it holds the control lock, but for the flush.
  predicate ByWorker(a: Action) {
    a.Hello? || a.Activate? || a.Promote? || a.Reset? || a.Gate? || a.Dispatch?
  }

  predicate ByHeartbeat(a: Action) {
    || a.TakeRetired? || a.ReapPending? || a.LookForCurrent? || a.LockForTick? || a.Decide? || a.StopSource?
    || a.Shut? || a.ClearCurrent?
  }

  // Only promotions count for the slots.
  predicate SamePromoted(a: seq<Session>, b: seq<Session>) {
    |a| <= |b| && forall i :: 0 <= i < |a| ==> b[i].promoted == a[i].promoted
  }

  lemma SlotsCarryOver(slots: Slots, a: seq<Session>, b: seq<Session>)
    requires SlotsOk(slots, a) && SamePromoted(a, b)
    ensures SlotsOk(slots, b)
  {
  }

  lemma FewerSlots(slots: Slots, fewer: Slots, sessions: seq<Session>)
    requires SlotsOk(slots, sessions)
    requires fewer.current in {slots.current, None} && fewer.pending in {slots.pending, None}
    requires fewer.retired in {slots.retired, []}
    ensures SlotsOk(fewer, sessions)
  {
  }

  lemma PromotedSlots(slots: Slots, sessions: seq<Session>, s: Id)
    requires SlotsOk(slots, sessions) && s < |sessions| && MayPromote(slots, s, false)
    ensures SlotsOk(Promoted(slots, s), sessions[s := sessions[s].(promoted := true)])
  {
  }

  lemma OnlyPromotionPromotesByWorker(x: State, c: Config, a: Action)
    requires ByWorker(a) && Can(x, a) && !(a.Promote? && MayPromote(x.slots, x.holder.s, Busy(x)))
    ensures SamePromoted(x.sessions, Do(x, c, a).sessions)
  {
    match a
    case Gate(s, cmd) => GatePromotesNone(x, c, s, cmd);
    case _ =>
  }

  lemma GatePromotesNone(x: State, c: Config, s: Id, cmd: Command)
    requires s < |x.sessions|
    ensures SamePromoted(x.sessions, Gated(x, c, s, cmd).sessions)
  {
  }

  lemma OnlyPromotionPromotesByOthers(x: State, c: Config, a: Action)
    requires !ByWorker(a) && Can(x, a)
    ensures SamePromoted(x.sessions, Do(x, c, a).sessions)
  {
  }

  lemma OnlyPromotionPromotes(x: State, c: Config, a: Action)
    requires Can(x, a) && !(a.Promote? && MayPromote(x.slots, x.holder.s, Busy(x)))
    ensures SamePromoted(x.sessions, Do(x, c, a).sessions)
  {
    if ByWorker(a) { OnlyPromotionPromotesByWorker(x, c, a); } else { OnlyPromotionPromotesByOthers(x, c, a); }
  }

  lemma SlotsKept(x: State, c: Config, a: Action)
    requires Inv(x, c) && Can(x, a)
    ensures SlotsOk(Do(x, c, a).slots, Do(x, c, a).sessions)
  {
    var y := Do(x, c, a);
    if a.Promote? && MayPromote(x.slots, x.holder.s, Busy(x)) {
      PromotedSlots(x.slots, x.sessions, x.holder.s);
    } else {
      OnlyPromotionPromotes(x, c, a);
      SlotsCarryOver(x.slots, x.sessions, y.sessions);
      if !a.Publish? { FewerSlots(x.slots, y.slots, y.sessions); }
    }
  }

  lemma SessionsKeptByWorker(x: State, c: Config, a: Action)
    requires ByWorker(a) && SessionsOk(c, x.sessions, x.holder) && HolderOk(c, x.sessions, x.holder) && Can(x, a)
    ensures SessionsOk(c, Do(x, c, a).sessions, Do(x, c, a).holder)
  {
  }

  lemma SessionsKeptByOthers(x: State, c: Config, a: Action)
    requires !ByWorker(a) && SessionsOk(c, x.sessions, x.holder) && HolderOk(c, x.sessions, x.holder) && Can(x, a)
    ensures SessionsOk(c, Do(x, c, a).sessions, Do(x, c, a).holder)
  {
  }

  lemma SessionsKept(x: State, c: Config, a: Action)
    requires SessionsOk(c, x.sessions, x.holder) && HolderOk(c, x.sessions, x.holder) && Can(x, a)
    ensures SessionsOk(c, Do(x, c, a).sessions, Do(x, c, a).holder)
  {
    if ByWorker(a) { SessionsKeptByWorker(x, c, a); } else { SessionsKeptByOthers(x, c, a); }
  }

  lemma HolderKeptByWorker(x: State, c: Config, a: Action)
    requires ByWorker(a) && SlotsOk(x.slots, x.sessions) && SessionsOk(c, x.sessions, x.holder) && HolderOk(c, x.sessions, x.holder) && Can(x, a)
    ensures HolderOk(c, Do(x, c, a).sessions, Do(x, c, a).holder)
  {
  }

  lemma HolderKeptByOthers(x: State, c: Config, a: Action)
    requires !ByWorker(a) && SlotsOk(x.slots, x.sessions) && SessionsOk(c, x.sessions, x.holder) && HolderOk(c, x.sessions, x.holder) && Can(x, a)
    ensures HolderOk(c, Do(x, c, a).sessions, Do(x, c, a).holder)
  {
  }

  lemma HolderKept(x: State, c: Config, a: Action)
    requires SlotsOk(x.slots, x.sessions) && SessionsOk(c, x.sessions, x.holder) && HolderOk(c, x.sessions, x.holder) && Can(x, a)
    ensures HolderOk(c, Do(x, c, a).sessions, Do(x, c, a).holder)
  {
    if ByWorker(a) { HolderKeptByWorker(x, c, a); } else { HolderKeptByOthers(x, c, a); }
  }

  lemma TickKeptByWorker(x: State, c: Config, a: Action)
    requires ByWorker(a) && TickOk(x.sessions, x.tick, x.holder) && Can(x, a)
    ensures TickOk(Do(x, c, a).sessions, Do(x, c, a).tick, Do(x, c, a).holder)
  {
  }

  lemma TickKeptByHeartbeat(x: State, c: Config, a: Action)
    requires ByHeartbeat(a) && SlotsOk(x.slots, x.sessions) && TickOk(x.sessions, x.tick, x.holder) && Can(x, a)
    ensures TickOk(Do(x, c, a).sessions, Do(x, c, a).tick, Do(x, c, a).holder)
  {
  }

  lemma TickKeptByOthers(x: State, c: Config, a: Action)
    requires !ByWorker(a) && !ByHeartbeat(a) && TickOk(x.sessions, x.tick, x.holder) && Can(x, a)
    ensures TickOk(Do(x, c, a).sessions, Do(x, c, a).tick, Do(x, c, a).holder)
  {
  }

  lemma TickKept(x: State, c: Config, a: Action)
    requires SlotsOk(x.slots, x.sessions) && TickOk(x.sessions, x.tick, x.holder) && Can(x, a)
    ensures TickOk(Do(x, c, a).sessions, Do(x, c, a).tick, Do(x, c, a).holder)
  {
    if ByWorker(a) { TickKeptByWorker(x, c, a); }
    else if ByHeartbeat(a) { TickKeptByHeartbeat(x, c, a); }
    else { TickKeptByOthers(x, c, a); }
  }

  lemma PushingKeptByWorker(x: State, c: Config, a: Action)
    requires ByWorker(a) && SlotsOk(x.slots, x.sessions) && HolderOk(c, x.sessions, x.holder) && PushingOk(x) && Can(x, a)
    ensures PushingOk(Do(x, c, a))
  {
  }

  lemma PushingKeptByOthers(x: State, c: Config, a: Action)
    requires !ByWorker(a) && SlotsOk(x.slots, x.sessions) && HolderOk(c, x.sessions, x.holder) && PushingOk(x) && Can(x, a)
    ensures PushingOk(Do(x, c, a))
  {
  }

  lemma PushingKept(x: State, c: Config, a: Action)
    requires SlotsOk(x.slots, x.sessions) && HolderOk(c, x.sessions, x.holder) && PushingOk(x) && Can(x, a)
    ensures PushingOk(Do(x, c, a))
  {
    if ByWorker(a) { PushingKeptByWorker(x, c, a); } else { PushingKeptByOthers(x, c, a); }
  }

  lemma Kept(x: State, c: Config, a: Action)
    requires Inv(x, c) && Can(x, a)
    ensures Inv(Do(x, c, a), c)
  {
    SlotsKept(x, c, a);
    SessionsKept(x, c, a);
    HolderKept(x, c, a);
    TickKept(x, c, a);
    PushingKept(x, c, a);
  }

  // ---- runs

  function Started(values: Values): State {
    State([], Slots(None, None, []), false, Pushing(values, false, false), Free, AtRetired, Listening)
  }

  ghost predicate IsRun(x: State, c: Config, actions: seq<Action>)
    decreases |actions|
  {
    actions == [] || (Can(x, actions[0]) && IsRun(Do(x, c, actions[0]), c, actions[1..]))
  }

  ghost function After(x: State, c: Config, actions: seq<Action>): State
    requires IsRun(x, c, actions)
    decreases |actions|
  {
    if actions == [] then x else After(Do(x, c, actions[0]), c, actions[1..])
  }

  lemma {:induction false} RunKept(x: State, c: Config, actions: seq<Action>)
    requires Inv(x, c) && IsRun(x, c, actions)
    ensures Inv(After(x, c, actions), c)
    decreases |actions|
  {
    if actions != [] {
      Kept(x, c, actions[0]);
      RunKept(Do(x, c, actions[0]), c, actions[1..]);
    }
  }

  // In every reachable state, whenever the control lock is free: no session is in two slots; the client has
  // finished its handshake, with the answer to its own challenge if one is asked for; and every value it was
  // not sent is marked as yet to be sent.
  lemma ReachableServers(values: Values, c: Config, actions: seq<Action>)
    requires IsRun(Started(values), c, actions)
    ensures var x := After(Started(values), c, actions);
            && (x.slots.current.Some? ==> x.slots.current != x.slots.pending && x.slots.current.value !in x.slots.retired)
            && (x.slots.pending.Some? ==> x.slots.pending.value !in x.slots.retired)
            && (x.slots.current.Some? ==>
                  && x.slots.current.value < |x.sessions|
                  && var s := x.sessions[x.slots.current.value];
                     HandshakeDone(c, s) && (x.holder == Free ==> s.ready && s.authenticated && UpToDate(x.pushing, s.seen)))
  {
    RunKept(Started(values), c, actions);
  }

  // A command that gets past the gate is the client's.
  lemma OnlyTheClientCommands(x: State, c: Config, s: Id, cmd: Command)
    requires Inv(x, c) && Can(x, Gate(s, cmd))
    ensures var y := Do(x, c, Gate(s, cmd));
            && (y.holder.Dispatching? <==> x.slots.current == Some(s))
            && (y.holder.Dispatching? ==> HandshakeDone(c, x.sessions[s]))
            && (y.running == x.running && y.slots == x.slots)
  {
    assert SessionOk(c, x.sessions[s], false);
  }

  // No step takes the place of an open client that streams.
  lemma StepKeepsTheSlot(x: State, c: Config, a: Action)
    requires Inv(x, c) && Can(x, a) && Busy(x)
    ensures Do(x, c, a).slots.current == x.slots.current
  {
  }

  ghost predicate BusyThroughout(x: State, c: Config, actions: seq<Action>)
    decreases |actions|
  {
    Busy(x) && (actions == [] || (Can(x, actions[0]) && BusyThroughout(Do(x, c, actions[0]), c, actions[1..])))
  }

  // However long it streams, an open client remains the client.
  lemma {:induction false} StreamingKeepsTheSlot(x: State, c: Config, actions: seq<Action>)
    requires Inv(x, c) && BusyThroughout(x, c, actions)
    ensures IsRun(x, c, actions) && After(x, c, actions).slots.current == x.slots.current
    decreases |actions|
  {
    if actions != [] {
      Kept(x, c, actions[0]);
      StepKeepsTheSlot(x, c, actions[0]);
      StreamingKeepsTheSlot(Do(x, c, actions[0]), c, actions[1..]);
    }
  }

  // So the client changes only by promotion, to the pending session, with nobody streaming, or by the
  // heartbeat, after the client was closed.
  lemma ClientChanges(x: State, c: Config, a: Action)
    requires Inv(x, c) && Can(x, a) && Do(x, c, a).slots.current != x.slots.current
    ensures !Busy(x)
    ensures Do(x, c, a).slots.current in {x.slots.pending, None}
    ensures x.slots.current.Some? && a.Promote? ==> x.slots.current.value in Do(x, c, a).slots.retired
    ensures a.ClearCurrent? ==> !IsOpen(x.sessions, x.slots.current)
  {
  }

  // A pending session is closed exactly if it was rejected, is closed or took too long, and no other is touched;
  // a healthy one stays.
  lemma PendingReaped(x: State, c: Config, expired: bool)
    requires Inv(x, c) && Can(x, ReapPending(expired))
    ensures var y := Do(x, c, ReapPending(expired));
            && |y.sessions| == |x.sessions| && y.slots.current == x.slots.current && y.running == x.running
            && y.tick == AtCurrent
            && (forall s :: 0 <= s < |x.sessions| && x.slots.pending != Some(s) ==> y.sessions[s] == x.sessions[s])
            && match x.slots.pending
               case None => y.slots == x.slots
               case Some(p) =>
                 if x.sessions[p].rejected || !x.sessions[p].open || expired
                 then y.slots.pending == None && !y.sessions[p].open
                 else y.slots == x.slots && y.sessions == x.sessions
  {
  }

  predicate ByAcceptor(a: Action) { a.Accept? || a.CheckBusy? || a.Publish? }

  lemma {:induction false} AcceptorWaits(x: State, c: Config, actions: seq<Action>)
    requires IsRun(x, c, actions) && forall a <- actions :: !ByAcceptor(a)
    ensures After(x, c, actions).acceptor == x.acceptor && |After(x, c, actions).sessions| == |x.sessions|
    decreases |actions|
  {
    if actions != [] {
      assert actions[0] in actions && forall a <- actions[1..] :: a in actions;
      AcceptorWaits(Do(x, c, actions[0]), c, actions[1..]);
    }
  }

  // A newcomer is turned away exactly if there is an open client when it arrives and the source runs when the
  // control lock is had; otherwise it becomes a session, and the pending one.
  lemma NewcomerTurnedAway(x: State, c: Config, meanwhile: seq<Action>)
    requires Can(x, Accept) && IsRun(Do(x, c, Accept), c, meanwhile) && forall a <- meanwhile :: !ByAcceptor(a)
    ensures var y := After(Do(x, c, Accept), c, meanwhile);
            && |y.sessions| == |x.sessions|
            && (IsOpen(x.sessions, x.slots.current) <==> y.acceptor == Checking)
            && (y.acceptor == Checking && y.holder == Free ==>
                  (Do(y, c, CheckBusy).acceptor == Listening <==> y.running)
                  && (Do(y, c, CheckBusy).acceptor == Publishing <==> !y.running)
                  && Do(y, c, CheckBusy).sessions == y.sessions && Do(y, c, CheckBusy).slots == y.slots)
            && (y.acceptor == Publishing ==>
                  var z := Do(y, c, Publish);
                  z.acceptor == Listening && z.sessions == y.sessions + [NEWCOMER] && z.slots.pending == Some(|y.sessions|)
                  && z.slots.current == y.slots.current && z.slots.retired == y.slots.retired)
  {
    AcceptorWaits(Do(x, c, Accept), c, meanwhile);
  }
}
