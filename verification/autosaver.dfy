// The background saver: managers report changes by raising one `pending` flag, a worker turns the
// flag into a scan over the registered managers, and disabling a manager waits until nobody uses it.
// A step is one critical section or one atomic access of one thread; the state holds every thread's
// position.
module AutoSaver {
  import opened Options

  type ManagerId = nat
  type RegId = nat

  // A pass over a copy of the registrations. `inside`: the use mutex of scan[pos] is held and the
  // manager behind it is being used.
  datatype Scan = Scan(regs: seq<RegId>, pos: nat, inside: bool)

  datatype Worker =
    | NotStarted
    | Waiting
    | Delaying
    | Scanning(scan: Scan, failed: set<ManagerId>)
    | Exited

  // Who holds the persistence mutex of a manager.
  datatype Saver = ByWorker | ByFlush(thread: nat) | ByCaller | ByLoad

  // `changed`: the manager was edited since this save or load took its snapshot.
  datatype Persisting = Persisting(saver: Saver, changed: bool)

  // Where the thread holding the life-cycle mutex is.
  datatype Lifecycle =
    | Free
    | Enabling(m: ManagerId)                        // flag raised, not yet registered
    | Disabling(m: ManagerId)                       // flag lowered, still registered
    | Draining(m: ManagerId, reg: RegId, join: bool) // unregistered, waiting for the use mutex
    | Joining(join: bool)                           // waiting for the worker, if told to stop it

  datatype Registry = Registry(
    enabled: set<ManagerId>,                 // autoSaveEnabled
    behind: map<RegId, ManagerId>,           // registrations that still point at a manager
    nextReg: RegId,
    managers: seq<RegId>,
    lifecycle: Lifecycle)

  datatype State = State(
    reg: Registry,
    dirty: set<ManagerId>,
    pending: bool,
    stopping: bool,
    worker: Worker,
    flushes: map<nat, Scan>,
    persisting: map<ManagerId, Persisting>,
    checking: multiset<ManagerId>,           // edited, flag not yet looked at
    notifying: multiset<ManagerId>)          // flag seen raised, `pending` not yet set

  datatype Action =
    | Edit(m: ManagerId)
    | SetPath(m: ManagerId, unsaved: bool)
    | CheckFlag(m: ManagerId)
    | SetPending(m: ManagerId)
    | BeginEnable(m: ManagerId)
    | Register
    | BeginDisable(m: ManagerId)
    | Unregister
    | DrainUse
    | FinishDisable
    | Wake
    | BeginScan
    | EndScan
    | WorkerExit
    | BeginFlush(thread: nat)
    | EndFlush(thread: nat)
    | Enter(saver: Saver)
    | BeginSave(saver: Saver)
    | EndSave(saver: Saver, ok: bool)
    | BeginOther(m: ManagerId, saver: Saver)
    | EndOther(m: ManagerId, ok: bool)

  const START: State :=
    State(Registry({}, map[], 0, [], Free), {}, false, false, NotStarted, map[], map[], multiset{}, multiset{})

  function ScanOf(worker: Worker, flushes: map<nat, Scan>, saver: Saver): Option<Scan> {
    match saver
    case ByWorker => if worker.Scanning? then Some(worker.scan) else None
    case ByFlush(t) => if t in flushes then Some(flushes[t]) else None
    case _ => None
  }

  function WithScan(s: State, saver: Saver, scan: Scan): State
    requires ScanOf(s.worker, s.flushes, saver).Some?
  {
    match saver
    case ByWorker => s.(worker := s.worker.(scan := scan))
    case ByFlush(t) => s.(flushes := s.flushes[t := scan])
    case _ => s
  }

  predicate Holds(scan: Scan, reg: RegId) {
    scan.inside && scan.pos < |scan.regs| && scan.regs[scan.pos] == reg
  }

  // The use mutex of a registration.
  predicate InUse(s: State, reg: RegId) {
    || (s.worker.Scanning? && Holds(s.worker.scan, reg))
    || exists t :: t in s.flushes && Holds(s.flushes[t], reg)
  }

  // The manager a thread is using.
  function Target(behind: map<RegId, ManagerId>, scan: Scan): Option<ManagerId> {
    if scan.inside && scan.pos < |scan.regs| && scan.regs[scan.pos] in behind
    then Some(behind[scan.regs[scan.pos]]) else None
  }

  function RegOf(r: Registry, m: ManagerId, regs: seq<RegId>): Option<RegId> {
    if regs == [] then None
    else if regs[0] in r.behind && r.behind[regs[0]] == m then Some(regs[0])
    else RegOf(r, m, regs[1..])
  }

  function Without(regs: seq<RegId>, reg: RegId): seq<RegId> {
    if regs == [] then [] else if regs[0] == reg then regs[1..] else [regs[0]] + Without(regs[1..], reg)
  }

  function Edited(s: State, m: ManagerId): State {
    s.(dirty := s.dirty + {m},
       checking := s.checking + multiset{m},
       persisting := if m in s.persisting then s.persisting[m := s.persisting[m].(changed := true)] else s.persisting)
  }

  // ---- the steps; one that is not enabled changes nothing

  function PathSet(s: State, m: ManagerId, unsaved: bool): State {
    if m in s.persisting then s
    else if unsaved then s.(dirty := s.dirty + {m}, checking := s.checking + multiset{m})
    else s.(dirty := s.dirty - {m})
  }

  function FlagChecked(s: State, m: ManagerId): State {
    if m !in s.checking then s
    else if m in s.reg.enabled then
      s.(checking := s.checking - multiset{m}, notifying := s.notifying + multiset{m})
    else s.(checking := s.checking - multiset{m})
  }

  function PendingSet(s: State, m: ManagerId): State {
    if m in s.notifying then s.(notifying := s.notifying - multiset{m}, pending := true) else s
  }

  function EnableBegun(s: State, m: ManagerId): State {
    if s.reg.lifecycle.Free? && m !in s.reg.enabled then s.(reg := s.reg.(enabled := s.reg.enabled + {m}, lifecycle := Enabling(m))) else s
  }

  function RegisteredNow(s: State): State {
    if s.reg.lifecycle.Enabling? then
      s.(reg := Registry(s.reg.enabled, s.reg.behind[s.reg.nextReg := s.reg.lifecycle.m], s.reg.nextReg + 1,
                         s.reg.managers + [s.reg.nextReg], Free),
         pending := true,
         stopping := s.stopping && !s.worker.NotStarted?,
         worker := if s.worker.NotStarted? then Waiting else s.worker)
    else s
  }

  function DisableBegun(s: State, m: ManagerId): State {
    if s.reg.lifecycle.Free? && m in s.reg.enabled then s.(reg := s.reg.(enabled := s.reg.enabled - {m}, lifecycle := Disabling(m))) else s
  }

  function Unregistered(s: State): State {
    if s.reg.lifecycle.Disabling? then
      var reg := RegOf(s.reg, s.reg.lifecycle.m, s.reg.managers);
      var left := if reg.Some? then Without(s.reg.managers, reg.value) else s.reg.managers;
      var join := left == [] && !s.worker.NotStarted?;
      s.(stopping := s.stopping || join,
         reg := s.reg.(managers := left,
                       lifecycle := if reg.Some? then Draining(s.reg.lifecycle.m, reg.value, join) else Joining(join)))
    else s
  }

  function UseDrained(s: State): State {
    if s.reg.lifecycle.Draining? && !InUse(s, s.reg.lifecycle.reg) then
      s.(reg := s.reg.(behind := s.reg.behind - {s.reg.lifecycle.reg}, lifecycle := Joining(s.reg.lifecycle.join)))
    else s
  }

  function DisableFinished(s: State): State {
    if s.reg.lifecycle.Joining? && (s.reg.lifecycle.join ==> s.worker.Exited?) then
      s.(worker := if s.reg.lifecycle.join then NotStarted else s.worker, reg := s.reg.(lifecycle := Free))
    else s
  }

  function Woken(s: State): State {
    if s.worker.Waiting? && s.pending && !s.stopping then s.(worker := Delaying) else s
  }

  function ScanBegun(s: State): State {
    if s.worker.Delaying? && !s.stopping then
      s.(pending := false, worker := Scanning(Scan(s.reg.managers, 0, false), {}))
    else s
  }

  function ScanEnded(s: State): State {
    if s.worker.Scanning? && s.worker.scan.pos >= |s.worker.scan.regs| then
      s.(pending := s.pending || s.worker.failed != {}, worker := Waiting)
    else s
  }

  function WorkerExited(s: State): State {
    if s.stopping && (s.worker.Waiting? || s.worker.Delaying?) then s.(worker := Exited) else s
  }

  function FlushBegun(s: State, t: nat): State {
    if t in s.flushes then s else s.(flushes := s.flushes[t := Scan(s.reg.managers, 0, false)])
  }

  function FlushEnded(s: State, t: nat): State {
    if t in s.flushes && s.flushes[t].pos >= |s.flushes[t].regs| then s.(flushes := s.flushes - {t}) else s
  }

  function Entered(s: State, saver: Saver): State {
    var scan := ScanOf(s.worker, s.flushes, saver);
    if scan.None? || scan.value.inside || scan.value.pos >= |scan.value.regs| then s
    else
      var reg := scan.value.regs[scan.value.pos];
      if InUse(s, reg) then s
      else if reg !in s.reg.behind then WithScan(s, saver, scan.value.(pos := scan.value.pos + 1))
      else WithScan(s, saver, scan.value.(inside := true))
  }

  function SaveBegun(s: State, saver: Saver): State {
    var scan := ScanOf(s.worker, s.flushes, saver);
    if scan.None? || Target(s.reg.behind, scan.value).None? then s
    else
      var m := Target(s.reg.behind, scan.value).value;
      if m in s.persisting then s
      else if m !in s.dirty then WithScan(s, saver, scan.value.(pos := scan.value.pos + 1, inside := false))
      else s.(persisting := s.persisting[m := Persisting(saver, false)])
  }

  function SaveEnded(s: State, saver: Saver, ok: bool): State {
    var scan := ScanOf(s.worker, s.flushes, saver);
    if scan.None? || Target(s.reg.behind, scan.value).None? then s
    else
      var m := Target(s.reg.behind, scan.value).value;
      if m !in s.persisting || s.persisting[m].saver != saver then s
      else
        var next := WithScan(s, saver, scan.value.(pos := scan.value.pos + 1, inside := false));
        next.(dirty := if ok && !s.persisting[m].changed then s.dirty - {m} else s.dirty,
              persisting := s.persisting - {m},
              worker := if saver.ByWorker? && !ok then next.worker.(failed := s.worker.failed + {m}) else next.worker)
  }

  function OtherBegun(s: State, m: ManagerId, saver: Saver): State {
    if (saver.ByCaller? || saver.ByLoad?) && m !in s.persisting then
      s.(persisting := s.persisting[m := Persisting(saver, false)])
    else s
  }

  function OtherEnded(s: State, m: ManagerId, ok: bool): State {
    if m !in s.persisting || !(s.persisting[m].saver.ByCaller? || s.persisting[m].saver.ByLoad?) then s
    else if s.persisting[m].saver.ByCaller? then
      s.(persisting := s.persisting - {m},
         dirty := if ok && !s.persisting[m].changed then s.dirty - {m} else s.dirty)
    else if ok then
      s.(persisting := s.persisting - {m},
         dirty := if s.persisting[m].changed then s.dirty + {m} else s.dirty - {m})
    else
      s.(persisting := s.persisting - {m}, dirty := s.dirty + {m}, checking := s.checking + multiset{m})
  }

  function Apply(s: State, a: Action): State {
    match a
    case Edit(m) => Edited(s, m)
    case SetPath(m, unsaved) => PathSet(s, m, unsaved)
    case CheckFlag(m) => FlagChecked(s, m)
    case SetPending(m) => PendingSet(s, m)
    case BeginEnable(m) => EnableBegun(s, m)
    case Register => RegisteredNow(s)
    case BeginDisable(m) => DisableBegun(s, m)
    case Unregister => Unregistered(s)
    case DrainUse => UseDrained(s)
    case FinishDisable => DisableFinished(s)
    case Wake => Woken(s)
    case BeginScan => ScanBegun(s)
    case EndScan => ScanEnded(s)
    case WorkerExit => WorkerExited(s)
    case BeginFlush(t) => FlushBegun(s, t)
    case EndFlush(t) => FlushEnded(s, t)
    case Enter(saver) => Entered(s, saver)
    case BeginSave(saver) => SaveBegun(s, saver)
    case EndSave(saver, ok) => SaveEnded(s, saver, ok)
    case BeginOther(m, saver) => OtherBegun(s, m, saver)
    case EndOther(m, ok) => OtherEnded(s, m, ok)
  }

  // ---- the invariant

  ghost predicate Registrations(r: Registry) {
    && (forall x :: x in r.behind || x in r.managers ==> x < r.nextReg)
    && (forall x :: x in r.managers ==> x in r.behind)
    && (forall x :: x in r.behind ==> x in r.managers || (r.lifecycle.Draining? && r.lifecycle.reg == x))
    && (forall x, y :: x in r.behind && y in r.behind && r.behind[x] == r.behind[y] ==> x == y)
    && (forall i, j :: 0 <= i < j < |r.managers| ==> r.managers[i] != r.managers[j])
  }

  ghost predicate Registered(r: Registry, m: ManagerId) {
    exists x :: x in r.managers && x in r.behind && r.behind[x] == m
  }

  ghost predicate Flags(r: Registry) {
    && (forall x :: x in r.managers && x in r.behind ==> r.behind[x] in r.enabled || r.lifecycle == Disabling(r.behind[x]))
    && (forall m :: m in r.enabled ==> r.lifecycle == Enabling(m) || Registered(r, m))
    && (r.lifecycle.Enabling? ==> r.lifecycle.m in r.enabled && !Registered(r, r.lifecycle.m))
    && (r.lifecycle.Disabling? ==> r.lifecycle.m !in r.enabled && Registered(r, r.lifecycle.m))
    && (r.lifecycle.Draining? ==>
          && r.lifecycle.m !in r.enabled && r.lifecycle.reg !in r.managers
          && r.lifecycle.reg in r.behind && r.behind[r.lifecycle.reg] == r.lifecycle.m)
  }

  predicate Stopper(l: Lifecycle) {
    (l.Draining? || l.Joining?) && l.join
  }

  // Whenever a manager is registered, a worker is there to see `pending`.
  ghost predicate WorkerAlive(s: State) {
    && (s.reg.managers != [] ==> !s.stopping && !s.worker.NotStarted? && !s.worker.Exited?)
    && (s.worker.Exited? ==> s.stopping && Stopper(s.reg.lifecycle))
    && (s.stopping ==> s.worker.NotStarted? || Stopper(s.reg.lifecycle))
    && (Stopper(s.reg.lifecycle) ==> s.reg.managers == [] && s.stopping && !s.worker.NotStarted?)
  }

  ghost predicate ScanInUse(r: Registry, scan: Scan) {
    && (scan.inside ==> scan.pos < |scan.regs| && scan.regs[scan.pos] in r.behind)
    && (forall x :: x in scan.regs ==> x < r.nextReg)
  }

  ghost predicate Uses(s: State) {
    && (s.worker.Scanning? ==> ScanInUse(s.reg, s.worker.scan))
    && (forall t :: t in s.flushes ==> ScanInUse(s.reg, s.flushes[t]))
    && (forall m :: m in s.persisting ==> HeldBy(s.reg.behind, s.worker, s.flushes, m, s.persisting[m].saver))
  }

  // A scanning thread that holds a persistence mutex holds it for the manager it is using.
  ghost predicate HeldBy(behind: map<RegId, ManagerId>, worker: Worker, flushes: map<nat, Scan>, m: ManagerId, saver: Saver) {
    saver.ByWorker? || saver.ByFlush? ==>
      ScanOf(worker, flushes, saver).Some? && Target(behind, ScanOf(worker, flushes, saver).value) == Some(m)
  }

  ghost predicate Notified(s: State, m: ManagerId) {
    s.pending || m in s.checking || m in s.notifying
  }

  ghost predicate Ahead(worker: Worker, behind: map<RegId, ManagerId>, m: ManagerId) {
    worker.Scanning? && (m in worker.failed || StillToVisit(worker.scan, behind, m))
  }

  ghost predicate StillToVisit(scan: Scan, behind: map<RegId, ManagerId>, m: ManagerId) {
    exists j :: scan.pos <= j < |scan.regs| && scan.regs[j] in behind && behind[scan.regs[j]] == m
  }

  ghost predicate NoLostWakeup(s: State) {
    && (forall m :: m in s.dirty && m in s.reg.enabled && s.reg.lifecycle != Enabling(m) ==>
          Notified(s, m) || Ahead(s.worker, s.reg.behind, m))
    && (forall m :: m in s.persisting && s.persisting[m].changed ==> m in s.dirty)
    && (forall m :: m in s.persisting && s.persisting[m].changed && s.persisting[m].saver.ByWorker? && m in s.reg.enabled ==>
          Notified(s, m))
  }

  ghost predicate Inv(s: State) {
    Registrations(s.reg) && Flags(s.reg) && WorkerAlive(s) && Uses(s) && NoLostWakeup(s)
  }

  lemma {:induction false} RegOfFinds(r: Registry, m: ManagerId, regs: seq<RegId>)
    ensures RegOf(r, m, regs).Some? <==> exists x :: x in regs && x in r.behind && r.behind[x] == m
    ensures RegOf(r, m, regs).Some? ==>
              var x := RegOf(r, m, regs).value; x in regs && x in r.behind && r.behind[x] == m
  {
    if regs != [] { RegOfFinds(r, m, regs[1..]); }
  }

  lemma {:induction false} WithoutRemovesOne(regs: seq<RegId>, reg: RegId)
    requires forall i, j :: 0 <= i < j < |regs| ==> regs[i] != regs[j]
    ensures forall r :: r in Without(regs, reg) <==> r in regs && r != reg
    ensures forall i, j :: 0 <= i < j < |Without(regs, reg)| ==> Without(regs, reg)[i] != Without(regs, reg)[j]
  {
    if regs != [] {
      var rest := Without(regs[1..], reg);
      WithoutRemovesOne(regs[1..], reg);
      if regs[0] != reg {
        forall j | 0 <= j < |rest| ensures rest[j] != regs[0] {
          assert rest[j] in rest;
        }
      }
    }
  }

  lemma EditedKept(s: State, m: ManagerId)
    requires Inv(s)
    ensures Inv(Edited(s, m))
  {
  }

  lemma PathSetKept(s: State, m: ManagerId, unsaved: bool)
    requires Inv(s)
    ensures Inv(PathSet(s, m, unsaved))
  {
  }

  lemma FlagCheckedUses(s: State, m: ManagerId)
    requires Uses(s)
    ensures Uses(FlagChecked(s, m))
  {
  }

  lemma FlagCheckedWakeups(s: State, m: ManagerId)
    requires NoLostWakeup(s)
    ensures NoLostWakeup(FlagChecked(s, m))
  {
  }

  lemma FlagCheckedKept(s: State, m: ManagerId)
    requires Inv(s)
    ensures Inv(FlagChecked(s, m))
  {
    FlagCheckedUses(s, m);
    FlagCheckedWakeups(s, m);
  }

  lemma PendingSetKept(s: State, m: ManagerId)
    requires Inv(s)
    ensures Inv(PendingSet(s, m))
  {
  }

  lemma EnableBegunKept(s: State, m: ManagerId)
    requires Inv(s)
    ensures Inv(EnableBegun(s, m))
  {
    var t := EnableBegun(s, m);
    forall m | Registered(s.reg, m) && m in s.reg.enabled ensures Registered(t.reg, m) {
      var r :| r in s.reg.managers && r in s.reg.behind && s.reg.behind[r] == m;
      assert r in t.reg.managers && t.reg.behind[r] == m;
    }
  }

  lemma RegisteredNowKept(s: State)
    requires Inv(s)
    ensures Inv(RegisteredNow(s))
  {
    if s.reg.lifecycle.Enabling? {
      var t := RegisteredNow(s);
      assert s.reg.nextReg !in s.reg.managers && s.reg.nextReg in t.reg.managers && t.reg.behind[s.reg.nextReg] == s.reg.lifecycle.m;
      forall m | m in t.reg.enabled ensures Registered(t.reg, m) {
        if m != s.reg.lifecycle.m {
          var r :| r in s.reg.managers && r in s.reg.behind && s.reg.behind[r] == m;
          assert r in t.reg.managers && t.reg.behind[r] == m;
        }
      }
    }
  }

  lemma DisableBegunKept(s: State, m: ManagerId)
    requires Inv(s)
    ensures Inv(DisableBegun(s, m))
  {
    var t := DisableBegun(s, m);
    forall m | Registered(s.reg, m) && m in s.reg.enabled ensures Registered(t.reg, m) {
      var r :| r in s.reg.managers && r in s.reg.behind && s.reg.behind[r] == m;
      assert r in t.reg.managers && t.reg.behind[r] == m;
    }
  }

  lemma UnregisteredKept(s: State)
    requires Inv(s)
    ensures Inv(Unregistered(s))
  {
    if s.reg.lifecycle.Disabling? {
      var t := Unregistered(s);
      RegOfFinds(s.reg, s.reg.lifecycle.m, s.reg.managers);
      var reg := RegOf(s.reg, s.reg.lifecycle.m, s.reg.managers).value;
      WithoutRemovesOne(s.reg.managers, reg);
      forall m | m in t.reg.enabled ensures Registered(t.reg, m) {
        var r :| r in s.reg.managers && r in s.reg.behind && s.reg.behind[r] == m;
        assert r in t.reg.managers;
      }
    }
  }

  lemma UseDrainedKept(s: State)
    requires Inv(s)
    ensures Inv(UseDrained(s))
  {
    var t := UseDrained(s);
    forall m | Registered(s.reg, m) && m in s.reg.enabled ensures Registered(t.reg, m) {
      var r :| r in s.reg.managers && r in s.reg.behind && s.reg.behind[r] == m;
      assert r in t.reg.managers && t.reg.behind[r] == m;
    }
  }

  lemma DisableFinishedKept(s: State)
    requires Inv(s)
    ensures Inv(DisableFinished(s))
  {
    var t := DisableFinished(s);
    forall m | Registered(s.reg, m) && m in s.reg.enabled ensures Registered(t.reg, m) {
      var r :| r in s.reg.managers && r in s.reg.behind && s.reg.behind[r] == m;
      assert r in t.reg.managers && t.reg.behind[r] == m;
    }
  }

  lemma WokenKept(s: State)
    requires Inv(s)
    ensures Inv(Woken(s))
  {
  }

  lemma ScanBegunKept(s: State)
    requires Inv(s)
    ensures Inv(ScanBegun(s))
  {
  }

  lemma ScanEndedKept(s: State)
    requires Inv(s)
    ensures Inv(ScanEnded(s))
  {
  }

  lemma WorkerExitedKept(s: State)
    requires Inv(s)
    ensures Inv(WorkerExited(s))
  {
  }

  lemma FlushBegunKept(s: State, t: nat)
    requires Inv(s)
    ensures Inv(FlushBegun(s, t))
  {
  }

  lemma FlushEndedKept(s: State, t: nat)
    requires Inv(s)
    ensures Inv(FlushEnded(s, t))
  {
  }

  lemma ScanSeenAfter(s: State, saver: Saver, scan: Scan, other: Saver)
    requires ScanOf(s.worker, s.flushes, saver).Some?
    ensures var t := WithScan(s, saver, scan);
            ScanOf(t.worker, t.flushes, other) == if other == saver then Some(scan) else ScanOf(s.worker, s.flushes, other)
  {
  }

  lemma EnteredUses(s: State, saver: Saver)
    requires Uses(s)
    ensures Uses(Entered(s, saver))
  {
    var t := Entered(s, saver);
    var scan := ScanOf(s.worker, s.flushes, saver);
    if t != s {
      var next := if scan.value.regs[scan.value.pos] in s.reg.behind
                  then scan.value.(inside := true) else scan.value.(pos := scan.value.pos + 1);
      assert t == WithScan(s, saver, next);
      forall m | m in t.persisting ensures HeldBy(t.reg.behind, t.worker, t.flushes, m, t.persisting[m].saver) {
        assert HeldBy(s.reg.behind, s.worker, s.flushes, m, s.persisting[m].saver);
        ScanSeenAfter(s, saver, next, s.persisting[m].saver);
      }
      assert ScanInUse(t.reg, next);
    }
  }

  lemma EnteredWakeups(s: State, saver: Saver)
    requires NoLostWakeup(s) && Uses(s)
    ensures NoLostWakeup(Entered(s, saver))
  {
  }

  lemma EnteredKept(s: State, saver: Saver)
    requires Inv(s)
    ensures Inv(Entered(s, saver))
  {
    EnteredUses(s, saver);
    EnteredWakeups(s, saver);
  }

  lemma SaveBegunUses(s: State, saver: Saver)
    requires Uses(s)
    ensures Uses(SaveBegun(s, saver))
  {
    var t, scan := SaveBegun(s, saver), ScanOf(s.worker, s.flushes, saver);
    if scan.Some? && t != s {
      var m := Target(s.reg.behind, scan.value).value;
      if m in s.dirty { PersistingBegun(s, saver, m); } else { PassedOver(s, saver, scan.value, m); }
    }
  }

  // The manager is dirty, and is saved next.
  lemma PersistingBegun(s: State, saver: Saver, m: ManagerId)
    requires Uses(s) && m !in s.persisting && ScanOf(s.worker, s.flushes, saver).Some?
    requires Target(s.reg.behind, ScanOf(s.worker, s.flushes, saver).value) == Some(m)
    ensures Uses(s.(persisting := s.persisting[m := Persisting(saver, false)]))
  {
  }

  // The manager is clean, and nobody holds it for this thread.
  lemma PassedOver(s: State, saver: Saver, scan: Scan, m: ManagerId)
    requires Uses(s) && m !in s.persisting && ScanOf(s.worker, s.flushes, saver) == Some(scan)
    requires Target(s.reg.behind, scan) == Some(m)
    ensures Uses(WithScan(s, saver, scan.(pos := scan.pos + 1, inside := false)))
  {
    var t := WithScan(s, saver, scan.(pos := scan.pos + 1, inside := false));
    forall n | n in t.persisting ensures HeldBy(t.reg.behind, t.worker, t.flushes, n, t.persisting[n].saver) {
      assert HeldBy(s.reg.behind, s.worker, s.flushes, n, s.persisting[n].saver);
    }
  }

  lemma SaveBegunWakeups(s: State, saver: Saver)
    requires NoLostWakeup(s) && Uses(s)
    ensures NoLostWakeup(SaveBegun(s, saver))
  {
  }

  lemma SaveBegunKept(s: State, saver: Saver)
    requires Inv(s)
    ensures Inv(SaveBegun(s, saver))
  {
    SaveBegunUses(s, saver);
    SaveBegunWakeups(s, saver);
  }

  lemma SaveEndedUses(s: State, saver: Saver, ok: bool)
    requires Uses(s)
    ensures Uses(SaveEnded(s, saver, ok))
  {
  }

  lemma SaveEndedWakeups(s: State, saver: Saver, ok: bool)
    requires NoLostWakeup(s) && Uses(s)
    ensures NoLostWakeup(SaveEnded(s, saver, ok))
  {
  }

  lemma SaveEndedKept(s: State, saver: Saver, ok: bool)
    requires Inv(s)
    ensures Inv(SaveEnded(s, saver, ok))
  {
    SaveEndedUses(s, saver, ok);
    SaveEndedWakeups(s, saver, ok);
  }

  lemma OtherBegunKept(s: State, m: ManagerId, saver: Saver)
    requires Inv(s)
    ensures Inv(OtherBegun(s, m, saver))
  {
  }

  lemma OtherEndedUses(s: State, m: ManagerId, ok: bool)
    requires Uses(s)
    ensures Uses(OtherEnded(s, m, ok))
  {
  }

  lemma OtherEndedWakeups(s: State, m: ManagerId, ok: bool)
    requires NoLostWakeup(s)
    ensures NoLostWakeup(OtherEnded(s, m, ok))
  {
  }

  lemma OtherEndedKept(s: State, m: ManagerId, ok: bool)
    requires Inv(s)
    ensures Inv(OtherEnded(s, m, ok))
  {
    OtherEndedUses(s, m, ok);
    OtherEndedWakeups(s, m, ok);
  }

  predicate IsNotice(a: Action) {
    a.Edit? || a.SetPath? || a.CheckFlag? || a.SetPending? || a.BeginOther? || a.EndOther?
  }

  predicate IsLifecycle(a: Action) {
    a.BeginEnable? || a.Register? || a.BeginDisable? || a.Unregister? || a.DrainUse? || a.FinishDisable?
  }

  lemma NoticeKept(s: State, a: Action)
    requires Inv(s) && IsNotice(a)
    ensures Inv(Apply(s, a))
  {
    match a
    case Edit(m) => EditedKept(s, m);
    case SetPath(m, unsaved) => PathSetKept(s, m, unsaved);
    case CheckFlag(m) => FlagCheckedKept(s, m);
    case SetPending(m) => PendingSetKept(s, m);
    case BeginOther(m, saver) => OtherBegunKept(s, m, saver);
    case EndOther(m, ok) => OtherEndedKept(s, m, ok);
  }

  lemma LifecycleKept(s: State, a: Action)
    requires Inv(s) && IsLifecycle(a)
    ensures Inv(Apply(s, a))
  {
    match a
    case BeginEnable(m) => EnableBegunKept(s, m);
    case Register => RegisteredNowKept(s);
    case BeginDisable(m) => DisableBegunKept(s, m);
    case Unregister => UnregisteredKept(s);
    case DrainUse => UseDrainedKept(s);
    case FinishDisable => DisableFinishedKept(s);
  }

  lemma ScanningKept(s: State, a: Action)
    requires Inv(s) && !IsNotice(a) && !IsLifecycle(a)
    ensures Inv(Apply(s, a))
  {
    match a
    case Wake => WokenKept(s);
    case BeginScan => ScanBegunKept(s);
    case EndScan => ScanEndedKept(s);
    case WorkerExit => WorkerExitedKept(s);
    case BeginFlush(t) => FlushBegunKept(s, t);
    case EndFlush(t) => FlushEndedKept(s, t);
    case Enter(saver) => EnteredKept(s, saver);
    case BeginSave(saver) => SaveBegunKept(s, saver);
    case EndSave(saver, ok) => SaveEndedKept(s, saver, ok);
    case _ => assert false;
  }

  // ---- every run

  function Run(s: State, actions: seq<Action>): State
    decreases |actions|
  {
    if actions == [] then s else Run(Apply(s, actions[0]), actions[1..])
  }

  lemma {:induction false} RunKept(s: State, actions: seq<Action>)
    requires Inv(s)
    ensures Inv(Run(s, actions))
    decreases |actions|
  {
    if actions != [] {
      if IsNotice(actions[0]) { NoticeKept(s, actions[0]); }
      else if IsLifecycle(actions[0]) { LifecycleKept(s, actions[0]); }
      else { ScanningKept(s, actions[0]); }
      RunKept(Apply(s, actions[0]), actions[1..]);
    }
  }

  // No wake-up is lost: whatever happened, a dirty registered manager is covered by the pending flag, by
  // a thread about to raise it, or by the scan under way, which has yet to reach it or failed to save
  // it; and a worker is alive to act on the flag.
  lemma DirtyManagersAreCovered(actions: seq<Action>, m: ManagerId)
    requires var s := Run(START, actions);
             m in s.dirty && m in s.reg.enabled && Registered(s.reg, m)
    ensures var s := Run(START, actions);
            && (Notified(s, m) || Ahead(s.worker, s.reg.behind, m))
            && !s.stopping && (s.worker.Waiting? || s.worker.Delaying? || s.worker.Scanning?)
  {
    RunKept(START, actions);
  }

  // Once disabling a manager has returned, no registration points at it, no saver thread is using it
  // and none holds its persistence mutex.
  lemma DisabledManagersAreUnused(actions: seq<Action>, m: ManagerId, saver: Saver)
    requires saver.ByWorker? || saver.ByFlush?
    requires var s := Run(START, actions);
             && m !in s.reg.enabled
             && s.reg.lifecycle != Disabling(m)
             && !(s.reg.lifecycle.Draining? && s.reg.lifecycle.m == m)
    ensures var s := Run(START, actions);
            && (forall r :: r in s.reg.behind ==> s.reg.behind[r] != m)
            && (ScanOf(s.worker, s.flushes, saver).Some? ==> Target(s.reg.behind, ScanOf(s.worker, s.flushes, saver).value) != Some(m))
            && (m in s.persisting ==> s.persisting[m].saver != saver)
  {
    RunKept(START, actions);
    var s := Run(START, actions);
    forall r | r in s.reg.behind ensures s.reg.behind[r] != m {
      if r in s.reg.managers { assert s.reg.behind[r] in s.reg.enabled || s.reg.lifecycle == Disabling(s.reg.behind[r]); }
    }
  }

  // ---- whose return from disabling guarantees what

  predicate DisableUnderWay(l: Lifecycle, m: ManagerId) {
    l == Disabling(m) || (l.Draining? && l.m == m)
  }

  predicate InsideOf(s: State, m: ManagerId, saver: Saver) {
    ScanOf(s.worker, s.flushes, saver).Some? && Target(s.reg.behind, ScanOf(s.worker, s.flushes, saver).value) == Some(m)
  }

  predicate StaysDisabled(r: Registry, m: ManagerId) { m !in r.enabled && !DisableUnderWay(r.lifecycle, m) }

  lemma DisabledLifecycleKept(s: State, m: ManagerId, a: Action)
    requires StaysDisabled(s.reg, m) && a != BeginEnable(m) && IsLifecycle(a)
    ensures StaysDisabled(Apply(s, a).reg, m)
  {
  }

  lemma OthersKeepRegistry(s: State, a: Action)
    requires !IsLifecycle(a)
    ensures Apply(s, a).reg == s.reg
  {
  }

  lemma {:induction false} DisabledRunKept(s: State, m: ManagerId, actions: seq<Action>)
    requires StaysDisabled(s.reg, m) && BeginEnable(m) !in actions
    ensures StaysDisabled(Run(s, actions).reg, m)
    decreases |actions|
  {
    if actions != [] {
      if IsLifecycle(actions[0]) { DisabledLifecycleKept(s, m, actions[0]); } else { OthersKeepRegistry(s, actions[0]); }
      assert forall a <- actions[1..] :: a in actions;
      DisabledRunKept(Apply(s, actions[0]), m, actions[1..]);
    }
  }

  lemma {:induction false} RunJoined(s: State, a: seq<Action>, b: seq<Action>)
    ensures Run(s, a + b) == Run(Run(s, a), b)
    decreases |a|
  {
    if a == [] {
      assert a + b == b;
    } else {
      assert (a + b)[1..] == a[1..] + b;
      RunJoined(Apply(s, a[0]), a[1..], b);
    }
  }

  // A caller that goes through the life-cycle mutex leaves it with the flag lowered and the mutex free. From
  // then on, until the manager is enabled again, no saver thread uses it.
  lemma DisabledUntilEnabled(before: seq<Action>, after: seq<Action>, m: ManagerId, saver: Saver)
    requires saver.ByWorker? || saver.ByFlush?
    requires m !in Run(START, before).reg.enabled && Run(START, before).reg.lifecycle.Free?
    requires BeginEnable(m) !in after
    ensures !InsideOf(Run(START, before + after), m, saver)
  {
    RunJoined(START, before, after);
    DisabledRunKept(Run(START, before), m, after);
    DisabledManagersAreUnused(before + after, m, saver);
  }

  // A caller that only finds the flag lowered returns at once, and nothing is promised to it: here somebody
  // else is still at disabling the manager, and the worker is inside it.
  lemma FlagLoweredTooSoon(m: ManagerId)
    ensures var s := Run(START, [BeginEnable(m), Register, Wake, BeginScan, Enter(ByWorker), BeginDisable(m)]);
            m !in s.reg.enabled && InsideOf(s, m, ByWorker) && DisableUnderWay(s.reg.lifecycle, m)
  {
    var a := [BeginEnable(m), Register, Wake, BeginScan, Enter(ByWorker), BeginDisable(m)];
    var s1 := Apply(START, a[0]);
    var s2 := Apply(s1, a[1]);
    var s3 := Apply(s2, a[2]);
    var s4 := Apply(s3, a[3]);
    var s5 := Apply(s4, a[4]);
    assert a[1..][1..] == a[2..] && a[2..][1..] == a[3..] && a[3..][1..] == a[4..] && a[4..][1..] == a[5..] && a[5..][1..] == [];
    assert Run(s5, a[5..]) == Apply(s5, a[5]);
    assert Run(s4, a[4..]) == Run(s5, a[5..]);
    assert Run(s3, a[3..]) == Run(s4, a[4..]);
    assert Run(s2, a[2..]) == Run(s3, a[3..]);
    assert Run(s1, a[1..]) == Run(s2, a[2..]);
  }

  // In use with the flag lowered means that the disabling has not returned.
  lemma UsedMeansUnderWay(actions: seq<Action>, m: ManagerId, saver: Saver)
    requires saver.ByWorker? || saver.ByFlush?
    requires m !in Run(START, actions).reg.enabled && InsideOf(Run(START, actions), m, saver)
    ensures DisableUnderWay(Run(START, actions).reg.lifecycle, m)
  {
    if !DisableUnderWay(Run(START, actions).reg.lifecycle, m) { DisabledManagersAreUnused(actions, m, saver); }
  }
}
