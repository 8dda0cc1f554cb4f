// What the saver gets done when nothing comes between: a scan saves every registered manager, and enabling and
// disabling come to their end.
module AutoSaverProgress {
  import opened Options
  import opened AutoSaver
  import opened AutoSaverHistory

  // The managers still to be visited by a scan.
  function Ahead(r: Registry, regs: seq<RegId>, pos: nat): set<ManagerId> {
    set k | pos <= k < |regs| && regs[k] in r.behind :: r.behind[regs[k]]
  }

  // Nobody saves or loads, and nobody else scans.
  predicate Quiet(s: State) { s.persisting == map[] && s.flushes == map[] }

  predicate AllRegistered(r: Registry, regs: seq<RegId>) { forall x <- regs :: x in r.behind }

  // One manager of the scan: it is used, saved if it is dirty, and left.
  lemma VisitOne(s: State) returns (actions: seq<Action>)
    requires Quiet(s) && s.worker.Scanning? && !s.worker.scan.inside && s.worker.scan.pos < |s.worker.scan.regs|
    requires AllRegistered(s.reg, s.worker.scan.regs)
    ensures var scan := s.worker.scan;
            Run(s, actions) == s.(worker := s.worker.(scan := scan.(pos := scan.pos + 1)),
                                  dirty := s.dirty - {s.reg.behind[scan.regs[scan.pos]]})
  {
    var scan := s.worker.scan;
    var m := s.reg.behind[scan.regs[scan.pos]];
    var inside := s.(worker := s.worker.(scan := scan.(inside := true)));
    assert Apply(s, Enter(ByWorker)) == inside;
    actions := [Enter(ByWorker), BeginSave(ByWorker)];
    RunTwo(s, actions[0], actions[1]);
    if m in s.dirty {
      var saving := inside.(persisting := map[m := Persisting(ByWorker, false)]);
      assert Apply(inside, BeginSave(ByWorker)) == saving;
      RunAppended(s, actions, EndSave(ByWorker, true));
      actions := actions + [EndSave(ByWorker, true)];
      assert saving.persisting - {m} == map[];
    } else {
      assert s.dirty - {m} == s.dirty;
    }
  }

  lemma RunTwo(s: State, a: Action, b: Action)
    ensures Run(s, [a, b]) == Apply(Apply(s, a), b)
  {
    RunAppended(s, [], a);
    RunAppended(s, [a], b);
    assert [] + [a] == [a] && [a] + [b] == [a, b];
  }

  lemma NextAhead(r: Registry, regs: seq<RegId>, pos: nat, dirty: set<ManagerId>)
    requires pos < |regs| && regs[pos] in r.behind
    ensures dirty - Ahead(r, regs, pos) == dirty - {r.behind[regs[pos]]} - Ahead(r, regs, pos + 1)
  {
    assert Ahead(r, regs, pos) == {r.behind[regs[pos]]} + Ahead(r, regs, pos + 1);
  }

  lemma {:induction false} VisitAll(s: State) returns (actions: seq<Action>)
    requires Quiet(s) && s.worker.Scanning? && !s.worker.scan.inside && s.worker.scan.pos <= |s.worker.scan.regs|
    requires AllRegistered(s.reg, s.worker.scan.regs)
    ensures var scan := s.worker.scan;
            Run(s, actions) == s.(worker := s.worker.(scan := scan.(pos := |scan.regs|)),
                                  dirty := s.dirty - Ahead(s.reg, scan.regs, scan.pos))
    decreases |s.worker.scan.regs| - s.worker.scan.pos
  {
    var scan := s.worker.scan;
    if scan.pos == |scan.regs| {
      actions := [];
      assert s.dirty - Ahead(s.reg, scan.regs, scan.pos) == s.dirty;
    } else {
      var first := VisitOne(s);
      var next := Run(s, first);
      var rest := VisitAll(next);
      RunJoined(s, first, rest);
      actions := first + rest;
      NextAhead(s.reg, scan.regs, scan.pos, s.dirty);
    }
  }

  lemma RegisteredAreAhead(r: Registry, m: ManagerId)
    ensures m in Ahead(r, r.managers, 0) <==> Registered(r, m)
  {
    if Registered(r, m) {
      var x :| x in r.managers && x in r.behind && r.behind[x] == m;
      var k :| 0 <= k < |r.managers| && r.managers[k] == x;
    }
  }

  // With the worker waiting and notified, and nobody else at work, the worker can go on by itself until every
  // registered manager is saved and it waits again.
  lemma ScanSavesAll(s: State) returns (actions: seq<Action>)
    requires Inv(s) && Quiet(s) && s.worker.Waiting? && s.pending && !s.stopping
    ensures var t := Run(s, actions);
            && t.worker.Waiting? && !t.pending && t.reg == s.reg && Quiet(t)
            && (forall m :: m in t.dirty <==> m in s.dirty && !Registered(s.reg, m))
  {
    var scanning := s.(pending := false, worker := Scanning(Scan(s.reg.managers, 0, false), {}));
    assert Apply(Apply(s, Wake), BeginScan) == scanning;
    RunTwo(s, Wake, BeginScan);
    var visits := VisitAll(scanning);
    RunJoined(s, [Wake, BeginScan], visits);
    actions := [Wake, BeginScan] + visits + [EndScan];
    RunAppended(s, [Wake, BeginScan] + visits, EndScan);
    forall m ensures m in Ahead(s.reg, s.reg.managers, 0) <==> Registered(s.reg, m) { RegisteredAreAhead(s.reg, m); }
  }

  // The same for a flush, on the thread that asked for it.
  lemma FlushOne(s: State, t: nat) returns (actions: seq<Action>)
    requires s.persisting == map[] && s.flushes.Keys == {t} && !s.worker.Scanning?
    requires !s.flushes[t].inside && s.flushes[t].pos < |s.flushes[t].regs| && AllRegistered(s.reg, s.flushes[t].regs)
    ensures var scan := s.flushes[t];
            Run(s, actions) == s.(flushes := s.flushes[t := scan.(pos := scan.pos + 1)],
                                  dirty := s.dirty - {s.reg.behind[scan.regs[scan.pos]]})
  {
    var scan := s.flushes[t];
    var m := s.reg.behind[scan.regs[scan.pos]];
    var inside := s.(flushes := s.flushes[t := scan.(inside := true)]);
    assert !InUse(s, scan.regs[scan.pos]);
    assert Apply(s, Enter(ByFlush(t))) == inside;
    actions := [Enter(ByFlush(t)), BeginSave(ByFlush(t))];
    RunTwo(s, actions[0], actions[1]);
    if m in s.dirty {
      RunAppended(s, actions, EndSave(ByFlush(t), true));
      actions := actions + [EndSave(ByFlush(t), true)];
    }
    FlushSaves(inside, t, m);
    assert inside.flushes[t := scan.(pos := scan.pos + 1)] == s.flushes[t := scan.(pos := scan.pos + 1)];
  }

  lemma FlushSaves(s: State, t: nat, m: ManagerId)
    requires s.persisting == map[] && t in s.flushes && Target(s.reg.behind, s.flushes[t]) == Some(m)
    ensures var begun := Apply(s, BeginSave(ByFlush(t)));
            (if m in s.dirty then Apply(begun, EndSave(ByFlush(t), true)) else begun)
            == s.(flushes := s.flushes[t := s.flushes[t].(pos := s.flushes[t].pos + 1, inside := false)], dirty := s.dirty - {m})
  {
    if m in s.dirty {
      var saving := s.(persisting := map[m := Persisting(ByFlush(t), false)]);
      assert Apply(s, BeginSave(ByFlush(t))) == saving;
      assert saving.persisting - {m} == map[];
    } else {
      assert s.dirty - {m} == s.dirty;
    }
  }

  lemma {:induction false} FlushRest(s: State, t: nat) returns (actions: seq<Action>)
    requires s.persisting == map[] && s.flushes.Keys == {t} && !s.worker.Scanning?
    requires !s.flushes[t].inside && s.flushes[t].pos <= |s.flushes[t].regs| && AllRegistered(s.reg, s.flushes[t].regs)
    ensures var scan := s.flushes[t];
            Run(s, actions) == s.(flushes := s.flushes[t := scan.(pos := |scan.regs|)],
                                  dirty := s.dirty - Ahead(s.reg, scan.regs, scan.pos))
    decreases |s.flushes[t].regs| - s.flushes[t].pos
  {
    var scan := s.flushes[t];
    if scan.pos == |scan.regs| {
      actions := [];
      assert s.flushes[t := scan.(pos := |scan.regs|)] == s.flushes;
      assert s.dirty - Ahead(s.reg, scan.regs, scan.pos) == s.dirty;
    } else {
      var first := FlushOne(s, t);
      var rest := FlushRest(Run(s, first), t);
      RunJoined(s, first, rest);
      actions := first + rest;
      NextAhead(s.reg, scan.regs, scan.pos, s.dirty);
    }
  }

  lemma RunBetween(s: State, a: Action, between: seq<Action>, b: Action)
    ensures Run(s, [a] + between + [b]) == Apply(Run(Apply(s, a), between), b)
  {
    RunAppended(s, [], a);
    assert [] + [a] == [a];
    RunJoined(s, [a], between);
    RunAppended(s, [a] + between, b);
  }

  lemma FlushEnds(s: State, t: nat)
    requires s.flushes.Keys == {t} && s.flushes[t].pos == |s.flushes[t].regs|
    ensures Apply(s, EndFlush(t)) == s.(flushes := map[])
  {
    assert s.flushes - {t} == map[];
  }

  // A flush that nobody disturbs saves every registered manager.
  lemma FlushSavesAll(s: State, t: nat) returns (actions: seq<Action>)
    requires Inv(s) && Quiet(s) && !s.worker.Scanning?
    ensures var u := Run(s, actions);
            && u == s.(dirty := u.dirty) && (forall m :: m in u.dirty <==> m in s.dirty && !Registered(s.reg, m))
  {
    var begun := s.(flushes := map[t := Scan(s.reg.managers, 0, false)]);
    assert Apply(s, BeginFlush(t)) == begun;
    var visits := FlushRest(begun, t);
    actions := [BeginFlush(t)] + visits + [EndFlush(t)];
    RunBetween(s, BeginFlush(t), visits, EndFlush(t));
    FlushEnds(Run(begun, visits), t);
    forall m ensures m in Ahead(s.reg, s.reg.managers, 0) <==> Registered(s.reg, m) { RegisteredAreAhead(s.reg, m); }
  }

  // ---- notices

  // An edit of an enabled manager notifies the worker, in three steps of the editing thread; of another it does not.
  lemma EditNotifies(s: State, m: ManagerId)
    ensures var e := Apply(s, Edit(m));
            var c := Apply(e, CheckFlag(m));
            && m in e.dirty && m in e.checking && c.checking == s.checking && c.dirty == e.dirty
            && (if m in s.reg.enabled
                then m in c.notifying && c.pending == s.pending
                     && Apply(c, SetPending(m)) == e.(checking := s.checking, pending := true)
                else c == e.(checking := s.checking))
    ensures (m !in s.checking ==> Apply(s, CheckFlag(m)) == s) && (m !in s.notifying ==> Apply(s, SetPending(m)) == s)
  {
    assert s.checking + multiset{m} - multiset{m} == s.checking;
    assert s.notifying + multiset{m} - multiset{m} == s.notifying;
  }

  // ---- the life cycle

  // Enabling registers the manager, wakes the worker and has one running.
  lemma EnableCompletes(s: State, m: ManagerId)
    requires Inv(s) && s.reg.lifecycle.Free? && m !in s.reg.enabled
    ensures var t := Apply(Apply(s, BeginEnable(m)), Register);
            && t.reg.lifecycle.Free? && t.reg.enabled == s.reg.enabled + {m} && Registered(t.reg, m) && t.pending
            && !t.stopping && (t.worker.Waiting? || t.worker.Delaying? || t.worker.Scanning?)
            && t.dirty == s.dirty && t.persisting == s.persisting
  {
    var t := Apply(Apply(s, BeginEnable(m)), Register);
    assert s.reg.nextReg in t.reg.managers && t.reg.behind[s.reg.nextReg] == m;
  }

  // The two sections that lower the flag and take the registration off the list.
  lemma TakenOff(s: State, m: ManagerId) returns (reg: RegId)
    requires Inv(s) && s.reg.lifecycle.Free? && m in s.reg.enabled
    ensures reg in s.reg.managers && reg in s.reg.behind && s.reg.behind[reg] == m
    ensures var left := Without(s.reg.managers, reg);
            Apply(Apply(s, BeginDisable(m)), Unregister)
            == s.(stopping := s.stopping || left == [],
                  reg := s.reg.(enabled := s.reg.enabled - {m}, managers := left, lifecycle := Draining(m, reg, left == [])))
  {
    var lowered := Apply(s, BeginDisable(m)).reg;
    RegOfFinds(lowered, m, s.reg.managers);
    assert Registered(s.reg, m);
    reg := RegOf(lowered, m, s.reg.managers).value;
  }

  // The wait for the registration not to be in use, for the worker if it was told to stop, and the end.
  lemma Drained(s: State) returns (actions: seq<Action>)
    requires s.reg.lifecycle.Draining? && s.flushes == map[] && (s.worker.Waiting? || s.worker.Delaying?)
    requires s.reg.lifecycle.join ==> s.stopping
    ensures Run(s, actions) == s.(reg := s.reg.(behind := s.reg.behind - {s.reg.lifecycle.reg}, lifecycle := Free),
                                  worker := if s.reg.lifecycle.join then NotStarted else s.worker)
  {
    var join := s.reg.lifecycle.join;
    var free := s.(reg := s.reg.(behind := s.reg.behind - {s.reg.lifecycle.reg}, lifecycle := Joining(join)));
    assert Apply(s, DrainUse) == free;
    if join {
      assert Apply(free, WorkerExit) == free.(worker := Exited);
      RunTwo(s, DrainUse, WorkerExit);
      RunAppended(s, [DrainUse, WorkerExit], FinishDisable);
      actions := [DrainUse, WorkerExit] + [FinishDisable];
    } else {
      RunTwo(s, DrainUse, FinishDisable);
      actions := [DrainUse, FinishDisable];
    }
  }

  // Disabling a manager that nobody uses takes its registration away and no other, and the worker with the last one.
  lemma DisableCompletes(s: State, m: ManagerId) returns (actions: seq<Action>)
    requires Inv(s) && s.reg.lifecycle.Free? && m in s.reg.enabled && s.flushes == map[] && (s.worker.Waiting? || s.worker.Delaying?)
    ensures var t := Run(s, actions);
            && t.reg.lifecycle.Free? && t.reg.enabled == s.reg.enabled - {m}
            && (forall n :: Registered(t.reg, n) <==> n != m && Registered(s.reg, n))
            && t.worker == (if t.reg.managers == [] then NotStarted else s.worker)
            && t.dirty == s.dirty && t.persisting == s.persisting
  {
    var reg := TakenOff(s, m);
    var off := Apply(Apply(s, BeginDisable(m)), Unregister);
    RunTwo(s, BeginDisable(m), Unregister);
    var rest := Drained(off);
    RunJoined(s, [BeginDisable(m), Unregister], rest);
    actions := [BeginDisable(m), Unregister] + rest;
    OthersStayRegistered(s.reg, Run(s, actions).reg, reg, m);
  }

  lemma OthersStayRegistered(r: Registry, q: Registry, reg: RegId, m: ManagerId)
    requires Registrations(r) && reg in r.managers && reg in r.behind && r.behind[reg] == m
    requires q.managers == Without(r.managers, reg) && q.behind == r.behind - {reg}
    ensures forall n :: Registered(q, n) <==> n != m && Registered(r, n)
  {
    WithoutRemovesOne(r.managers, reg);
    forall n ensures Registered(q, n) <==> n != m && Registered(r, n) {
      if n != m && Registered(r, n) {
        var x :| x in r.managers && x in r.behind && r.behind[x] == n;
        assert x in q.managers && x in q.behind && q.behind[x] == n;
      }
      if Registered(q, n) {
        var x :| x in q.managers && x in q.behind && q.behind[x] == n;
        assert x in r.managers && r.behind[x] == n;
      }
    }
  }

  // ---- saves and loads asked for by others

  // A caller's save that goes well leaves the manager clean, and one that fails leaves it as it was; a load leaves it
  // clean, and one whose default could not be written leaves it dirty and about to notify.
  lemma OthersComplete(s: State, m: ManagerId, ok: bool)
    requires m !in s.persisting
    ensures var t := Apply(Apply(s, BeginOther(m, ByCaller)), EndOther(m, ok));
            t == s.(dirty := if ok then s.dirty - {m} else s.dirty)
    ensures var t := Apply(Apply(s, BeginOther(m, ByLoad)), EndOther(m, ok));
            if ok then t == s.(dirty := s.dirty - {m}) else t == s.(dirty := s.dirty + {m}, checking := s.checking + multiset{m})
  {
    var saving, loading := Apply(s, BeginOther(m, ByCaller)), Apply(s, BeginOther(m, ByLoad));
    assert saving.persisting - {m} == s.persisting && loading.persisting - {m} == s.persisting;
  }

  // ---- the use mutex

  // The thread is inside the registration.
  predicate Within(s: State, saver: Saver, reg: RegId) {
    var scan := ScanOf(s.worker, s.flushes, saver);
    scan.Some? && Holds(scan.value, reg)
  }

  ghost predicate Exclusive(s: State) {
    forall a: Saver, b: Saver, reg: RegId :: Within(s, a, reg) && Within(s, b, reg) ==> a == b
  }

  lemma WithinMeansInUse(s: State, saver: Saver, reg: RegId)
    requires Within(s, saver, reg)
    ensures InUse(s, reg)
  {
    if saver.ByFlush? { assert saver.thread in s.flushes && Holds(s.flushes[saver.thread], reg); }
  }

  // Only entering brings a thread inside, and only a registration that nobody is inside of.
  lemma ComesInside(s: State, a: Action, saver: Saver, reg: RegId)
    requires Within(Apply(s, a), saver, reg) && !Within(s, saver, reg)
    ensures a == Enter(saver) && !InUse(s, reg) && reg in s.reg.behind
  {
    match a
    case BeginSave(other) => SavingStaysOutside(s, a, saver, reg);
    case EndSave(other, ok) => SavingStaysOutside(s, a, saver, reg);
    case _ =>
  }

  lemma SavingStaysOutside(s: State, a: Action, saver: Saver, reg: RegId)
    requires a.BeginSave? || a.EndSave?
    ensures Within(Apply(s, a), saver, reg) ==> Within(s, saver, reg)
  {
  }

  lemma ExclusiveKept(s: State, a: Action)
    requires Exclusive(s)
    ensures Exclusive(Apply(s, a))
  {
    var t := Apply(s, a);
    forall x: Saver, y: Saver, reg: RegId | Within(t, x, reg) && Within(t, y, reg) ensures x == y {
      if !Within(s, x, reg) {
        ComesInside(s, a, x, reg);
        if Within(s, y, reg) { WithinMeansInUse(s, y, reg); } else { ComesInside(s, a, y, reg); }
      } else if !Within(s, y, reg) {
        ComesInside(s, a, y, reg);
        WithinMeansInUse(s, x, reg);
      }
    }
  }

  // In every run no two threads use the manager behind one registration at a time.
  lemma {:induction false} UseIsExclusive(s: State, actions: seq<Action>)
    requires Exclusive(s)
    ensures Exclusive(Run(s, actions))
    decreases |actions|
  {
    if actions != [] {
      ExclusiveKept(s, actions[0]);
      UseIsExclusive(Apply(s, actions[0]), actions[1..]);
    }
  }

  lemma ExclusiveFromStart(actions: seq<Action>)
    ensures Exclusive(Run(START, actions))
  {
    UseIsExclusive(START, actions);
  }

  // A scan passes over a registration that has been given up, and enters one that is free.
  lemma EnterOrPass(s: State, saver: Saver)
    requires ScanOf(s.worker, s.flushes, saver).Some?
    requires var scan := ScanOf(s.worker, s.flushes, saver).value;
             !scan.inside && scan.pos < |scan.regs| && !InUse(s, scan.regs[scan.pos])
    ensures var scan := ScanOf(s.worker, s.flushes, saver).value;
            var next := ScanOf(Apply(s, Enter(saver)).worker, Apply(s, Enter(saver)).flushes, saver);
            next == Some(if scan.regs[scan.pos] in s.reg.behind then scan.(inside := true) else scan.(pos := scan.pos + 1))
  {
  }
}
