// Several processes loading, editing and saving one readable file. Each step is one critical section:
// of the document mutex of one process, or of the commit lock they all share.
module SharedFile {
  import opened Options
  import opened JsonDocument
  import opened ThreeWayMerge
  import opened ConfigManagerModel

  type Pid = nat

  // `document`: what the commit lock section produced, until the manager installs it. `read`: it came
  // from the file. History: `inSync`, the baseline was last taken from the file, and `found`, what the last
  // commit found there.
  datatype Process = Process(manager: Manager, document: Option<Json>, read: bool, inSync: bool, found: Json)

  datatype World = World(disk: Json, procs: map<Pid, Process>)

  datatype Action =
    | Edit(conf: Json)
    | BeginLoad
    | ReadFile
    | LoadWithoutLock(def: Json)
    | FinishLoad
    | BeginSave(onlyIfDirty: bool, allowClosing: bool)
    | Commit(writable: bool)
    | LockUnavailable
    | FinishSave
    | BeginShutdown
    | CloseIfClean

  datatype Step = Step(pid: Pid, action: Action)

  // The document a save commits, merged with the file unless the process never loaded it.
  function Committed(snapshot: Snapshot, disk: Json): Json {
    if snapshot.baselineValid then Merge(snapshot.baseline, snapshot.local, disk) else snapshot.local
  }

  function DoProcess(p: Process, disk: Json, action: Action): (Process, Json) {
    var m := p.manager;
    match action
    case Edit(conf) => (p.(manager := Apply(m, ConfigManagerModel.Edit(conf), true)), disk)
    case BeginLoad => (p.(manager := Apply(m, ConfigManagerModel.BeginLoad, true)), disk)
    case ReadFile =>
      (if m.phase.Loading? && p.document == None then p.(document := Some(disk), read := true) else p, disk)
    case LoadWithoutLock(def) =>
      (if m.phase.Loading? && p.document == None then p.(document := Some(def), read := false) else p, disk)
    case FinishLoad =>
      (if m.phase.Loading? && p.document.Some?
       then Process(LoadFinished(m, p.document.value, p.read), None, p.read, p.read, p.found) else p, disk)
    case BeginSave(onlyIfDirty, allowClosing) =>
      (p.(manager := Apply(m, ConfigManagerModel.BeginSave(onlyIfDirty, allowClosing), true)), disk)
    case Commit(writable) =>
      if m.phase.Saving? && p.document == None then
        var document := Committed(m.phase.snapshot, disk);
        if document != disk && !writable then (p.(manager := m.(phase := Idle)), disk)
        else (p.(document := Some(document), found := disk), document)
      else (p, disk)
    case LockUnavailable =>
      (if m.phase.Saving? && p.document == None then p.(manager := m.(phase := Idle)) else p, disk)
    case FinishSave =>
      (if m.phase.Saving? && p.document.Some?
       then Process(SaveFinished(m, p.document.value, true), None, p.read, true, p.found) else p, disk)
    case BeginShutdown => (p.(manager := Apply(m, ConfigManagerModel.BeginShutdown, true)), disk)
    case CloseIfClean => (p.(manager := Apply(m, ConfigManagerModel.CloseIfClean, true)), disk)
  }

  function Do(w: World, step: Step): World {
    if step.pid in w.procs then
      var (p, disk) := DoProcess(w.procs[step.pid], w.disk, step.action);
      World(disk, w.procs[step.pid := p])
    else w
  }

  // ---- what a step does to the file

  // The file holds the merged document after a commit that could write; one that could not leaves the file alone,
  // and goes well only if there was nothing to write.
  lemma CommitOutcome(p: Process, disk: Json, writable: bool)
    requires p.manager.phase.Saving? && p.document == None
    ensures var (q, after) := DoProcess(p, disk, Commit(writable));
            var document := Committed(p.manager.phase.snapshot, disk);
            && (writable ==> after == document) && (!writable ==> after == disk)
            && (q.document == Some(document) <==> writable || document == disk)
            && (q.document == None ==> q.manager.phase.Idle?) && q.manager.conf == p.manager.conf && q.manager.dirty == p.manager.dirty
  {
  }

  lemma OnlyCommitsWrite(p: Process, disk: Json, action: Action)
    requires !action.Commit?
    ensures DoProcess(p, disk, action).1 == disk
  {
  }

  // A process that loads undisturbed holds what is in the file, and knows that it does.
  lemma LoadAdoptsFile(p: Process, disk: Json)
    requires p.manager.lifecycle.Open? && p.manager.phase.Idle? && p.manager.path != "" && p.document == None
    ensures var q := DoProcess(DoProcess(DoProcess(p, disk, Action.BeginLoad).0, disk, ReadFile).0, disk, Action.FinishLoad).0;
            && q.manager.conf == disk && q.manager.baseline == disk && q.manager.baselineValid && !q.manager.dirty
            && q.inSync && q.document == None && q.manager.phase.Idle?
  {
  }

  // ---- when a save keeps the keys of others

  // Against any object on disk, a save keeps a key exactly when the process has a baseline, has left the
  // key alone since, and merges key by key, or has changed nothing at all.
  lemma CommitKeepsKeyExactly(s: Snapshot, key: string)
    ensures (forall disk: Json :: disk.Object? ==> Lookup(Committed(s, disk), key) == Lookup(disk, key))
            <==> s.baselineValid
                 && (s.local == s.baseline || (KeyByKey(s.baseline, s.local) && Lookup(s.local, key) == Lookup(s.baseline, key)))
  {
    if s.baselineValid {
      KeepsDiskKeyExactly(s.baseline, s.local, key);
    } else {
      var without, having := EMPTY_OBJECT, Object(map[key := Null]);
      assert Lookup(without, key) == None && Lookup(having, key) == Some(Null);
      assert Committed(s, without) == Committed(s, having) == s.local;
    }
  }

  // What rebasing `local` from `baseline` onto a document must not do to keep a key that was left alone.
  // For objects this is the condition above; onto anything else the process must not hold the key.
  ghost predicate Rebases(baseline: Json, local: Json, onto: Json, key: string) {
    local == baseline || (if onto.Object? then KeyByKey(baseline, local) else Lookup(local, key) == None)
  }

  lemma RebasesKeepKey(baseline: Json, local: Json, onto: Json, key: string)
    requires Lookup(local, key) == Lookup(baseline, key) && Rebases(baseline, local, onto, key)
    ensures Lookup(Merge(baseline, local, onto), key) == Lookup(onto, key)
  {
    if onto.Object? { KeepsDiskKeyExactly(baseline, local, key); } else { KeepsNoKeyExactly(baseline, local, onto, key); }
  }

  // What is assumed of a run: only `owner` ever edits `key`, and whenever another process merges, into the
  // file or into its own document, it has a baseline and merges key by key. Of the owner nothing is assumed.
  ghost predicate Allowed(w: World, step: Step, owner: Pid, key: string) {
    step.pid in w.procs && step.pid != owner ==> AllowedOthers(w.procs[step.pid], w.disk, step.action, key)
  }

  ghost predicate AllowedOthers(p: Process, disk: Json, action: Action, key: string) {
    var m := p.manager;
    match action
    case Edit(conf) => Lookup(conf, key) == Lookup(m.conf, key)
    case Commit(_) =>
      m.phase.Saving? && p.document == None ==>
        m.phase.snapshot.baselineValid && Rebases(m.phase.snapshot.baseline, m.phase.snapshot.local, disk, key)
    case FinishSave =>
      m.phase.Saving? && p.document.Some? && m.revision != m.phase.snapshot.revision ==>
        Rebases(m.phase.snapshot.local, m.conf, p.document.value, key)
    case FinishLoad =>
      m.phase.Loading? && p.document.Some? && m.revision != m.phase.since ==>
        Rebases(m.phase.before, m.conf, p.document.value, key)
    case _ => true
  }

  ghost predicate AllAllowed(w: World, steps: seq<Step>, owner: Pid, key: string)
    decreases |steps|
  {
    steps == [] || (Allowed(w, steps[0], owner, key) && AllAllowed(Do(w, steps[0]), steps[1..], owner, key))
  }

  function Run(w: World, steps: seq<Step>): World
    decreases |steps|
  {
    if steps == [] then w else Run(Do(w, steps[0]), steps[1..])
  }

  const NEW: Process := Process(FRESH, None, false, false, Null)

  ghost predicate Initial(w: World) {
    forall p :: p in w.procs ==> exists path :: w.procs[p] == NEW.(manager := FRESH.(path := path))
  }

  // ---- the invariant

  ghost predicate Tracked(p: Process) {
    var m := p.manager;
    && Inv(m)
    && (m.phase.Idle? ==> p.document == None)
    && (m.phase.Saving? ==>
          && m.phase.snapshot.baselineValid == m.baselineValid && m.phase.snapshot.baseline == m.baseline
          && (p.document.Some? ==> p.document.value == Committed(m.phase.snapshot, p.found)))
  }

  // A process that never edits the key has the same value of it in every document it holds.
  ghost predicate Bystander(p: Process, key: string) {
    var m := p.manager;
    && (m.baselineValid ==> Lookup(m.conf, key) == Lookup(m.baseline, key))
    && (m.phase.Saving? ==> Lookup(m.phase.snapshot.local, key) == Lookup(m.conf, key))
    && (m.phase.Loading? ==> Lookup(m.phase.before, key) == Lookup(m.conf, key))
  }

  // The owner's baseline agrees with the file on the key, as does a document it has just committed.
  ghost predicate OwnerInSync(p: Process, disk: Json, key: string) {
    var m := p.manager;
    && (p.inSync && m.baselineValid ==>
          Lookup(m.baseline, key) == Lookup(if m.phase.Saving? && p.document.Some? then p.found else disk, key))
    && (p.document.Some? && (m.phase.Saving? || p.read) ==> Lookup(p.document.value, key) == Lookup(disk, key))
  }

  ghost predicate Good(w: World, owner: Pid, key: string) {
    && (forall p :: p in w.procs ==> Tracked(w.procs[p]))
    && (forall p :: p in w.procs && p != owner ==> Bystander(w.procs[p], key))
    && (owner in w.procs ==> OwnerInSync(w.procs[owner], w.disk, key))
  }

  lemma TrackedKept(p: Process, disk: Json, action: Action)
    requires Tracked(p)
    ensures Tracked(DoProcess(p, disk, action).0)
  {
  }

  lemma CommitByOthers(p: Process, disk: Json, writable: bool, key: string)
    requires Tracked(p) && Bystander(p, key) && AllowedOthers(p, disk, Commit(writable), key)
    ensures var (p', disk') := DoProcess(p, disk, Commit(writable));
            Bystander(p', key) && Lookup(disk', key) == Lookup(disk, key)
  {
    var m := p.manager;
    if m.phase.Saving? && p.document == None {
      RebasesKeepKey(m.phase.snapshot.baseline, m.phase.snapshot.local, disk, key);
    }
  }

  lemma SaveFinishedByOthers(p: Process, disk: Json, key: string)
    requires Tracked(p) && Bystander(p, key) && AllowedOthers(p, disk, Action.FinishSave, key)
    ensures Bystander(DoProcess(p, disk, Action.FinishSave).0, key)
  {
    var m := p.manager;
    if m.phase.Saving? && p.document.Some? && m.revision != m.phase.snapshot.revision {
      RebasesKeepKey(m.phase.snapshot.local, m.conf, p.document.value, key);
    }
  }

  lemma LoadFinishedByOthers(p: Process, disk: Json, key: string)
    requires Tracked(p) && Bystander(p, key) && AllowedOthers(p, disk, Action.FinishLoad, key)
    ensures Bystander(DoProcess(p, disk, Action.FinishLoad).0, key)
  {
    var m := p.manager;
    if m.phase.Loading? && p.document.Some? && m.revision != m.phase.since {
      RebasesKeepKey(m.phase.before, m.conf, p.document.value, key);
    }
  }

  lemma KeptByOthers(p: Process, disk: Json, action: Action, key: string)
    requires Tracked(p) && Bystander(p, key) && AllowedOthers(p, disk, action, key)
    ensures var (p', disk') := DoProcess(p, disk, action); Bystander(p', key) && Lookup(disk', key) == Lookup(disk, key)
  {
    match action
    case Commit(writable) => CommitByOthers(p, disk, writable, key);
    case FinishSave => SaveFinishedByOthers(p, disk, key);
    case FinishLoad => LoadFinishedByOthers(p, disk, key);
    case _ =>
  }

  lemma KeptByOwner(p: Process, disk: Json, action: Action, key: string)
    requires Tracked(p) && OwnerInSync(p, disk, key)
    ensures var (p', disk') := DoProcess(p, disk, action); OwnerInSync(p', disk', key) && (!action.Commit? ==> disk' == disk)
  {
  }

  // ---- every run

  lemma KeptByStep(w: World, step: Step, owner: Pid, key: string)
    requires Good(w, owner, key) && Allowed(w, step, owner, key)
    ensures Good(Do(w, step), owner, key)
    ensures !(step.pid == owner && step.action.Commit?) ==> Lookup(Do(w, step).disk, key) == Lookup(w.disk, key)
  {
    if step.pid in w.procs {
      TrackedKept(w.procs[step.pid], w.disk, step.action);
      if step.pid == owner {
        KeptByOwner(w.procs[owner], w.disk, step.action, key);
      } else {
        KeptByOthers(w.procs[step.pid], w.disk, step.action, key);
      }
    }
  }

  lemma {:induction false} KeptByRun(w: World, steps: seq<Step>, owner: Pid, key: string)
    requires Good(w, owner, key) && AllAllowed(w, steps, owner, key)
    ensures Good(Run(w, steps), owner, key)
    decreases |steps|
  {
    if steps != [] {
      KeptByStep(w, steps[0], owner, key);
      KeptByRun(Do(w, steps[0]), steps[1..], owner, key);
    }
  }

  // Nobody else's loads, edits and saves change the key on disk.
  lemma {:induction false} OnlyTheOwnerChangesTheKey(w: World, steps: seq<Step>, owner: Pid, key: string)
    requires Good(w, owner, key) && AllAllowed(w, steps, owner, key)
    requires forall i :: 0 <= i < |steps| ==> !(steps[i].pid == owner && steps[i].action.Commit?)
    ensures Lookup(Run(w, steps).disk, key) == Lookup(w.disk, key)
    decreases |steps|
  {
    if steps != [] {
      KeptByStep(w, steps[0], owner, key);
      OnlyTheOwnerChangesTheKey(Do(w, steps[0]), steps[1..], owner, key);
    }
  }

  // Whether a commit that finds `found` in the file puts the snapshot's own value of the key there.
  ghost predicate OwnValueStands(s: Snapshot, found: Json, key: string) {
    !s.baselineValid || LocalStands(s.baseline, s.local, found, key)
  }

  lemma OwnValueStandsExactly(s: Snapshot, found: Json, key: string)
    ensures Lookup(Committed(s, found), key) == Lookup(s.local, key) <==> OwnValueStands(s, found, key)
  {
    if s.baselineValid { LocalStandsExactly(s.baseline, s.local, found, key); }
  }

  // After any run, a save of the owner that meets no concurrent edit leaves the owner's live value of
  // the key on disk, and there it stays until the owner commits again. It is the value the owner had before
  // the save exactly when that value stood against what the commit found, and so always when the owner's
  // baseline came from the file.
  lemma SavedKeyIsNeverLost(w: World, before: seq<Step>, after: seq<Step>, owner: Pid, key: string)
    requires Initial(w) && AllAllowed(w, before, owner, key)
    requires owner in Run(w, before).procs
    requires var p := Run(w, before).procs[owner];
             && p.manager.phase.Saving? && p.document.Some?
             && p.manager.revision == p.manager.phase.snapshot.revision
    requires AllAllowed(Do(Run(w, before), Step(owner, Action.FinishSave)), after, owner, key)
    requires forall i :: 0 <= i < |after| ==> !(after[i].pid == owner && after[i].action.Commit?)
    ensures var saving := Run(w, before).procs[owner];
            var done := Do(Run(w, before), Step(owner, Action.FinishSave));
            && !done.procs[owner].manager.dirty
            && Lookup(Run(done, after).disk, key) == Lookup(done.procs[owner].manager.conf, key)
            && (Lookup(Run(done, after).disk, key) == Lookup(saving.manager.conf, key)
                <==> OwnValueStands(saving.manager.phase.snapshot, saving.found, key))
            && (saving.inSync ==> OwnValueStands(saving.manager.phase.snapshot, saving.found, key))
  {
    InitiallyGood(w, owner, key);
    KeptByRun(w, before, owner, key);
    var mid := Run(w, before);
    var s, found := mid.procs[owner].manager.phase.snapshot, mid.procs[owner].found;
    KeptByStep(mid, Step(owner, Action.FinishSave), owner, key);
    OnlyTheOwnerChangesTheKey(Do(mid, Step(owner, Action.FinishSave)), after, owner, key);
    OwnValueStandsExactly(s, found, key);
    if mid.procs[owner].inSync && s.baselineValid { UnchangedStands(s.baseline, s.local, found, key); }
  }

  lemma InitiallyGood(w: World, owner: Pid, key: string)
    requires Initial(w)
    ensures Good(w, owner, key)
  {
  }

  // ---- runs outside these conditions

  lemma {:induction false} RunAppended(w: World, a: seq<Step>, step: Step)
    ensures Run(w, a + [step]) == Do(Run(w, a), step)
    decreases |a|
  {
    if a == [] {
      assert [step][1..] == [];
    } else {
      assert (a + [step])[1..] == a[1..] + [step];
      RunAppended(Do(w, a[0]), a[1..], step);
    }
  }

  // A process that saves before it ever loaded overwrites the file with its own document.
  lemma SavingWithoutABaselineLosesKeys(other: Json)
    ensures var w := World(Object(map["mine" := other]), map[0 := NEW.(manager := FRESH.(path := "f"))]);
            var steps := [Step(0, Action.Edit(Object(map["theirs" := Null]))), Step(0, Action.BeginSave(false, false)),
                          Step(0, Commit(true)), Step(0, Action.FinishSave)];
            && Initial(w) && Lookup(w.disk, "mine") == Some(other) && Lookup(Run(w, steps).disk, "mine") == None
  {
    var w := World(Object(map["mine" := other]), map[0 := NEW.(manager := FRESH.(path := "f"))]);
    var edit, begin, commit, finish :=
      Step(0, Action.Edit(Object(map["theirs" := Null]))), Step(0, Action.BeginSave(false, false)), Step(0, Commit(true)), Step(0, Action.FinishSave);
    assert w.procs[0] == NEW.(manager := FRESH.(path := "f"));
    RunAppended(w, [], edit);
    RunAppended(w, [edit], begin);
    RunAppended(w, [edit, begin], commit);
    RunAppended(w, [edit, begin, commit], finish);
    assert [edit, begin, commit] + [finish] == [edit, begin, commit, finish] && [edit, begin] + [commit] == [edit, begin, commit];
    assert [] + [edit] == [edit] && [edit] + [begin] == [edit, begin];
  }

  // So does one whose document stopped being an object after it loaded.
  lemma SavingNoObjectLosesKeys(other: Json)
    ensures var w := World(Object(map["mine" := other]), map[0 := NEW.(manager := FRESH.(path := "f"))]);
            var steps := [Step(0, Action.BeginLoad), Step(0, ReadFile), Step(0, Action.FinishLoad),
                          Step(0, Action.Edit(Null)), Step(0, Action.BeginSave(false, false)), Step(0, Commit(true))];
            && Initial(w) && Lookup(w.disk, "mine") == Some(other) && Lookup(Run(w, steps).disk, "mine") == None
  {
    var w := World(Object(map["mine" := other]), map[0 := NEW.(manager := FRESH.(path := "f"))]);
    var s := [Step(0, Action.BeginLoad), Step(0, ReadFile), Step(0, Action.FinishLoad),
              Step(0, Action.Edit(Null)), Step(0, Action.BeginSave(false, false)), Step(0, Commit(true))];
    assert w.procs[0] == NEW.(manager := FRESH.(path := "f"));
    forall i | 0 <= i < 6 ensures s[..i + 1] == s[..i] + [s[i]] {}
    RunAppended(w, s[..0], s[0]);
    RunAppended(w, s[..1], s[1]);
    RunAppended(w, s[..2], s[2]);
    RunAppended(w, s[..3], s[3]);
    RunAppended(w, s[..4], s[4]);
    RunAppended(w, s[..5], s[5]);
    assert s[..6] == s;
  }

  // And an owner that fell back to its default while the file could not be locked, and left the key as it is
  // there, ends with the value in the file instead of its own.
  lemma DefaultsGiveWayToTheFile(mine: Json, stored: Json)
    requires mine != stored
    ensures var w := World(Object(map["mine" := stored]), map[0 := NEW.(manager := FRESH.(path := "f"))]);
            var steps := [Step(0, Action.BeginLoad), Step(0, LoadWithoutLock(Object(map["mine" := mine]))), Step(0, Action.FinishLoad),
                          Step(0, Action.BeginSave(false, false)), Step(0, Commit(true))];
            && Initial(w) && Lookup(Run(w, steps).disk, "mine") == Some(stored) && 0 in Run(w, steps).procs
            && var p := Run(w, steps).procs[0];
               && Lookup(p.manager.conf, "mine") == Some(mine)
               && p.manager.phase.Saving? && !OwnValueStands(p.manager.phase.snapshot, p.found, "mine")
  {
    var w := World(Object(map["mine" := stored]), map[0 := NEW.(manager := FRESH.(path := "f"))]);
    var s := [Step(0, Action.BeginLoad), Step(0, LoadWithoutLock(Object(map["mine" := mine]))), Step(0, Action.FinishLoad),
              Step(0, Action.BeginSave(false, false)), Step(0, Commit(true))];
    assert w.procs[0] == NEW.(manager := FRESH.(path := "f"));
    forall i | 0 <= i < 5 ensures s[..i + 1] == s[..i] + [s[i]] {}
    RunAppended(w, s[..0], s[0]);
    RunAppended(w, s[..1], s[1]);
    RunAppended(w, s[..2], s[2]);
    RunAppended(w, s[..3], s[3]);
    RunAppended(w, s[..4], s[4]);
    assert s[..5] == s;
  }
}
