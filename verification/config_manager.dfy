// One configuration manager: the live document, the baseline it was last reconciled with, and the
// critical sections that edit, load, save, rebase and shut it down.
module ConfigManagerModel {
  import opened Options
  import opened JsonDocument
  import opened ThreeWayMerge
  import opened ConfigEdit

  datatype Lifecycle = Open | Closing | Closed

  datatype Snapshot = Snapshot(path: string, local: Json, baseline: Json, baselineValid: bool, revision: nat)

  // What the holder of the persistence mutex is doing while the manager itself stays available.
  datatype Phase =
    | Idle
    | Saving(snapshot: Snapshot)
    | Loading(before: Json, since: nat)

  // `drained`: a persistence section has been entered after shutdown began.
  datatype Manager = Manager(
    conf: Json, path: string, lifecycle: Lifecycle, baseline: Json, baselineValid: bool,
    dirty: bool, revision: nat, phase: Phase, drained: bool)

  const FRESH: Manager := Manager(Null, "", Open, Null, false, false, 0, Idle, false)

  ghost predicate Inv(m: Manager) {
    && (!m.dirty && m.baselineValid ==> m.conf == m.baseline)
    && (m.drained ==> m.lifecycle != Open && !m.phase.Loading? && (m.phase.Saving? ==> m.dirty))
    && (m.lifecycle == Closed ==> !m.dirty && m.phase == Idle)
    && (m.phase.Saving? ==>
          && m.phase.snapshot.revision <= m.revision
          && m.phase.snapshot.path == m.path
          && (m.revision == m.phase.snapshot.revision ==> m.conf == m.phase.snapshot.local)
          && (m.revision != m.phase.snapshot.revision ==> m.dirty))
    && (m.phase.Loading? ==>
          && m.phase.since <= m.revision
          && (m.revision == m.phase.since ==> m.conf == m.phase.before)
          && (m.revision != m.phase.since ==> m.dirty))
  }

  // ---- the critical sections, as functions of the state

  function Edited(m: Manager, conf: Json): Manager {
    m.(conf := conf, dirty := true, revision := m.revision + 1)
  }

  function Repathed(m: Manager, path: string): Manager {
    if path == m.path then m
    else m.(path := path, baseline := Null, baselineValid := false, dirty := !m.conf.Null?, revision := m.revision + 1)
  }

  function LoadBegun(m: Manager): Manager {
    if m.path == "" then m else m.(phase := Loading(m.conf, m.revision))
  }

  function LoadFinished(m: Manager, document: Json, persisted: bool): Manager
    requires m.phase.Loading?
  {
    var changed := m.revision != m.phase.since;
    m.(conf := if changed then Merge(m.phase.before, m.conf, document) else document,
       baseline := document, baselineValid := true, dirty := !persisted || changed,
       revision := m.revision + 1, phase := Idle)
  }

  function SnapshotOf(m: Manager): Snapshot {
    Snapshot(m.path, m.conf, m.baseline, m.baselineValid, m.revision)
  }

  function SaveBegun(m: Manager, onlyIfDirty: bool): Manager {
    var entered := m.(drained := m.drained || m.lifecycle == Closing);
    if m.lifecycle == Closed || (onlyIfDirty && !m.dirty) then entered
    else entered.(phase := Saving(SnapshotOf(m)))
  }

  // `merging` tells a build that shares its files with other processes.
  function SaveFinished(m: Manager, document: Json, merging: bool): Manager
    requires m.phase.Saving?
  {
    if m.revision == m.phase.snapshot.revision then
      m.(conf := document, baseline := document, baselineValid := true, dirty := false, phase := Idle)
    else
      m.(conf := if merging then Merge(m.phase.snapshot.local, m.conf, document) else m.conf,
         baseline := document, baselineValid := true, dirty := true, phase := Idle)
  }

  function ShutdownBegun(m: Manager): Manager {
    if m.lifecycle == Closed then m else m.(lifecycle := Closing)
  }

  function ClosedIfClean(m: Manager): Manager {
    if m.dirty then m else m.(lifecycle := Closed)
  }

  // ---- runs

  datatype Event =
    | Edit(conf: Json)
    | SetPath(path: string)
    | BeginLoad
    | FinishLoad(document: Json, persisted: bool)
    | BeginSave(onlyIfDirty: bool, allowClosing: bool)
    | FailSave
    | FinishSave(document: Json)
    | BeginShutdown
    | CloseIfClean

  // One critical section; a section that is refused, or that would have to wait, changes nothing.
  function Apply(m: Manager, e: Event, merging: bool): Manager {
    match e
    case Edit(conf) => if m.lifecycle.Open? then Edited(m, conf) else m
    case SetPath(path) => if m.lifecycle.Open? && m.phase.Idle? then Repathed(m, path) else m
    case BeginLoad => if m.lifecycle.Open? && m.phase.Idle? then LoadBegun(m) else m
    case FinishLoad(document, persisted) => if m.phase.Loading? then LoadFinished(m, document, persisted) else m
    case BeginSave(onlyIfDirty, allowClosing) =>
      if m.phase.Idle? && (m.lifecycle.Open? || allowClosing) then SaveBegun(m, onlyIfDirty || allowClosing) else m
    case FailSave => if m.phase.Saving? then m.(phase := Idle) else m
    case FinishSave(document) => if m.phase.Saving? then SaveFinished(m, document, merging) else m
    case BeginShutdown => ShutdownBegun(m)
    case CloseIfClean => if m.drained then ClosedIfClean(m) else m
  }

  function Run(m: Manager, events: seq<Event>, merging: bool): Manager
    decreases |events|
  {
    if events == [] then m else Run(Apply(m, events[0], merging), events[1..], merging)
  }

  // Every reachable manager keeps the invariant; in particular, once clean it equals its baseline.
  lemma {:induction false} ReachableManagers(m: Manager, events: seq<Event>, merging: bool)
    requires Inv(m)
    ensures Inv(Run(m, events, merging))
    decreases |events|
  {
    if events != [] { ReachableManagers(Apply(m, events[0], merging), events[1..], merging); }
  }

  // Closed is final: no later event makes the manager dirty, open or different.
  lemma {:induction false} ClosedIsFinal(m: Manager, events: seq<Event>, merging: bool)
    requires Inv(m) && m.lifecycle == Closed
    ensures Run(m, events, merging) == m && !m.dirty
    decreases |events|
  {
    if events != [] {
      assert Apply(m, events[0], merging) == m;
      ClosedIsFinal(m, events[1..], merging);
    }
  }

  // ---- edits made while the file was being written or read

  // A value set while the file was busy is still there after the rebase, at any depth and whatever
  // the file held.
  lemma {:induction false} SetValueSurvivesRebase(before: Json, local: Json, disk: Json, path: Path)
    requires At(local, path).Some? && !At(local, path).value.Object?
    requires At(before, path) != At(local, path)
    ensures At(Merge(before, local, disk), path) == At(local, path)
    decreases local
  {
    if path != [] && (before.Object? || before.Null?) {
      MergedField(before, local, disk, path[0]);
      var key, value := path[0], local.fields[path[0]];
      if key in Before(before) {
        var diskValue := if key in Start(before, disk) then Start(before, disk)[key] else Before(before)[key];
        SetValueSurvivesRebase(Before(before)[key], value, diskValue, path[1..]);
      } else if value.Object? && key in Start(before, disk) {
        SetValueSurvivesRebase(EMPTY_OBJECT, value, Start(before, disk)[key], path[1..]);
      }
    }
  }

  // What was removed while the file was busy, a key or anything above it, stays removed after the rebase.
  lemma {:induction false} RemovedKeySurvivesRebase(before: Json, local: Json, disk: Json, path: Path)
    requires At(before, path).Some? && At(local, path) == None
    ensures At(Merge(before, local, disk), path) == None
    decreases local
  {
    if local.Object? {
      MergedField(before, local, disk, path[0]);
      if path[0] in local.fields {
        var diskValue := if path[0] in Start(before, disk) then Start(before, disk)[path[0]] else before.fields[path[0]];
        RemovedKeySurvivesRebase(before.fields[path[0]], local.fields[path[0]], diskValue, path[1..]);
      }
    }
  }

  predicate IsValue(v: Option<Json>) { v.Some? && !v.value.Object? }

  // Every value set between `before` and `now` is in `after`, at any depth, and nothing removed is.
  ghost predicate EditsKept(before: Json, now: Json, after: Json) {
    forall path: Path ::
      && (IsValue(At(now, path)) && At(before, path) != At(now, path) ==> At(after, path) == At(now, path))
      && (At(before, path).Some? && At(now, path) == None ==> At(after, path) == None)
  }

  // What was left alone is taken from the document on file.
  ghost predicate RestAdopted(before: Json, now: Json, document: Json, after: Json) {
    && (before == now ==> after == document)
    && (before.Object? && now.Object? && document.Object? ==>
          forall key | Lookup(now, key) == Lookup(before, key) :: Lookup(after, key) == Lookup(document, key))
  }

  lemma EditsSurvive(before: Json, now: Json, document: Json)
    ensures EditsKept(before, now, Merge(before, now, document))
    ensures RestAdopted(before, now, document, Merge(before, now, document))
  {
    var after := Merge(before, now, document);
    forall path: Path
      ensures IsValue(At(now, path)) && At(before, path) != At(now, path) ==> At(after, path) == At(now, path)
      ensures At(before, path).Some? && At(now, path) == None ==> At(after, path) == None
    {
      if IsValue(At(now, path)) && At(before, path) != At(now, path) {
        SetValueSurvivesRebase(before, now, document, path);
      } else if At(before, path).Some? && At(now, path) == None {
        RemovedKeySurvivesRebase(before, now, document, path);
      }
    }
    if before.Object? && now.Object? && document.Object? {
      forall key | Lookup(now, key) == Lookup(before, key) ensures Lookup(after, key) == Lookup(document, key) {
        UntouchedKeyKeepsDisk(before, now, document, key);
      }
    }
  }

  // ---- runs in which the file is busy

  predicate EndsSave(e: Event) { e.FailSave? || e.FinishSave? }

  // While a save is under way its snapshot stays what it was, and an unchanged revision means an unchanged
  // document.
  lemma {:induction false} SaveUnderWay(m: Manager, events: seq<Event>, merging: bool)
    requires Inv(m) && m.phase.Saving? && forall e <- events :: !EndsSave(e)
    ensures var n := Run(m, events, merging); Inv(n) && n.phase == m.phase
    decreases |events|
  {
    if events != [] {
      assert !EndsSave(events[0]) && forall e <- events[1..] :: e in events;
      SaveUnderWay(Apply(m, events[0], merging), events[1..], merging);
    }
  }

  lemma {:induction false} LoadUnderWay(m: Manager, events: seq<Event>, merging: bool)
    requires Inv(m) && m.phase.Loading? && forall e <- events :: !e.FinishLoad?
    ensures var n := Run(m, events, merging); Inv(n) && n.phase == m.phase
    decreases |events|
  {
    if events != [] {
      assert !events[0].FinishLoad? && forall e <- events[1..] :: e in events;
      LoadUnderWay(Apply(m, events[0], merging), events[1..], merging);
    }
  }

  // Whatever happens between the snapshot of a save and its end: what was set or removed meanwhile is set or
  // removed afterwards, and unsaved; if nothing was, the document on file is adopted and nothing is unsaved.
  lemma SaveKeepsEdits(m: Manager, onlyIfDirty: bool, allowClosing: bool, events: seq<Event>, document: Json, merging: bool)
    requires Inv(m) && m.phase.Idle? && Apply(m, BeginSave(onlyIfDirty, allowClosing), merging).phase.Saving?
    requires forall e <- events :: !EndsSave(e)
    ensures var now := Run(Apply(m, BeginSave(onlyIfDirty, allowClosing), merging), events, merging);
            var after := Apply(now, FinishSave(document), merging);
            && EditsKept(m.conf, now.conf, after.conf) && after.phase.Idle? && after.baselineValid && after.baseline == document
            && (after.dirty <==> now.revision != m.revision)
            && (!after.dirty ==> now.conf == m.conf && after.conf == document)
            && (after.dirty && merging ==> RestAdopted(m.conf, now.conf, document, after.conf))
            && (after.dirty && !merging ==> after.conf == now.conf)
  {
    var begun := Apply(m, BeginSave(onlyIfDirty, allowClosing), merging);
    SaveUnderWay(begun, events, merging);
    EditsSurvive(m.conf, Run(begun, events, merging).conf, document);
  }

  // The same for a load; what was read but could not be put on file is unsaved, too.
  lemma LoadKeepsEdits(m: Manager, events: seq<Event>, document: Json, persisted: bool, merging: bool)
    requires Inv(m) && m.phase.Idle? && Apply(m, BeginLoad, merging).phase.Loading? && forall e <- events :: !e.FinishLoad?
    ensures var now := Run(Apply(m, BeginLoad, merging), events, merging);
            var after := Apply(now, FinishLoad(document, persisted), merging);
            && EditsKept(m.conf, now.conf, after.conf) && after.phase.Idle? && after.baselineValid && after.baseline == document
            && (after.dirty <==> !persisted || now.revision != m.revision)
            && (now.revision == m.revision ==> now.conf == m.conf && after.conf == document)
            && (now.revision != m.revision ==> RestAdopted(m.conf, now.conf, document, after.conf))
  {
    var begun := Apply(m, BeginLoad, merging);
    LoadUnderWay(begun, events, merging);
    EditsSurvive(m.conf, Run(begun, events, merging).conf, document);
  }

  // ---- what gets through

  // A new path is taken over at once, and nothing known of the old file is used again.
  lemma PathChanges(m: Manager, path: string, merging: bool)
    requires m.lifecycle.Open? && m.phase.Idle?
    ensures var n := Apply(m, SetPath(path), merging);
            && n.path == path && n.conf == m.conf && n.lifecycle.Open? && n.phase.Idle?
            && (path != m.path ==> !n.baselineValid && n.dirty == !m.conf.Null? && n.revision > m.revision)
            && (path == m.path ==> n == m)
  {
  }

  // A load or save begins only where there is something to load or save, and is over when it failed or ended.
  lemma BusyOnlyIfWanted(m: Manager, onlyIfDirty: bool, allowClosing: bool, merging: bool)
    requires m.phase.Idle?
    ensures Apply(m, BeginLoad, merging).phase.Loading? <==> m.lifecycle.Open? && m.path != ""
    ensures Apply(m, BeginSave(onlyIfDirty, allowClosing), merging).phase.Saving? <==>
              && (m.lifecycle.Open? || (allowClosing && m.lifecycle == Closing))
              && (m.dirty || !(onlyIfDirty || allowClosing))
  {
  }

  // A save that failed has changed nothing, and can be tried again.
  lemma FailedSaveRepeats(m: Manager, onlyIfDirty: bool, allowClosing: bool, merging: bool)
    requires Inv(m) && m.phase.Idle? && Apply(m, BeginSave(onlyIfDirty, allowClosing), merging).phase.Saving?
    ensures var saving := Apply(m, BeginSave(onlyIfDirty, allowClosing), merging);
            var failed := Apply(saving, FailSave, merging);
            && failed.phase.Idle? && failed.conf == m.conf && failed.dirty == m.dirty && failed.revision == m.revision
            && failed.baseline == m.baseline && failed.baselineValid == m.baselineValid
            && Apply(failed, BeginSave(onlyIfDirty, allowClosing), merging) == saving
  {
  }

  // Shutting down gets to its end: what is unsaved is saved once more, and then the manager is closed.
  lemma ShutdownCompletes(m: Manager, document: Json, merging: bool)
    requires Inv(m) && m.phase.Idle?
    ensures var closing := Apply(m, BeginShutdown, merging);
            var saving := Apply(closing, BeginSave(true, true), merging);
            var saved := if saving.phase.Saving? then Apply(saving, FinishSave(document), merging) else saving;
            && !closing.lifecycle.Open? && closing.conf == m.conf
            && (saving.phase.Saving? <==> m.dirty) && (m.dirty ==> saving.phase.snapshot.local == m.conf)
            && Apply(saved, CloseIfClean, merging).lifecycle == Closed
            && (m.lifecycle.Open? ==> !Apply(saving, CloseIfClean, merging).lifecycle.Open?)
            && (m.dirty ==> Apply(saving, CloseIfClean, merging).lifecycle == Closing)
  {
  }

  // ---- the manager object

  class ConfigManager {
    var conf: Json
    var path: string
    var lifecycle: Lifecycle
    var baseline: Json
    var baselineValid: bool
    var dirty: bool
    var revision: nat
    var phase: Phase
    var drained: bool
    var held: bool            // the document mutex is owned by an access
    const merging: bool
    ghost var settled: Json   // the document when the mutex was last free

    ghost function Abs(): Manager
      reads this
    {
      Manager(settled, path, lifecycle, baseline, baselineValid, dirty, revision, phase, drained)
    }

    ghost predicate Valid()
      reads this
    {
      && Inv(Abs())
      && (held ==> lifecycle == Open)
      && (!held ==> conf == settled)
    }

    constructor (merging: bool)
      ensures Valid() && !held && Abs() == FRESH && this.merging == merging
    {
      conf, path, lifecycle, baseline, baselineValid := Null, "", Open, Null, false;
      dirty, revision, phase, drained, held := false, 0, Idle, false, false;
      settled := Null;
      this.merging := merging;
    }

    // Fails, as the source throws, once shutdown has begun.
    method Acquire() returns (ok: bool)
      requires Valid() && !held
      modifies `held
      ensures Valid() && held == ok == lifecycle.Open? && Abs() == old(Abs())
    {
      ok := lifecycle.Open?;
      held := ok;
    }

    method Release(modified: bool)
      requires Valid() && held && (!modified ==> conf == settled)
      modifies this
      ensures Valid() && !held && conf == old(conf)
      ensures Abs() == if modified then Edited(old(Abs()), conf) else old(Abs())
    {
      held := false;
      if modified {
        dirty := true;
        revision := revision + 1;
      }
      settled := conf;
    }

    method SetPath(newPath: string) returns (ok: bool, notify: bool)
      requires Valid() && !held && phase == Idle
      modifies this
      ensures Valid() && !held
      ensures ok == old(lifecycle.Open?)
      ensures Abs() == if ok then Repathed(old(Abs()), newPath) else old(Abs())
      ensures notify <==> ok && newPath != old(path) && dirty
      ensures conf == old(conf) && (ok ==> path == newPath)
      ensures ok && newPath != old(path) ==>
                baseline == Null && !baselineValid && dirty == !conf.Null? && revision == old(revision) + 1
      ensures !ok || newPath == old(path) ==> Abs() == old(Abs())
    {
      if lifecycle != Open { return false, false; }
      ok, notify := true, false;
      if path != newPath {
        path := newPath;
        baseline := Null;
        baselineValid := false;
        dirty := !conf.Null?;
        revision := revision + 1;
        notify := dirty;
      }
    }

    method BeginLoad() returns (started: bool)
      requires Valid() && !held && phase == Idle
      modifies this
      ensures Valid() && !held
      ensures started == old(lifecycle.Open? && path != "")
      ensures Abs() == if started then LoadBegun(old(Abs())) else old(Abs())
      ensures started ==> phase == Loading(conf, revision)
    {
      started := lifecycle.Open? && path != "";
      if started { phase := Loading(conf, revision); }
    }

    method FinishLoad(document: Json, persisted: bool)
      requires Valid() && !held && phase.Loading?
      modifies this
      ensures Valid() && !held && Abs() == LoadFinished(old(Abs()), document, persisted)
      ensures EditsKept(old(phase.before), old(conf), conf)
      ensures if old(revision == phase.since) then conf == document else RestAdopted(old(phase.before), old(conf), document, conf)
      ensures phase.Idle? && baseline == document && baselineValid && (dirty <==> !persisted || old(revision != phase.since))
      ensures revision == old(revision) + 1 && lifecycle == old(lifecycle) && path == old(path)
    {
      EditsSurvive(phase.before, conf, document);
      var changed := revision != phase.since;
      if changed {
        conf := MergeLocalChanges(phase.before, conf, document);
      } else {
        conf := document;
      }
      baseline := document;
      baselineValid := true;
      dirty := !persisted || changed;
      revision := revision + 1;
      phase := Idle;
      settled := conf;
    }

    // Every caller that may save while closing saves only what is dirty. A refusal is the source's
    // exception; otherwise `result` is the answer of a save that needs no disk.
    method BeginSave(onlyIfDirty: bool, allowClosing: bool) returns (refused: bool, started: bool, result: bool)
      requires Valid() && !held && phase == Idle && (allowClosing ==> onlyIfDirty)
      modifies this
      ensures Valid() && !held
      ensures refused == old(!lifecycle.Open? && !allowClosing)
      ensures Abs() == if refused then old(Abs()) else SaveBegun(old(Abs()), onlyIfDirty)
      ensures started <==> phase.Saving?
      ensures started <==> !refused && !old(lifecycle.Closed?) && (old(dirty) || !onlyIfDirty)
      ensures started ==> phase.snapshot == Snapshot(old(path), old(conf), old(baseline), old(baselineValid), old(revision))
      ensures conf == old(conf) && lifecycle == old(lifecycle) && dirty == old(dirty) && revision == old(revision)
      ensures drained == (old(drained) || (!refused && lifecycle == Closing))
      ensures !refused && !started ==> result && !dirty
    {
      refused, started, result := false, false, false;
      if lifecycle != Open {
        if !allowClosing { return true, false, false; }
        drained := drained || lifecycle == Closing;
        if lifecycle == Closed { return false, false, !dirty; }
      }
      if onlyIfDirty && !dirty { return false, false, true; }
      phase := Saving(Snapshot(path, conf, baseline, baselineValid, revision));
      started := true;
    }

    // The write failed: nothing is learnt about the file and the document stays dirty.
    method FailSave()
      requires Valid() && !held && phase.Saving?
      modifies `phase
      ensures Valid() && !held && Abs() == old(Abs()).(phase := Idle)
    {
      phase := Idle;
    }

    method FinishSave(document: Json)
      requires Valid() && !held && phase.Saving?
      modifies this
      ensures Valid() && !held && Abs() == SaveFinished(old(Abs()), document, merging)
      ensures EditsKept(old(phase.snapshot.local), old(conf), conf)
      ensures if old(revision == phase.snapshot.revision) then conf == document
              else if merging then RestAdopted(old(phase.snapshot.local), old(conf), document, conf) else conf == old(conf)
      ensures phase.Idle? && baseline == document && baselineValid && (dirty <==> old(revision != phase.snapshot.revision))
      ensures revision == old(revision) && lifecycle == old(lifecycle) && path == old(path)
    {
      EditsSurvive(phase.snapshot.local, conf, document);
      if revision == phase.snapshot.revision {
        baseline := document;
        conf := document;
        dirty := false;
      } else {
        if merging { conf := MergeLocalChanges(phase.snapshot.local, conf, document); }
        baseline := document;
        dirty := true;
      }
      baselineValid := true;
      phase := Idle;
      settled := conf;
    }

    method BeginShutdown() returns (done: bool)
      requires Valid() && !held
      modifies this
      ensures Valid() && !held && Abs() == ShutdownBegun(old(Abs())) && done == lifecycle.Closed?
      ensures !lifecycle.Open? && done == old(lifecycle.Closed?) && conf == old(conf) && dirty == old(dirty)
    {
      done := lifecycle == Closed;
      if !done { lifecycle := Closing; }
    }

    // The last section of a shutdown, reached only after its own save has taken the persistence mutex.
    method CloseIfClean() returns (closed: bool)
      requires Valid() && !held && !lifecycle.Open? && drained
      modifies `lifecycle
      ensures Valid() && !held && Abs() == ClosedIfClean(old(Abs())) && closed == lifecycle.Closed?
      ensures closed <==> !dirty
    {
      closed := !dirty;
      if closed { lifecycle := Closed; }
    }
  }
}
