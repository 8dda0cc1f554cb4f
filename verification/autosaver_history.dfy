// Which changes are unsaved, told from what has happened alone: edits, path changes, and saves and loads with
// their outcomes. A manager is dirty exactly if such a change is left.
module AutoSaverHistory {
  import opened AutoSaver

  // Whether the save or load that ends with this action went well.
  predicate WentWell(a: Action) { (a.EndSave? && a.ok) || (a.EndOther? && a.ok) }

  // A save or load of the manager ends.
  predicate Ends(s: State, a: Action, m: ManagerId) { m in s.persisting && m !in Apply(s, a).persisting }

  predicate Succeeds(s: State, a: Action, m: ManagerId) { Ends(s, a, m) && WentWell(a) }

  // Something is unsaved from here on: an edit, a path under which the document is not saved, or a default that
  // could not be put on file. A path changes only while no save or load is under way.
  predicate Changes(s: State, a: Action, m: ManagerId) {
    || a == Edit(m)
    || (a == SetPath(m, true) && m !in s.persisting)
    || (Ends(s, a, m) && s.persisting[m].saver.ByLoad? && !WentWell(a))
  }

  // A new path that leaves nothing unsaved.
  predicate Forgets(s: State, a: Action, m: ManagerId) { a == SetPath(m, false) && m !in s.persisting }

  // Whether the manager is unsaved after a step, by what the step did.
  ghost predicate Follows(s: State, a: Action, m: ManagerId) {
    m in Apply(s, a).dirty <==>
      if Changes(s, a, m) then true
      else if Forgets(s, a, m) then false
      else if Succeeds(s, a, m) then s.persisting[m].changed
      else m in s.dirty
  }

  lemma EndOfSave(s: State, saver: Saver, ok: bool, m: ManagerId)
    requires NoLostWakeup(s)
    ensures Follows(s, EndSave(saver, ok), m)
  {
  }

  lemma EndOfOther(s: State, n: ManagerId, ok: bool, m: ManagerId)
    requires NoLostWakeup(s)
    ensures Follows(s, EndOther(n, ok), m)
  {
  }

  lemma StepOfDirty(s: State, a: Action, m: ManagerId)
    requires NoLostWakeup(s)
    ensures Follows(s, a, m)
  {
    match a
    case EndSave(saver, ok) => EndOfSave(s, saver, ok, m);
    case EndOther(n, ok) => EndOfOther(s, n, ok, m);
    case Edit(n) => Touch(s, a, m);
    case SetPath(n, unsaved) => Touch(s, a, m);
    case _ => NothingTouched(s, a, m);
  }

  lemma Touch(s: State, a: Action, m: ManagerId)
    requires a.Edit? || a.SetPath?
    ensures Follows(s, a, m)
  {
  }

  lemma NothingTouched(s: State, a: Action, m: ManagerId)
    requires !a.EndSave? && !a.EndOther? && !a.Edit? && !a.SetPath?
    ensures Follows(s, a, m)
  {
    NothingEnds(s, a, m);
  }

  lemma NothingEnds(s: State, a: Action, m: ManagerId)
    requires !a.EndSave? && !a.EndOther?
    ensures m in s.persisting ==> m in Apply(s, a).persisting && s.persisting[m].saver == Apply(s, a).persisting[m].saver
    ensures a != Edit(m) && !(a.SetPath? && a.m == m && m !in s.persisting) ==> (m in Apply(s, a).dirty <==> m in s.dirty)
  {
  }

  // Only the thread that holds the save of a manager ends it, and only dirty managers are saved in a scan.
  lemma SavesHaveTheirThread(s: State, a: Action, m: ManagerId)
    ensures Ends(s, a, m) ==>
              (a.EndSave? && s.persisting[m].saver == a.saver) || (a.EndOther? && a.m == m)
    ensures m !in s.persisting && m in Apply(s, a).persisting ==>
              if a.BeginSave? then m in s.dirty && Apply(s, a).persisting[m].saver == a.saver
              else a.BeginOther? && a.m == m && Apply(s, a).persisting[m].saver == a.saver && (a.saver.ByCaller? || a.saver.ByLoad?)
  {
  }

  // Whether an edit has come since the save or load under way began.
  ghost predicate ChangedFollows(s: State, a: Action, m: ManagerId) {
    var t := Apply(s, a);
    && (m in t.persisting ==> t.persisting[m].changed == (m in s.persisting && (s.persisting[m].changed || a == Edit(m))))
    && (a == Edit(m) && m in s.persisting ==> m in t.persisting)
  }

  lemma ChangedInSave(s: State, saver: Saver, ok: bool, m: ManagerId)
    ensures ChangedFollows(s, BeginSave(saver), m) && ChangedFollows(s, EndSave(saver, ok), m)
  {
  }

  lemma StepOfPersisting(s: State, a: Action, m: ManagerId)
    ensures ChangedFollows(s, a, m)
  {
    match a
    case BeginSave(saver) => ChangedInSave(s, saver, true, m);
    case EndSave(saver, ok) => ChangedInSave(s, saver, ok, m);
    case _ =>
  }

  // ---- histories

  ghost function At(actions: seq<Action>, k: nat): State
    requires k <= |actions|
  {
    Run(START, actions[..k])
  }

  // A save or load of the manager is under way from step i to step j.
  ghost predicate UnderWay(actions: seq<Action>, m: ManagerId, i: nat, j: nat) {
    forall k: nat :: i < k <= j && k <= |actions| ==> m in At(actions, k).persisting
  }

  // What step i changed is still unsaved: since then no path change has dropped it, and no save or load that
  // began after it has succeeded.
  ghost predicate StillUnsaved(actions: seq<Action>, m: ManagerId, i: nat) {
    && i < |actions| && Changes(At(actions, i), actions[i], m)
    && forall j: nat :: i < j < |actions| ==>
         && !Forgets(At(actions, j), actions[j], m)
         && (Succeeds(At(actions, j), actions[j], m) ==> UnderWay(actions, m, i, j))
  }

  ghost predicate Unsaved(actions: seq<Action>, m: ManagerId) {
    exists i: nat :: StillUnsaved(actions, m, i)
  }

  // The manager was edited during the save or load under way.
  ghost predicate EditedMeanwhile(actions: seq<Action>, m: ManagerId) {
    exists e: nat :: e < |actions| && actions[e] == Edit(m) && UnderWay(actions, m, e, |actions|)
  }

  lemma {:induction false} RunAppended(s: State, actions: seq<Action>, a: Action)
    ensures Run(s, actions + [a]) == Apply(Run(s, actions), a)
    decreases |actions|
  {
    if actions == [] {
      assert [] + [a] == [a] && [a][1..] == [];
    } else {
      assert (actions + [a])[1..] == actions[1..] + [a];
      RunAppended(Apply(s, actions[0]), actions[1..], a);
    }
  }

  lemma AtOfMore(actions: seq<Action>, a: Action)
    ensures forall k: nat :: k <= |actions| ==> At(actions + [a], k) == At(actions, k)
    ensures At(actions + [a], |actions| + 1) == Apply(At(actions, |actions|), a)
  {
    forall k: nat | k <= |actions| ensures At(actions + [a], k) == At(actions, k) {
      assert (actions + [a])[..k] == actions[..k];
    }
    assert (actions + [a])[..|actions| + 1] == actions + [a] && actions[..|actions|] == actions;
    RunAppended(START, actions, a);
  }

  // One step more: what was unsaved before still is, unless the step forgets it or saves what is older than it.
  lemma StillAfter(actions: seq<Action>, a: Action, m: ManagerId, i: nat)
    requires i < |actions|
    ensures StillUnsaved(actions + [a], m, i) <==>
              && StillUnsaved(actions, m, i) && !Forgets(At(actions, |actions|), a, m)
              && (Succeeds(At(actions, |actions|), a, m) ==> UnderWay(actions, m, i, |actions|))
  {
    var more := actions + [a];
    AtOfMore(actions, a);
    forall j: nat | j <= |actions| ensures UnderWay(more, m, i, j) <==> UnderWay(actions, m, i, j) {
    }
  }

  lemma NewlyUnsaved(actions: seq<Action>, a: Action, m: ManagerId)
    ensures StillUnsaved(actions + [a], m, |actions|) <==> Changes(At(actions, |actions|), a, m)
  {
    AtOfMore(actions, a);
  }

  lemma EditedBefore(actions: seq<Action>, a: Action, m: ManagerId)
    requires m in At(actions + [a], |actions| + 1).persisting && EditedMeanwhile(actions + [a], m)
    ensures m in At(actions, |actions|).persisting && (EditedMeanwhile(actions, m) || a == Edit(m))
  {
    var more, n := actions + [a], |actions|;
    AtOfMore(actions, a);
    StepOfPersisting(At(actions, n), a, m);
    var e: nat :| e < |more| && more[e] == Edit(m) && UnderWay(more, m, e, |more|);
    if e < n {
      assert m in At(more, n).persisting;
      forall k: nat | e < k <= n ensures m in At(actions, k).persisting { assert m in At(more, k).persisting; }
      assert actions[e] == Edit(m) && UnderWay(actions, m, e, n);
    }
  }

  lemma EditedAfter(actions: seq<Action>, a: Action, m: ManagerId)
    requires m in At(actions + [a], |actions| + 1).persisting
    requires m in At(actions, |actions|).persisting && (EditedMeanwhile(actions, m) || a == Edit(m))
    ensures EditedMeanwhile(actions + [a], m)
  {
    var more, n := actions + [a], |actions|;
    AtOfMore(actions, a);
    if EditedMeanwhile(actions, m) {
      var e: nat :| e < n && actions[e] == Edit(m) && UnderWay(actions, m, e, n);
      assert more[e] == Edit(m) && UnderWay(more, m, e, n + 1);
    } else {
      assert more[n] == Edit(m) && UnderWay(more, m, n, n + 1);
    }
  }

  lemma EditedMore(actions: seq<Action>, a: Action, m: ManagerId)
    requires m in At(actions + [a], |actions| + 1).persisting
    ensures EditedMeanwhile(actions + [a], m) <==>
              m in At(actions, |actions|).persisting && (EditedMeanwhile(actions, m) || a == Edit(m))
  {
    if EditedMeanwhile(actions + [a], m) { EditedBefore(actions, a, m); }
    if m in At(actions, |actions|).persisting && (EditedMeanwhile(actions, m) || a == Edit(m)) { EditedAfter(actions, a, m); }
  }

  // A save that succeeds covers what is older than its beginning, and leaves what is younger.
  lemma SavedLeaves(actions: seq<Action>, m: ManagerId)
    requires m in At(actions, |actions|).persisting
    ensures (exists i: nat :: StillUnsaved(actions, m, i) && UnderWay(actions, m, i, |actions|)) <==> EditedMeanwhile(actions, m)
  {
    var n := |actions|;
    if i: nat :| StillUnsaved(actions, m, i) && UnderWay(actions, m, i, n) {
      AtNext(actions, i);
      assert m in At(actions, i + 1).persisting;
      assert actions[i] == Edit(m);
    }
    if EditedMeanwhile(actions, m) {
      var e: nat :| e < n && actions[e] == Edit(m) && UnderWay(actions, m, e, n);
      forall j: nat | e < j < n
        ensures !Forgets(At(actions, j), actions[j], m) && !Succeeds(At(actions, j), actions[j], m)
      {
        AtNext(actions, j);
        assert m in At(actions, j).persisting && m in At(actions, j + 1).persisting;
      }
      assert StillUnsaved(actions, m, e);
    }
  }

  lemma AtNext(actions: seq<Action>, k: nat)
    requires k < |actions|
    ensures At(actions, k + 1) == Apply(At(actions, k), actions[k])
  {
    assert actions[..k + 1] == actions[..k] + [actions[k]];
    RunAppended(START, actions[..k], actions[k]);
  }

  ghost predicate Agrees(actions: seq<Action>, m: ManagerId) {
    var s := At(actions, |actions|);
    && (m in s.dirty <==> Unsaved(actions, m))
    && (m in s.persisting ==> (s.persisting[m].changed <==> EditedMeanwhile(actions, m)))
  }

  lemma OneMoreAgrees(actions: seq<Action>, a: Action, m: ManagerId)
    requires Agrees(actions, m)
    ensures Agrees(actions + [a], m)
  {
    var s := At(actions, |actions|);
    AtOfMore(actions, a);
    assert actions[..|actions|] == actions;
    OneMoreDirty(actions, a, m);
    StepOfPersisting(s, a, m);
    if m in Apply(s, a).persisting { EditedMore(actions, a, m); }
  }

  lemma OneMoreDirty(actions: seq<Action>, a: Action, m: ManagerId)
    requires Agrees(actions, m)
    ensures m in Apply(At(actions, |actions|), a).dirty <==> Unsaved(actions + [a], m)
  {
    var s := At(actions, |actions|);
    RunKept(START, actions);
    assert actions[..|actions|] == actions;
    StepOfDirty(s, a, m);
    UnsavedMore(actions, a, m);
    if m in s.persisting { SavedLeaves(actions, m); }
  }

  lemma UnsavedMore(actions: seq<Action>, a: Action, m: ManagerId)
    ensures var s := At(actions, |actions|);
            Unsaved(actions + [a], m) <==>
              || Changes(s, a, m)
              || (!Forgets(s, a, m) && (if Succeeds(s, a, m)
                    then exists i: nat :: StillUnsaved(actions, m, i) && UnderWay(actions, m, i, |actions|)
                    else Unsaved(actions, m)))
  {
    var s, n, more := At(actions, |actions|), |actions|, actions + [a];
    NewlyUnsaved(actions, a, m);
    forall i: nat | i < n
      ensures StillUnsaved(more, m, i) <==>
                StillUnsaved(actions, m, i) && !Forgets(s, a, m) && (Succeeds(s, a, m) ==> UnderWay(actions, m, i, n))
    {
      StillAfter(actions, a, m, i);
    }
    if Unsaved(more, m) {
      var i: nat :| StillUnsaved(more, m, i);
      assert i == n || StillUnsaved(actions, m, i);
    }
  }

  // In every run: a manager is dirty exactly if some change of it is still unsaved.
  lemma {:induction false} DirtyExactly(actions: seq<Action>, m: ManagerId)
    ensures m in Run(START, actions).dirty <==> Unsaved(actions, m)
    ensures Agrees(actions, m)
  {
    assert actions[..|actions|] == actions;
    if actions != [] {
      var n := |actions| - 1;
      DirtyExactly(actions[..n], m);
      assert actions == actions[..n] + [actions[n]];
      OneMoreAgrees(actions[..n], actions[n], m);
    }
  }
}
