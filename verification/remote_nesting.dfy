// Popups and tables in a list of drawing calls: what lies inside those that stay closed, and what a search for
// the first end skips.
module RemoteNesting {
  import opened RemoteCodec

  // What a call means for nesting: it begins a popup or table, which stays closed or not, or ends one of the
  // kind with that end step.
  datatype Mark = Other | Begins(end: Byte, closed: bool) | Ends(end: Byte)

  predicate BeginsOne(m: Mark, end: Byte) { m.Begins? && m.end == end }

  predicate StaysClosed(m: Mark) { m.Begins? && m.closed }

  // ---- what lies inside

  // How many groups of the kind these calls begin, less those they end.
  function Depth(calls: seq<Mark>, end: Byte, from: nat, to: nat): int
    requires from <= to <= |calls|
  {
    if from == to then 0
    else Depth(calls, end, from, to - 1)
         + (if calls[to - 1] == Ends(end) then -1 else if BeginsOne(calls[to - 1], end) then 1 else 0)
  }

  // No group open at `from` is ended before call j.
  ghost predicate StaysOpen(calls: seq<Mark>, end: Byte, from: nat, j: nat)
    requires j <= |calls|
  {
    forall m :: from <= m <= j ==> Depth(calls, end, from, m) >= 0
  }

  // Call j lies inside the group that call i begins, its end included: nothing in between has ended it.
  ghost predicate Inside(calls: seq<Mark>, i: nat, j: nat) {
    i < j < |calls| && calls[i].Begins? && StaysOpen(calls, calls[i].end, i + 1, j)
  }

  // The place behind the matching end, from call k on and with d more groups open.
  function Match(calls: seq<Mark>, end: Byte, d: nat, k: nat): (n: nat)
    requires k <= |calls|
    ensures k <= n <= |calls| && (k < |calls| ==> k < n)
    decreases |calls| - k
  {
    if k == |calls| then k
    else if calls[k] == Ends(end) then if d == 0 then k + 1 else Match(calls, end, d - 1, k + 1)
    else Match(calls, end, if BeginsOne(calls[k], end) then d + 1 else d, k + 1)
  }

  lemma {:induction false} MatchByDepth(calls: seq<Mark>, end: Byte, from: nat, k: nat, j: nat)
    requires from <= k <= j < |calls| && StaysOpen(calls, end, from, k)
    ensures j < Match(calls, end, Depth(calls, end, from, k), k) <==> StaysOpen(calls, end, from, j)
    decreases j - k
  {
    if k < j {
      var d := Depth(calls, end, from, k + 1);
      if d >= 0 {
        assert StaysOpen(calls, end, from, k + 1);
        MatchByDepth(calls, end, from, k + 1, j);
      } else {
        assert !StaysOpen(calls, end, from, j);
      }
    }
  }

  // ---- what is skipped

  // The place behind the first end of the kind.
  function SkipTo(calls: seq<Mark>, end: Byte, k: nat): (n: nat)
    requires k <= |calls|
    ensures k <= n <= |calls| && (k < |calls| ==> k < n)
    decreases |calls| - k
  {
    if k == |calls| then k else if calls[k] == Ends(end) then k + 1 else SkipTo(calls, end, k + 1)
  }

  // No group of the kind begins before the first end.
  predicate NoneNested(calls: seq<Mark>, end: Byte, k: nat)
    requires k <= |calls|
    decreases |calls| - k
  {
    k == |calls| || calls[k] == Ends(end) || (!BeginsOne(calls[k], end) && NoneNested(calls, end, k + 1))
  }

  lemma {:induction false} SkipIsNoMore(calls: seq<Mark>, end: Byte, d: nat, k: nat)
    requires k <= |calls|
    ensures SkipTo(calls, end, k) <= Match(calls, end, d, k)
    ensures d > 0 && SkipTo(calls, end, k) < |calls| ==> SkipTo(calls, end, k) < Match(calls, end, d, k)
    decreases |calls| - k
  {
    if k < |calls| && calls[k] != Ends(end) {
      SkipIsNoMore(calls, end, if BeginsOne(calls[k], end) then d + 1 else d, k + 1);
    }
  }

  // Skipping to the first end ends at the matching one exactly if none of the kind begins before it, or
  // nothing is left behind the first end anyway.
  lemma {:induction false} SkipsExactly(calls: seq<Mark>, end: Byte, k: nat)
    requires k <= |calls|
    ensures SkipTo(calls, end, k) == Match(calls, end, 0, k) <==> NoneNested(calls, end, k) || SkipTo(calls, end, k) == |calls|
    decreases |calls| - k
  {
    if k < |calls| && calls[k] != Ends(end) {
      if BeginsOne(calls[k], end) {
        SkipIsNoMore(calls, end, 1, k + 1);
      } else {
        SkipsExactly(calls, end, k + 1);
      }
    }
  }

  // ---- what is drawn

  function Next(calls: seq<Mark>, k: nat): (n: nat)
    requires k < |calls|
    ensures k < n <= |calls|
  {
    if StaysClosed(calls[k]) then Match(calls, calls[k].end, 0, k + 1) else k + 1
  }

  function Following(calls: seq<Mark>, k: nat): (n: nat)
    requires k < |calls|
    ensures k < n <= |calls|
  {
    if StaysClosed(calls[k]) then SkipTo(calls, calls[k].end, k + 1) else k + 1
  }

  // What is to be drawn from call k on: all but what lies inside the popups and tables that are drawn and stay
  // closed.
  function Visible(calls: seq<Mark>, k: nat): (v: seq<nat>)
    requires k <= |calls|
    ensures forall i <- v :: k <= i < |calls|
    decreases |calls| - k
  {
    if k == |calls| then [] else [k] + Visible(calls, Next(calls, k))
  }

  // What is drawn.
  function Drawn(calls: seq<Mark>, k: nat): (v: seq<nat>)
    requires k <= |calls|
    ensures forall i <- v :: k <= i < |calls|
    decreases |calls| - k
  {
    if k == |calls| then [] else [k] + Drawn(calls, Following(calls, k))
  }

  // None of the popups and tables drawn and closed has another of its kind inside, unless that is the last thing.
  ghost predicate SkipsRight(calls: seq<Mark>, k: nat)
    requires k <= |calls|
    decreases |calls| - k
  {
    k == |calls| ||
    ((StaysClosed(calls[k]) ==> NoneNested(calls, calls[k].end, k + 1) || SkipTo(calls, calls[k].end, k + 1) == |calls|)
     && SkipsRight(calls, Following(calls, k)))
  }

  // Call i is to be drawn, stays closed, and call j lies inside.
  ghost predicate Hides(calls: seq<Mark>, k: nat, i: nat, j: nat)
    requires k <= |calls|
  {
    i in Visible(calls, k) && Inside(calls, i, j) && calls[i].closed
  }

  // Some call hides call j.
  ghost predicate Hidden(calls: seq<Mark>, k: nat, j: nat)
    requires k <= |calls|
  {
    exists i: nat :: Hides(calls, k, i, j)
  }

  lemma InsideClosed(calls: seq<Mark>, k: nat, j: nat)
    requires k < j < |calls|
    ensures Inside(calls, k, j) && calls[k].closed <==> j < Next(calls, k)
  {
    if StaysClosed(calls[k]) { MatchByDepth(calls, calls[k].end, k + 1, k + 1, j); }
  }

  lemma HiddenNext(calls: seq<Mark>, k: nat, j: nat)
    requires k < j < |calls|
    ensures Hidden(calls, k, j) <==> j < Next(calls, k) || Hidden(calls, Next(calls, k), j)
  {
    var n := Next(calls, k);
    InsideClosed(calls, k, j);
    assert k in Visible(calls, k);
    if j < n { assert Hides(calls, k, k, j); }
    forall i: nat | i != k ensures Hides(calls, k, i, j) <==> Hides(calls, n, i, j) { }
    if Hidden(calls, n, j) {
      var i: nat :| Hides(calls, n, i, j);
      assert Hides(calls, k, i, j);
    }
  }

  // The calls to be drawn are those that lie inside none that is drawn and stays closed.
  lemma {:induction false} VisibleExactly(calls: seq<Mark>, k: nat, j: nat)
    requires k <= j < |calls|
    ensures j in Visible(calls, k) <==> !Hidden(calls, k, j)
    decreases |calls| - k
  {
    if j > k {
      HiddenNext(calls, k, j);
      if j >= Next(calls, k) { VisibleExactly(calls, Next(calls, k), j); }
    }
  }

  // Exactly the right calls are drawn exactly if every skip ends right.
  lemma {:induction false} DrawnExactly(calls: seq<Mark>, k: nat)
    requires k <= |calls|
    ensures Drawn(calls, k) == Visible(calls, k) <==> SkipsRight(calls, k)
    decreases |calls| - k
  {
    if k < |calls| {
      var n, m := Following(calls, k), Next(calls, k);
      SameTail(k, Drawn(calls, n), Visible(calls, m));
      if StaysClosed(calls[k]) {
        SkipsExactly(calls, calls[k].end, k + 1);
        SkipIsNoMore(calls, calls[k].end, 0, k + 1);
      }
      if n == m { DrawnExactly(calls, n); } else { DrawnTooSoon(calls, n, m); }
    }
  }

  lemma SameTail(k: nat, a: seq<nat>, b: seq<nat>)
    ensures [k] + a == [k] + b <==> a == b
  {
    assert ([k] + a)[1..] == a && ([k] + b)[1..] == b;
  }

  lemma DrawnTooSoon(calls: seq<Mark>, n: nat, m: nat)
    requires n < m <= |calls|
    ensures Drawn(calls, n) != Visible(calls, m)
  {
    assert Drawn(calls, n)[0] == n && n !in Visible(calls, m);
  }

  // A table in a closed table: the search ends at the inner end, and what follows that is drawn.
  lemma NestedTable(calls: seq<Mark>, end: Byte)
    requires calls == [Begins(end, true), Begins(end, true), Ends(end), Other, Ends(end)]
    ensures !SkipsRight(calls, 0) && Visible(calls, 0) == [0] && Drawn(calls, 0) == [0, 3, 4]
  {
    assert SkipTo(calls, end, 2) == 3 && SkipTo(calls, end, 1) == 3;
    assert Match(calls, end, 0, 4) == 5 && Match(calls, end, 0, 3) == 5 && Match(calls, end, 1, 2) == 5 && Match(calls, end, 0, 1) == 5;
    assert Drawn(calls, 5) == [] && Drawn(calls, 4) == [4] && Drawn(calls, 3) == [3, 4];
    assert Visible(calls, 5) == [];
    DrawnExactly(calls, 0);
  }
}
