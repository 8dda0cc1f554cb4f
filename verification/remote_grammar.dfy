// The grammar of a remote draw list: which lists are accepted, and which widget calls a list is drawn as. All
// of it holds of any tables that agree with each other, and so of the ones in use.
module RemoteGrammar {
  import opened Options
  import opened RemoteCodec
  import opened RemoteWidgets
  import opened RemoteNesting

  ghost predicate Starts(g: Grammar, es: seq<Elem>) {
    && es != [] && es[0].Step? && 1 + |g.kinds(es[0].step)| <= |es|
    && HasKinds(es[1..1 + |g.kinds(es[0].step)|], g.kinds(es[0].step))
  }

  ghost predicate Accepts(g: Grammar, es: seq<Elem>)
    decreases |es|
  {
    es == [] || (Starts(g, es) && Accepts(g, es[1 + |g.kinds(es[0].step)|..]))
  }

  ghost predicate IsFrame(g: Grammar, frame: seq<Elem>) {
    frame != [] && frame[0].Step? && HasKinds(frame[1..], g.kinds(frame[0].step))
  }

  function Flat(frames: seq<seq<Elem>>): seq<Elem> {
    if frames == [] then [] else frames[0] + Flat(frames[1..])
  }

  lemma StartsWithFrame(g: Grammar, frame: seq<Elem>, rest: seq<Elem>)
    requires IsFrame(g, frame)
    ensures Starts(g, frame + rest) && (frame + rest)[1 + |g.kinds(frame[0].step)|..] == rest
  {
    var es, n := frame + rest, |g.kinds(frame[0].step)|;
    assert es[1..1 + n] == frame[1..];
  }

  // The lists accepted are the sequences of well-formed frames.
  lemma {:induction false} FramesAreAccepted(g: Grammar, frames: seq<seq<Elem>>)
    requires forall f <- frames :: IsFrame(g, f)
    ensures Accepts(g, Flat(frames))
  {
    if frames != [] {
      assert frames[0] in frames && forall f <- frames[1..] :: f in frames;
      FramesAreAccepted(g, frames[1..]);
      StartsWithFrame(g, frames[0], Flat(frames[1..]));
    }
  }

  lemma {:induction false} AcceptedAreFrames(g: Grammar, es: seq<Elem>) returns (frames: seq<seq<Elem>>)
    requires Accepts(g, es)
    ensures es == Flat(frames) && forall f <- frames :: IsFrame(g, f)
    decreases |es|
  {
    if es == [] {
      frames := [];
    } else {
      var n := 1 + |g.kinds(es[0].step)|;
      var rest := AcceptedAreFrames(g, es[n..]);
      FirstFrame(g, es);
      frames := Prepended(g, es[..n], rest);
    }
  }

  lemma FirstFrame(g: Grammar, es: seq<Elem>)
    requires Starts(g, es)
    ensures var n := 1 + |g.kinds(es[0].step)|; IsFrame(g, es[..n]) && es == es[..n] + es[n..]
  {
    var n := 1 + |g.kinds(es[0].step)|;
    assert es[..n][1..] == es[1..n];
  }

  lemma Prepended(g: Grammar, frame: seq<Elem>, rest: seq<seq<Elem>>) returns (frames: seq<seq<Elem>>)
    requires IsFrame(g, frame) && forall f <- rest :: IsFrame(g, f)
    ensures Flat(frames) == frame + Flat(rest) && forall f <- frames :: IsFrame(g, f)
  {
    frames := [frame] + rest;
    assert frames[1..] == rest;
  }

  lemma {:induction false} AcceptsAppended(g: Grammar, a: seq<Elem>, b: seq<Elem>)
    requires Accepts(g, a) && Accepts(g, b)
    ensures Accepts(g, a + b)
    decreases |a|
  {
    if a == [] {
      assert a + b == b;
    } else {
      var n := 1 + |g.kinds(a[0].step)|;
      FirstOfBoth(a, b, n);
      AcceptsAppended(g, a[n..], b);
    }
  }

  lemma FirstOfBoth<T>(a: seq<T>, b: seq<T>, n: nat)
    requires 0 < n <= |a|
    ensures (a + b)[0] == a[0] && (a + b)[1..n] == a[1..n] && (a + b)[n..] == a[n..] + b
  {
  }

  function AfterEnd(es: seq<Elem>, end: Byte): (r: seq<Elem>)
    ensures |r| <= |es|
  {
    if es == [] then []
    else if es[0].Step? && es[0].step == end then es[1..]
    else AfterEnd(es[1..], end)
  }

  // No argument is a step, so a search for a step passes over them.
  lemma {:induction false} PastArguments(args: seq<Elem>, rest: seq<Elem>, end: Byte)
    requires forall a <- args :: !a.Step?
    ensures AfterEnd(args + rest, end) == AfterEnd(rest, end)
    decreases |args|
  {
    if args == [] {
      assert args + rest == rest;
    } else {
      assert args[0] in args && forall a <- args[1..] :: a in args;
      assert (args + rest)[1..] == args[1..] + rest;
      PastArguments(args[1..], rest, end);
    }
  }

  lemma NoStepAmong(args: seq<Elem>, kinds: seq<Kind>)
    requires HasKinds(args, kinds)
    ensures forall a <- args :: !a.Step?
  {
  }

  // What is left behind the end of a popup or table is a well-formed list again.
  lemma {:induction false} AfterEndIsAccepted(g: Grammar, es: seq<Elem>, end: Byte)
    requires Accepts(g, es) && g.kinds(end) == []
    ensures Accepts(g, AfterEnd(es, end))
    decreases |es|
  {
    if es != [] {
      var kinds := g.kinds(es[0].step);
      var n := 1 + |kinds|;
      if es[0].step != end {
        NoStepAmong(es[1..n], kinds);
        assert es[1..] == es[1..n] + es[n..];
        PastArguments(es[1..n], es[n..], end);
        AfterEndIsAccepted(g, es[n..], end);
      }
    }
  }

  // What is left to draw behind a frame: all, or what follows the end of the popup or table that stays closed.
  function LeftAfter(rest: seq<Elem>, w: Option<Widget>, open: bool): (r: seq<Elem>)
    ensures |r| <= |rest|
  {
    if w.Some? && Opens(w.value) && !open then AfterEnd(rest, EndStep(w.value)) else rest
  }

  lemma LeftIsAccepted(g: Grammar, rest: seq<Elem>, w: Option<Widget>, open: bool)
    requires Good(g) && Accepts(g, rest)
    ensures Accepts(g, LeftAfter(rest, w, open))
  {
    if w.Some? { AfterEndIsAccepted(g, rest, EndStep(w.value)); }
  }

  function ShownCalls(w: Option<Widget>): seq<Widget> { if w.Some? then [Shown(w.value)] else [] }

  // The widget calls a list is drawn as. `open` says whether a popup or table with so many elements left opens.
  ghost function Calls(g: Grammar, es: seq<Elem>, open: nat -> bool): seq<Widget>
    requires Good(g) && Accepts(g, es)
    decreases |es|
  {
    if es == [] then []
    else
      var n := 1 + |g.kinds(es[0].step)|;
      var w := g.call(es[0].step, es[1..n]);
      LeftIsAccepted(g, es[n..], w, open(|es|));
      ShownCalls(w) + Calls(g, LeftAfter(es[n..], w, open(|es|)), open)
  }

  // ---- from the recorded calls to the drawn ones

  datatype Call = Call(widget: Widget, sync: bool)

  function RecordedAll(calls: seq<Call>): seq<Elem> {
    if calls == [] then [] else Recorded(calls[0].widget, calls[0].sync) + RecordedAll(calls[1..])
  }

  lemma RecordedIsFrame(g: Grammar, w: Widget, sync: bool)
    requires Agrees(g)
    ensures HasKinds(Args(w), g.kinds(StepOf(w))) && IsFrame(g, Recorded(w, sync))
    ensures g.call(StepOf(w), Args(w)) == Some(w)
  {
    assert Recorded(w, sync)[1..] == Args(w);
  }

  lemma {:induction false} RecordedIsAccepted(g: Grammar, calls: seq<Call>)
    requires Agrees(g)
    ensures Accepts(g, RecordedAll(calls))
  {
    if calls != [] {
      RecordedIsFrame(g, calls[0].widget, calls[0].sync);
      StartsWithFrame(g, Recorded(calls[0].widget, calls[0].sync), RecordedAll(calls[1..]));
      RecordedIsAccepted(g, calls[1..]);
    }
  }

  lemma PastFrame(g: Grammar, frame: seq<Elem>, rest: seq<Elem>, end: Byte)
    requires IsFrame(g, frame) && g.kinds(end) == []
    ensures AfterEnd(frame + rest, end) == if frame[0].step == end then rest else AfterEnd(rest, end)
  {
    NoStepAmong(frame[1..], g.kinds(frame[0].step));
    assert (frame + rest)[1..] == frame[1..] + rest;
    PastArguments(frame[1..], rest, end);
  }

  // ---- what is drawn of it

  function MarkOf(w: Widget, closed: bool): Mark {
    if Opens(w) then Begins(EndStep(w), closed) else if w.EndPopup? || w.EndTable? then Ends(StepOf(w)) else Other
  }

  // `open` says whether a popup or table with so many elements left opens.
  ghost function Marks(calls: seq<Call>, open: nat -> bool): (marks: seq<Mark>)
    ensures |marks| == |calls|
    ensures forall k :: 0 <= k < |calls| ==> marks[k] == MarkOf(calls[k].widget, !open(|RecordedAll(calls[k..])|))
  {
    seq(|calls|, k requires 0 <= k < |calls| => MarkOf(calls[k].widget, !open(|RecordedAll(calls[k..])|)))
  }

  // These of the calls, as they are shown.
  ghost function ShownOf(calls: seq<Call>, which: seq<nat>): (widgets: seq<Widget>)
    requires forall i <- which :: i < |calls|
    ensures |widgets| == |which|
  {
    if which == [] then []
    else
      assert which[0] in which && forall i <- which[1..] :: i in which;
      [Shown(calls[which[0]].widget)] + ShownOf(calls, which[1..])
  }

  // What is drawn of the calls, and what is to be drawn of them.
  ghost function DrawnOf(calls: seq<Call>, open: nat -> bool): seq<Widget> {
    ShownOf(calls, Drawn(Marks(calls, open), 0))
  }

  ghost function VisibleOf(calls: seq<Call>, open: nat -> bool): seq<Widget> {
    ShownOf(calls, Visible(Marks(calls, open), 0))
  }

  lemma MarkedEnd(w: Widget, closed: bool, end: Byte)
    requires end == END_POPUP || end == END_TABLE
    ensures MarkOf(w, closed) == Ends(end) <==> StepOf(w) == end
  {
  }

  lemma RecordedFrom(calls: seq<Call>, k: nat)
    requires k < |calls|
    ensures RecordedAll(calls[k..]) == Recorded(calls[k].widget, calls[k].sync) + RecordedAll(calls[k + 1..])
  {
    assert calls[k..][1..] == calls[k + 1..];
  }

  // A search through the elements skips as many calls as one through the marks.
  lemma {:induction false} SkippedAlike(g: Grammar, calls: seq<Call>, marks: seq<Mark>, open: nat -> bool, end: Byte, k: nat)
    requires Agrees(g) && g.kinds(end) == [] && (end == END_POPUP || end == END_TABLE)
    requires marks == Marks(calls, open) && k <= |calls|
    ensures AfterEnd(RecordedAll(calls[k..]), end) == RecordedAll(calls[SkipTo(marks, end, k)..])
    decreases |calls| - k
  {
    if k < |calls| {
      var w := calls[k].widget;
      RecordedFrom(calls, k);
      RecordedIsFrame(g, w, calls[k].sync);
      PastFrame(g, Recorded(w, calls[k].sync), RecordedAll(calls[k + 1..]), end);
      MarkedEnd(w, !open(|RecordedAll(calls[k..])|), end);
      if StepOf(w) != end { SkippedAlike(g, calls, marks, open, end, k + 1); }
    }
  }

  // What is left to draw behind a call.
  lemma DrawnNext(g: Grammar, calls: seq<Call>, marks: seq<Mark>, open: nat -> bool, k: nat)
    requires Agrees(g) && marks == Marks(calls, open) && k < |calls|
    ensures LeftAfter(RecordedAll(calls[k + 1..]), Some(calls[k].widget), open(|RecordedAll(calls[k..])|))
            == RecordedAll(calls[Following(marks, k)..])
  {
    var w := calls[k].widget;
    if Opens(w) && !open(|RecordedAll(calls[k..])|) { SkippedAlike(g, calls, marks, open, EndStep(w), k + 1); }
  }

  lemma {:induction false} DrawnFrom(g: Grammar, calls: seq<Call>, marks: seq<Mark>, open: nat -> bool, k: nat)
    requires Agrees(g) && marks == Marks(calls, open) && k <= |calls| && Accepts(g, RecordedAll(calls[k..]))
    ensures Calls(g, RecordedAll(calls[k..]), open) == ShownOf(calls, Drawn(marks, k))
    decreases |calls| - k
  {
    if k < |calls| {
      var w, rest, es, n := calls[k].widget, RecordedAll(calls[k + 1..]), RecordedAll(calls[k..]), Following(marks, k);
      RecordedFrom(calls, k);
      RecordedIsFrame(g, w, calls[k].sync);
      StartsWithFrame(g, Recorded(w, calls[k].sync), rest);
      assert es[1..1 + |g.kinds(StepOf(w))|] == Args(w);
      DrawnNext(g, calls, marks, open, k);
      RecordedIsAccepted(g, calls[n..]);
      DrawnFrom(g, calls, marks, open, n);
      assert Drawn(marks, k)[1..] == Drawn(marks, n);
    }
  }

  // Drawing a recorded list makes calls with the arguments recorded and in the same order, and they are those
  // that lie inside no popup or table that is drawn and stays closed, if no search for an end stops at one
  // nested inside.
  lemma DrawnAsRecorded(g: Grammar, calls: seq<Call>, open: nat -> bool)
    requires Agrees(g) && Accepts(g, RecordedAll(calls))
    ensures Calls(g, RecordedAll(calls), open) == DrawnOf(calls, open)
    ensures Drawn(Marks(calls, open), 0) == Visible(Marks(calls, open), 0) <==> SkipsRight(Marks(calls, open), 0)
    ensures SkipsRight(Marks(calls, open), 0) ==> Calls(g, RecordedAll(calls), open) == VisibleOf(calls, open)
  {
    assert calls[0..] == calls;
    DrawnFrom(g, calls, Marks(calls, open), open, 0);
    DrawnExactly(Marks(calls, open), 0);
  }

  // A table in a table, with a text behind it.
  predicate TableInTable(calls: seq<Call>) {
    && |calls| == 5 && calls[0].widget.BeginTable? && calls[1].widget.BeginTable?
    && calls[2].widget.EndTable? && calls[3].widget.PlainText? && calls[4].widget.EndTable?
  }

  lemma TableInTableMarks(calls: seq<Call>, open: nat -> bool)
    requires TableInTable(calls) && forall n :: !open(n)
    ensures Marks(calls, open) == [Begins(END_TABLE, true), Begins(END_TABLE, true), Ends(END_TABLE), Other, Ends(END_TABLE)]
  {
    var marks := Marks(calls, open);
    forall k | 0 <= k < 5 ensures marks[k] == MarkOf(calls[k].widget, true) { assert !open(|RecordedAll(calls[k..])|); }
    TableMarks(calls[0].widget, calls[2].widget);
    TableMarks(calls[1].widget, calls[4].widget);
    assert MarkOf(calls[3].widget, true) == Other;
  }

  lemma TableMarks(begin: Widget, end: Widget)
    requires begin.BeginTable? && end.EndTable?
    ensures MarkOf(begin, true) == Begins(END_TABLE, true) && MarkOf(end, true) == Ends(END_TABLE)
  {
  }

  lemma ShownNext(calls: seq<Call>, i: nat, rest: seq<nat>)
    requires i < |calls| && forall j <- rest :: j < |calls|
    ensures forall j <- [i] + rest :: j < |calls|
    ensures ShownOf(calls, [i] + rest) == [Shown(calls[i].widget)] + ShownOf(calls, rest)
  {
    assert ([i] + rest)[1..] == rest;
  }

  lemma ThreeShown(calls: seq<Call>)
    requires |calls| == 5
    ensures ShownOf(calls, [0, 3, 4]) == [Shown(calls[0].widget), Shown(calls[3].widget), Shown(calls[4].widget)]
    ensures ShownOf(calls, [0]) == [Shown(calls[0].widget)]
  {
    ShownNext(calls, 4, []);
    ShownNext(calls, 3, [4]);
    ShownNext(calls, 0, [3, 4]);
    ShownNext(calls, 0, []);
    assert [4] + [] == [4] && [3] + [4] == [3, 4] && [0] + [3, 4] == [0, 3, 4] && [0] + [] == [0];
  }

  // If no table opens, the text and the outer end are drawn, although both lie inside the outer one.
  lemma TableInTableDrawn(g: Grammar, calls: seq<Call>, open: nat -> bool)
    requires Agrees(g) && TableInTable(calls) && forall n :: !open(n)
    ensures Accepts(g, RecordedAll(calls))
    ensures Calls(g, RecordedAll(calls), open) == [Shown(calls[0].widget), Shown(calls[3].widget), Shown(calls[4].widget)]
    ensures VisibleOf(calls, open) == [Shown(calls[0].widget)]
  {
    RecordedIsAccepted(g, calls);
    TableInTableMarks(calls, open);
    NestedTable(Marks(calls, open), END_TABLE);
    DrawnAsRecorded(g, calls, open);
    ThreeShown(calls);
  }

  // The whole way: recorded, stored, loaded again and drawn.
  lemma SentAndDrawn(calls: seq<Call>, open: nat -> bool)
    requires forall e <- RecordedAll(calls) :: Short(e)
    ensures var (es, ok) := DecodedAll(EncodedAll(RecordedAll(calls)));
            && ok && Good(TABLE) && Accepts(TABLE, es) && Calls(TABLE, es, open) == DrawnOf(calls, open)
            && (SkipsRight(Marks(calls, open), 0) ==> Calls(TABLE, es, open) == VisibleOf(calls, open))
  {
    TableAgrees();
    ListRoundTrip(RecordedAll(calls));
    RecordedIsAccepted(TABLE, calls);
    DrawnAsRecorded(TABLE, calls, open);
  }
}
