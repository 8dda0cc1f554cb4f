// The draw list itself: recorded into on the server, stored, loaded on the client and drawn there.
module RemoteList {
  import opened Options
  import opened RemoteCodec
  import opened RemoteWidgets
  import opened RemoteGrammar

  // The user's part in drawing one widget: whether a popup or table opens, and what was entered, if anything.
  datatype Answer = Answer(open: bool, touched: bool, entered: Elem)

  // What the client reports: the widget's name and, unless it was just pressed, its new value.
  datatype Diff = Diff(name: Text, entered: Option<Elem>, sync: bool)

  predicate SameKind(a: Elem, b: Elem) { Tag(a) == Tag(b) && (a.Step? ==> a == b) }

  ghost predicate SameKinds(a: seq<Elem>, b: seq<Elem>) {
    |a| == |b| && forall k :: 0 <= k < |a| ==> SameKind(a[k], b[k])
  }

  lemma SameKindsChain(a: seq<Elem>, b: seq<Elem>, c: seq<Elem>)
    requires SameKinds(a, b) && SameKinds(b, c)
    ensures SameKinds(a, c)
  {
    forall k | 0 <= k < |a| ensures SameKind(a[k], c[k]) {
      assert SameKind(a[k], b[k]) && SameKind(b[k], c[k]);
    }
  }

  lemma Regrouped<T>(a: seq<T>, b: seq<T>, c: seq<T>)
    ensures a + (b + c) == a + b + c
  {
  }

  lemma OneMoreDecoded(rest: Text, es: seq<Elem>, item: Option<Item>)
    requires rest != [] && item == Decoded(rest)
    ensures item.None? ==> es + DecodedAll(rest).0 == es && !DecodedAll(rest).1
    ensures item.Some? ==>
              && es + DecodedAll(rest).0 == es + [item.value.elem] + DecodedAll(rest[item.value.size..]).0
              && DecodedAll(rest).1 == DecodedAll(rest[item.value.size..]).1
  {
    if item.Some? { Regrouped(es, [item.value.elem], DecodedAll(rest[item.value.size..]).0); }
  }

  lemma Dropped<T>(s: seq<T>, from: nat, n: nat, to: nat)
    requires from + n <= to <= |s|
    ensures s[from..to][n..] == s[from + n..to]
  {
  }

  lemma OneMoreEncoded(es: seq<Elem>, k: nat)
    requires k < |es|
    ensures EncodedAll(es[..k + 1]) == EncodedAll(es[..k]) + Encoded(es[k])
    ensures TotalSize(es[..k + 1]) == TotalSize(es[..k]) + ItemSize(es[k])
  {
    assert es[..k + 1] == es[..k] + [es[k]];
    EncodedAppended(es[..k], [es[k]]);
    assert EncodedAll([es[k]]) == Encoded(es[k]);
  }

  lemma Adjoined<T>(s: seq<T>, from: nat, to: nat, a: seq<T>, b: seq<T>)
    requires from <= to <= |s| && s[..from] == a && s[from..to] == b
    ensures s[..to] == a + b
  {
  }

  lemma PrefixSize(es: seq<Elem>, k: nat)
    requires k <= |es|
    ensures TotalSize(es[..k]) <= TotalSize(es)
  {
    EncodedAppended(es[..k], es[k..]);
    assert es[..k] + es[k..] == es;
  }

  // New values of the same kinds leave a list well-formed.
  lemma {:induction false} SameKindsAccepted(g: Grammar, a: seq<Elem>, b: seq<Elem>)
    requires Accepts(g, a) && SameKinds(a, b)
    ensures Accepts(g, b)
    decreases |a|
  {
    if a != [] {
      var n := 1 + |g.kinds(a[0].step)|;
      assert SameKind(a[0], b[0]);
      forall k | 0 <= k < n - 1 ensures Has(b[1..n][k], g.kinds(a[0].step)[k]) {
        assert a[1..n][k] == a[1 + k] && SameKind(a[1 + k], b[1 + k]);
      }
      SameKindsAccepted(g, a[n..], b[n..]);
    }
  }

  // A change that the diff reports is in the list, behind the widget's name.
  ghost predicate Reported(elements: seq<Elem>, diff: Option<Diff>, upTo: nat) {
    diff.Some? ==> exists k: nat :: k < upTo && ReportedAt(elements, diff.value, k)
  }

  ghost predicate ReportedAt(elements: seq<Elem>, diff: Diff, k: nat) {
    0 < k < |elements| && elements[k - 1] == Str(diff.name) && (diff.entered.Some? ==> elements[k] == diff.entered.value)
  }

  lemma OneMoreRecorded(g: Grammar, es: seq<Elem>, w: Widget, sync: bool)
    requires Agrees(g) && Accepts(g, es)
    ensures Accepts(g, es + Recorded(w, sync))
  {
    var frame := Recorded(w, sync);
    RecordedIsFrame(g, w, sync);
    StartsWithFrame(g, frame, []);
    assert frame + [] == frame;
    AcceptsAppended(g, es, frame);
  }

  // Widgets that can be pressed or edited start with their name and have something behind it.
  lemma FirstIsName(g: Grammar, es: seq<Elem>, i: nat, step: Byte)
    requires Good(g) && i + |g.kinds(step)| <= |es| && HasKinds(es[i..i + |g.kinds(step)|], g.kinds(step))
    ensures Pressable(step) || Editable(step) ==> |g.kinds(step)| >= 2 && es[i].Str?
  {
    if Pressable(step) || Editable(step) {
      assert g.kinds(step)[0] == IsStr && Has(es[i..i + |g.kinds(step)|][0], g.kinds(step)[0]);
    }
  }

  // ---- lists seen from a position on

  lemma AcceptedFrom(g: Grammar, es: seq<Elem>, i: nat)
    requires i < |es|
    ensures Accepts(g, es[i..]) <==>
              && es[i].Step?
              && var next := i + 1 + |g.kinds(es[i].step)|;
                 next <= |es| && HasKinds(es[i + 1..next], g.kinds(es[i].step)) && Accepts(g, es[next..])
  {
    if es[i].Step? {
      var n := 1 + |g.kinds(es[i].step)|;
      if i + n <= |es| {
        assert es[i..][1..n] == es[i + 1..i + n] && es[i..][n..] == es[i + n..];
      }
    }
  }

  function Opening(answer: nat -> Answer): nat -> bool { (left: nat) => answer(left).open }

  lemma FrameAt(g: Grammar, es: seq<Elem>, i: nat)
    requires Good(g) && i < |es| && Accepts(g, es[i..])
    ensures es[i].Step?
    ensures var next := i + 1 + |g.kinds(es[i].step)|; next <= |es| && HasKinds(es[i + 1..next], g.kinds(es[i].step))
    ensures Pressable(es[i].step) || Editable(es[i].step) ==> |g.kinds(es[i].step)| >= 2 && es[i + 1].Str?
  {
    AcceptedFrom(g, es, i);
    FirstIsName(g, es, i + 1, es[i].step);
  }

  // What is drawn of a list is its first frame and what is drawn of the rest.
  ghost predicate Continues(g: Grammar, todo: seq<Elem>, w: Option<Widget>, left: seq<Elem>, open: nat -> bool)
    requires Good(g) && Accepts(g, todo)
  {
    && Accepts(g, left)
    && Calls(g, todo, open) == ShownCalls(w) + Calls(g, left, open)
    && Reached(g, todo, open) == [|todo|] + Reached(g, left, open)
  }

  // What has been drawn so far, and what is left, are what is drawn of the whole.
  ghost predicate DrawnAndLeft(g: Grammar, was: seq<Elem>, todo: seq<Elem>, open: nat -> bool, calls: seq<Widget>, frames: seq<nat>) {
    && Good(g) && Accepts(g, was) && Accepts(g, todo)
    && Calls(g, was, open) == calls + Calls(g, todo, open) && Reached(g, was, open) == frames + Reached(g, todo, open)
  }

  lemma NothingDrawn(g: Grammar, was: seq<Elem>, open: nat -> bool)
    requires Good(g) && Accepts(g, was)
    ensures DrawnAndLeft(g, was, was, open, [], [])
  {
  }

  lemma OneMoreDrawn(g: Grammar, was: seq<Elem>, todo: seq<Elem>, left: seq<Elem>, w: Option<Widget>, open: nat -> bool,
                     calls: seq<Widget>, frames: seq<nat>)
    requires DrawnAndLeft(g, was, todo, open, calls, frames) && Continues(g, todo, w, left, open)
    ensures DrawnAndLeft(g, was, left, open, calls + ShownCalls(w), frames + [|todo|])
  {
    Regrouped(calls, ShownCalls(w), Calls(g, left, open));
    Regrouped(frames, [|todo|], Reached(g, left, open));
  }

  lemma AllDrawn(g: Grammar, was: seq<Elem>, open: nat -> bool, calls: seq<Widget>, frames: seq<nat>)
    requires DrawnAndLeft(g, was, [], open, calls, frames)
    ensures calls == Calls(g, was, open) && frames == Reached(g, was, open)
  {
    assert calls + [] == calls && frames + [] == frames;
  }

  lemma CallsFrom(g: Grammar, es: seq<Elem>, i: nat, next: nat, todo: seq<Elem>, open: nat -> bool)
    returns (w: Option<Widget>, left: seq<Elem>)
    requires Good(g) && i < |es| && es[i].Step? && todo == es[i..] && Accepts(g, todo)
    requires i + 1 + |g.kinds(es[i].step)| == next <= |es| && HasKinds(es[i + 1..next], g.kinds(es[i].step))
    ensures w == g.call(es[i].step, es[i + 1..next]) && left == LeftAfter(es[next..], w, open(|todo|))
    ensures Continues(g, todo, w, left, open)
  {
    var n := 1 + |g.kinds(es[i].step)|;
    assert todo[1..n] == es[i + 1..i + n] && todo[n..] == es[i + n..];
    w := g.call(todo[0].step, todo[1..n]);
    left := LeftAfter(todo[n..], w, open(|todo|));
    LeftIsAccepted(g, todo[n..], w, open(|todo|));
  }

  // ---- the user's answers

  // The frames that are drawn, each known by the number of elements from it on.
  ghost function Reached(g: Grammar, es: seq<Elem>, open: nat -> bool): seq<nat>
    requires Good(g) && Accepts(g, es)
    decreases |es|
  {
    if es == [] then []
    else
      var n := 1 + |g.kinds(es[0].step)|;
      var w := g.call(es[0].step, es[1..n]);
      LeftIsAccepted(g, es[n..], w, open(|es|));
      [|es|] + Reached(g, LeftAfter(es[n..], w, open(|es|)), open)
  }

  // The frame with p elements from it on: its step, its name and its value.
  ghost predicate Named(es: seq<Elem>, p: nat) {
    2 < p <= |es| && es[|es| - p].Step? && es[|es| - p + 1].Str?
  }

  ghost predicate Pressed(es: seq<Elem>, p: nat, answer: nat -> Answer) {
    Named(es, p) && Pressable(es[|es| - p].step) && answer(p).touched
  }

  ghost predicate GivenValue(es: seq<Elem>, p: nat, answer: nat -> Answer) {
    Named(es, p) && Editable(es[|es| - p].step) && answer(p).touched && SameKind(answer(p).entered, es[|es| - p + 2])
  }

  ghost predicate Answered(es: seq<Elem>, p: nat, answer: nat -> Answer) {
    Pressed(es, p, answer) || GivenValue(es, p, answer)
  }

  // The diff is there if and only if a frame was answered, and it is the last one's.
  ghost predicate LastAnswer(es: seq<Elem>, frames: seq<nat>, answer: nat -> Answer, diff: Option<Diff>) {
    match diff
    case None => forall j :: 0 <= j < |frames| ==> !Answered(es, frames[j], answer)
    case Some(d) =>
      exists j :: 0 <= j < |frames| && AnswerIs(es, frames[j], answer, d)
                  && forall l :: j < l < |frames| ==> !Answered(es, frames[l], answer)
  }

  ghost predicate AnswerIs(es: seq<Elem>, p: nat, answer: nat -> Answer, d: Diff) {
    && Answered(es, p, answer)
    && d.name == es[|es| - p + 1].str && d.sync == es[|es| - p].forceSync
    && d.entered == if GivenValue(es, p, answer) then Some(answer(p).entered) else None
  }

  // Each value given is in its place, and every other element is as before.
  ghost predicate ValuesEntered(es: seq<Elem>, frames: seq<nat>, answer: nat -> Answer, now: seq<Elem>) {
    && |now| == |es|
    && (forall j :: 0 <= j < |frames| && GivenValue(es, frames[j], answer) ==> now[|es| - frames[j] + 2] == answer(frames[j]).entered)
    && (forall k :: 0 <= k < |es| && !HoldsValue(es, frames, answer, k) ==> now[k] == es[k])
  }

  // Element k is the value of one of these frames.
  ghost predicate HoldsValue(es: seq<Elem>, frames: seq<nat>, answer: nat -> Answer, k: nat) {
    exists j :: 0 <= j < |frames| && GivenValue(es, frames[j], answer) && k == |es| - frames[j] + 2
  }

  lemma HoldsMore(es: seq<Elem>, frames: seq<nat>, answer: nat -> Answer, p: nat, k: nat)
    ensures HoldsValue(es, frames + [p], answer, k) <==>
              HoldsValue(es, frames, answer, k) || (GivenValue(es, p, answer) && k == |es| - p + 2)
  {
    var more := frames + [p];
    assert more[|frames|] == p;
    if HoldsValue(es, frames, answer, k) {
      var j :| 0 <= j < |frames| && GivenValue(es, frames[j], answer) && k == |es| - frames[j] + 2;
      assert more[j] == frames[j];
    }
  }

  // Values lie before element i, if their frames do.
  ghost predicate ValuesBefore(es: seq<Elem>, frames: seq<nat>, answer: nat -> Answer, i: nat) {
    forall j :: 0 <= j < |frames| && GivenValue(es, frames[j], answer) ==> |es| - frames[j] + 2 < i
  }

  // The list as it was and as it is, after these frames have been drawn and up to element i.
  ghost predicate DrawnSoFar(was: seq<Elem>, frames: seq<nat>, answer: nat -> Answer, i: nat, now: seq<Elem>, diff: Option<Diff>) {
    && SameKinds(was, now) && i <= |was| && now[i..] == was[i..] && Reported(now, diff, i)
    && LastAnswer(was, frames, answer, diff) && ValuesEntered(was, frames, answer, now) && ValuesBefore(was, frames, answer, i)
  }

  lemma DrawnLater(was: seq<Elem>, frames: seq<nat>, answer: nat -> Answer, i: nat, j: nat, now: seq<Elem>, diff: Option<Diff>)
    requires DrawnSoFar(was, frames, answer, i, now, diff) && i <= j <= |was|
    ensures DrawnSoFar(was, frames, answer, j, now, diff)
  {
    assert now[j..] == now[i..][j - i..] && was[j..] == was[i..][j - i..];
  }

  // One frame more, answered or not.
  lemma OneMoreAnswer(es: seq<Elem>, frames: seq<nat>, answer: nat -> Answer, p: nat, diff: Option<Diff>, diff': Option<Diff>)
    requires LastAnswer(es, frames, answer, diff)
    requires if Answered(es, p, answer) then diff'.Some? && AnswerIs(es, p, answer, diff'.value) else diff' == diff
    ensures LastAnswer(es, frames + [p], answer, diff')
  {
    var more := frames + [p];
    if Answered(es, p, answer) {
      assert more[|frames|] == p;
    } else if diff.Some? {
      var j :| 0 <= j < |frames| && AnswerIs(es, frames[j], answer, diff.value)
               && forall l :: j < l < |frames| ==> !Answered(es, frames[l], answer);
      assert more[j] == frames[j];
    }
  }

  lemma OneMoreValue(es: seq<Elem>, frames: seq<nat>, answer: nat -> Answer, p: nat, i: nat, now: seq<Elem>, now': seq<Elem>)
    requires ValuesEntered(es, frames, answer, now) && ValuesBefore(es, frames, answer, i) && i <= |es| && p == |es| - i
    requires now' == if GivenValue(es, p, answer) then now[i + 2 := answer(p).entered] else now
    ensures ValuesEntered(es, frames + [p], answer, now')
  {
    var more := frames + [p];
    forall j | 0 <= j < |more| && GivenValue(es, more[j], answer)
      ensures now'[|es| - more[j] + 2] == answer(more[j]).entered
    {
      if j < |frames| { assert more[j] == frames[j]; } else { assert more[j] == p; }
    }
    forall k | 0 <= k < |es| && !HoldsValue(es, more, answer, k) ensures now'[k] == es[k] {
      HoldsMore(es, frames, answer, p, k);
    }
  }

  class DrawList {
    const grammar: Grammar
    var elements: seq<Elem>

    constructor ()
      ensures elements == [] && grammar == TABLE && Good(grammar)
    {
      grammar, elements := TABLE, [];
      TableIsGood();
    }

    method Push(e: Elem)
      modifies this
      ensures elements == old(elements) + [e]
    {
      elements := elements + [e];
    }

    // The recording branch of every widget function: the step, then the arguments.
    method Record(w: Widget, forceSync: bool) returns (forceSyncLeft: bool)
      modifies this
      ensures elements == old(elements) + Recorded(w, forceSync)
      ensures Agrees(grammar) && Accepts(grammar, old(elements)) ==> Accepts(grammar, elements)
      ensures forceSyncLeft == (forceSync && !TakesSync(w))
    {
      var step := Step(StepOf(w), forceSync && TakesSync(w));
      Push(step);
      PushAll(Args(w));
      assert old(elements) + [step] + Args(w) == old(elements) + ([step] + Args(w));
      forceSyncLeft := forceSync && !TakesSync(w);
      if Agrees(grammar) && Accepts(grammar, old(elements)) {
        OneMoreRecorded(grammar, old(elements), w, forceSync);
      }
    }

    method PushAll(args: seq<Elem>)
      modifies this
      ensures elements == old(elements) + args
    {
      for k := 0 to |args|
        invariant elements == old(elements) + args[..k]
      {
        Push(args[k]);
      }
      assert args[..|args|] == args;
    }

    method GetSize() returns (size: nat)
      ensures size == TotalSize(elements)
    {
      size := 0;
      for k := 0 to |elements|
        invariant size + TotalSize(elements[k..]) == TotalSize(elements)
      {
        size := size + ItemSize(elements[k]);
      }
    }

    // All elements into the first `len` bytes of a buffer, or -1 if they do not fit.
    method Store(buf: array<Byte>, len: nat) returns (count: int)
      requires len <= buf.Length
      modifies buf
      ensures count == if TotalSize(elements) <= len then TotalSize(elements) else -1
      ensures count >= 0 ==> buf[..count] == EncodedAll(elements)
      ensures forall k :: len <= k < buf.Length ==> buf[k] == old(buf[k])
    {
      var at := 0;
      assert elements[..0] == [];
      for k := 0 to |elements|
        invariant at == TotalSize(elements[..k]) <= len && buf[..at] == EncodedAll(elements[..k])
        invariant forall j :: len <= j < buf.Length ==> buf[j] == old(buf[j])
      {
        var n := StoreNext(k, buf, at, len);
        if n < 0 {
          PrefixSize(elements, k + 1);
          return -1;
        }
        at := at + n;
      }
      assert elements[..|elements|] == elements;
      return at;
    }

    method StoreNext(k: nat, buf: array<Byte>, at: nat, len: nat) returns (n: int)
      requires k < |elements| && at == TotalSize(elements[..k]) <= len <= buf.Length
      requires buf[..at] == EncodedAll(elements[..k])
      modifies buf
      ensures n < 0 ==> len < TotalSize(elements[..k + 1])
      ensures n >= 0 ==> at + n == TotalSize(elements[..k + 1]) <= len && buf[..at + n] == EncodedAll(elements[..k + 1])
      ensures forall j :: len <= j < buf.Length ==> buf[j] == old(buf[j])
    {
      OneMoreEncoded(elements, k);
      ghost var written := buf[..at];
      n := StoreItem(elements[k], buf, at, len - at);
      if n >= 0 { Adjoined(buf[..], at, at + n, written, Encoded(elements[k])); }
    }

    method CheckTypes(first: nat, kinds: seq<Kind>) returns (ok: bool)
      requires first <= |elements|
      ensures ok <==> first + |kinds| <= |elements| && HasKinds(elements[first..first + |kinds|], kinds)
    {
      if first + |kinds| > |elements| { return false; }
      for k := 0 to |kinds|
        invariant forall j :: 0 <= j < k ==> Has(elements[first + j], kinds[j])
      {
        if !Has(elements[first + k], kinds[k]) {
          assert !Has(elements[first..first + |kinds|][k], kinds[k]);
          return false;
        }
      }
      return true;
    }

    // One frame, from its step on.
    method CheckFrame(i: nat) returns (ok: bool, next: nat)
      requires i < |elements|
      ensures ok ==> i < next <= |elements| && (Accepts(grammar, elements[i..]) <==> Accepts(grammar, elements[next..]))
      ensures !ok ==> !Accepts(grammar, elements[i..])
    {
      AcceptedFrom(grammar, elements, i);
      next := i;
      if !elements[i].Step? { return false, next; }
      var kinds := grammar.kinds(elements[i].step);
      ok := CheckTypes(i + 1, kinds);
      next := i + 1 + |kinds|;
    }

    method Validate() returns (ok: bool)
      ensures ok <==> Accepts(grammar, elements)
    {
      var i := 0;
      assert elements[0..] == elements;
      while i < |elements|
        invariant i <= |elements| && (Accepts(grammar, elements) <==> Accepts(grammar, elements[i..]))
        decreases |elements| - i
      {
        ok, i := CheckFrame(i);
        if !ok { return; }
      }
      return true;
    }

    // Reads elements until the bytes end or one cannot be read; what was read stays in the list.
    method LoadItems(data: array<Byte>, size: nat) returns (read: int)
      requires size <= data.Length
      modifies this
      ensures elements == DecodedAll(data[..size]).0 && read == if DecodedAll(data[..size]).1 then size else -1
    {
      elements := [];
      var i, len := 0, size;
      ghost var rest := data[..size];
      ghost var items, ok := DecodedAll(rest).0, DecodedAll(rest).1;
      assert [] + items == items;
      while len > 0
        invariant i + len == size && rest == data[i..size]
        invariant items == elements + DecodedAll(rest).0 && ok == DecodedAll(rest).1
        decreases len
      {
        assert data[i..i + len] == rest;
        var item := Decoded(data[i..i + len]);
        OneMoreDecoded(rest, elements, item);
        if item.None? { return -1; }
        var consumed := item.value.size;
        Dropped(data[..], i, consumed, size);
        Push(item.value.elem);
        i, len, rest := i + consumed, len - consumed, rest[consumed..];
      }
      return i;
    }

    method Load(data: array<Byte>, size: nat) returns (count: int)
      requires size <= data.Length
      modifies this
      ensures elements == DecodedAll(data[..size]).0
      ensures count == if DecodedAll(data[..size]).1 && Accepts(grammar, elements) then size else -1
    {
      count := LoadItems(data, size);
      if count < 0 { return; }
      var valid := Validate();
      if !valid { return -1; }
    }

    // Passes over elements up to and including the step that ends a popup or table.
    method Skip(from: nat, end: Byte) returns (i: nat)
      requires from <= |elements|
      ensures from <= i <= |elements| && elements[i..] == AfterEnd(elements[from..], end)
    {
      i := from;
      while i < |elements| && !(elements[i].Step? && elements[i].step == end)
        invariant from <= i <= |elements| && AfterEnd(elements[i..], end) == AfterEnd(elements[from..], end)
      {
        i := i + 1;
      }
      if i < |elements| { i := i + 1; }
    }

    // The call that draws the frame at i, where the next one starts, and what is left to draw.
    method Dispatch(i: nat, ghost todo: seq<Elem>, ghost open: nat -> bool)
      returns (w: Option<Widget>, next: nat, ghost left: seq<Elem>)
      requires Good(grammar) && i < |elements| && todo == elements[i..] && Accepts(grammar, todo)
      ensures i < next <= |elements| && elements[i].Step?
      ensures Pressable(elements[i].step) || Editable(elements[i].step) ==> i + 2 < next && elements[i + 1].Str?
      ensures left == LeftAfter(elements[next..], w, open(|todo|))
      ensures Continues(grammar, todo, w, left, open)
    {
      FrameAt(grammar, elements, i);
      var step := elements[i].step;
      next := i + 1 + |grammar.kinds(step)|;
      w := grammar.call(step, elements[i + 1..next]);
      ghost var v;
      v, left := CallsFrom(grammar, elements, i, next, todo, open);
      assert w == v;
    }

    // The user's part in the widget whose arguments start at i and end before `next`.
    method Enter(i: nat, next: nat, step: Byte, sync: bool, mine: Answer, diff: Option<Diff>) returns (diff': Option<Diff>)
      requires i <= next <= |elements| && Reported(elements, diff, i)
      requires Pressable(step) || Editable(step) ==> i + 1 < next && elements[i].Str?
      modifies this
      ensures SameKinds(old(elements), elements) && elements[next..] == old(elements)[next..]
      ensures Reported(elements, diff', next)
      ensures var given := Editable(step) && mine.touched && SameKind(mine.entered, old(elements)[i + 1]);
              && elements == (if given then old(elements)[i + 1 := mine.entered] else old(elements))
              && diff' == if given then Some(Diff(old(elements)[i].str, Some(mine.entered), sync))
                          else if Pressable(step) && mine.touched then Some(Diff(old(elements)[i].str, None, sync)) else diff
    {
      diff' := diff;
      if Pressable(step) && mine.touched {
        diff' := Some(Diff(elements[i].str, None, sync));
        assert ReportedAt(elements, diff'.value, i + 1);
      }
      if Editable(step) && mine.touched && SameKind(mine.entered, elements[i + 1]) {
        diff' := Some(Diff(elements[i].str, Some(mine.entered), sync));
        elements := elements[i + 1 := mine.entered];
        assert ReportedAt(elements, diff'.value, i + 1);
      } else if diff'.Some? && diff' == diff {
        ghost var k: nat :| k < i && ReportedAt(elements, diff.value, k);
      }
    }

    // The same, seen from the whole list and all frames drawn so far.
    method EnterFrame(i: nat, next: nat, mine: Answer, diff: Option<Diff>,
                      ghost was: seq<Elem>, ghost frames: seq<nat>, ghost answer: nat -> Answer, ghost p: nat)
      returns (diff': Option<Diff>)
      requires DrawnSoFar(was, frames, answer, i, elements, diff)
      requires i < next <= |elements| && elements[i].Step? && p == |was| - i && mine == answer(p)
      requires Pressable(elements[i].step) || Editable(elements[i].step) ==> i + 2 < next && elements[i + 1].Str?
      modifies this
      ensures |elements| == |was| && elements[next..] == old(elements)[next..]
      ensures DrawnSoFar(was, frames + [p], answer, next, elements, diff')
    {
      ghost var now := elements;
      assert forall k :: i <= k < |was| ==> elements[k] == was[k] by {
        forall k | i <= k < |was| ensures elements[k] == was[k] { assert elements[k] == elements[i..][k - i] == was[i..][k - i]; }
      }
      DrawnLater(was, frames, answer, i, next, elements, diff);
      ghost var step := now[i].step;
      assert Pressed(was, p, answer) <==> Pressable(step) && mine.touched;
      assert GivenValue(was, p, answer) <==> Editable(step) && mine.touched && SameKind(mine.entered, now[i + 2]);
      diff' := Enter(i + 1, next, elements[i].step, elements[i].forceSync, mine, diff);
      OneMoreAnswer(was, frames, answer, p, diff, diff');
      OneMoreValue(was, frames, answer, p, i, now, elements);
      SameKindsChain(was, now, elements);
    }

    // Draws a list that was found valid: every element read as a step is one, and every argument has the
    // kind it is read as. New values go into the list, which stays valid, and the last answer is reported.
    method Draw(answer: nat -> Answer) returns (calls: seq<Widget>, diff: Option<Diff>)
      requires Good(grammar) && Accepts(grammar, elements)
      modifies this
      ensures calls == Calls(grammar, old(elements), Opening(answer))
      ensures SameKinds(old(elements), elements) && Accepts(grammar, elements) && Reported(elements, diff, |elements|)
      ensures var frames := Reached(grammar, old(elements), Opening(answer));
              LastAnswer(old(elements), frames, answer, diff) && ValuesEntered(old(elements), frames, answer, elements)
    {
      ghost var was, todo, open := elements, elements, Opening(answer);
      ghost var frames: seq<nat> := [];
      var i := 0;
      calls, diff := [], None;
      NothingDrawn(grammar, was, open);
      while i < |elements|
        invariant i <= |elements| && elements[i..] == todo
        invariant DrawnAndLeft(grammar, was, todo, open, calls, frames)
        invariant DrawnSoFar(was, frames, answer, i, elements, diff)
        decreases |elements| - i
      {
        ghost var left;
        var w, next;
        w, next, diff, left := DrawFrame(i, diff, was, todo, frames, answer);
        OneMoreDrawn(grammar, was, todo, left, w, open, calls, frames);
        calls, frames := calls + ShownCalls(w), frames + [|todo|];
        i, todo := next, left;
      }
      AllDrawn(grammar, was, open, calls, frames);
      SameKindsAccepted(grammar, was, elements);
    }

    method DrawFrame(i: nat, diff: Option<Diff>, ghost was: seq<Elem>, ghost todo: seq<Elem>, ghost frames: seq<nat>,
                     answer: nat -> Answer) returns (w: Option<Widget>, next: nat, diff': Option<Diff>, ghost left: seq<Elem>)
      requires Good(grammar) && i < |elements| && todo == elements[i..] && Accepts(grammar, todo)
      requires DrawnSoFar(was, frames, answer, i, elements, diff)
      modifies this
      ensures i < next <= |elements| && left == elements[next..] && Continues(grammar, todo, w, left, Opening(answer))
      ensures DrawnSoFar(was, frames + [|todo|], answer, next, elements, diff')
    {
      var mine := answer(|elements| - i);
      ghost var p, open := |todo|, Opening(answer);
      assert p == |elements| - i == |was| - i && open(p) == mine.open;
      w, next, left := Dispatch(i, todo, open);
      ghost var rest := elements[next..];
      assert left == LeftAfter(rest, w, mine.open);
      next, diff' := FinishFrame(i, next, w, mine, diff, was, frames, answer, p, rest, left);
    }

    // The user's part in a frame, and where drawing goes on behind it.
    method FinishFrame(i: nat, behind: nat, w: Option<Widget>, mine: Answer, diff: Option<Diff>,
                       ghost was: seq<Elem>, ghost frames: seq<nat>, ghost answer: nat -> Answer, ghost p: nat,
                       ghost rest: seq<Elem>, ghost left: seq<Elem>) returns (next: nat, diff': Option<Diff>)
      requires DrawnSoFar(was, frames, answer, i, elements, diff)
      requires i < behind <= |elements| && elements[i].Step? && p == |was| - i && mine == answer(p)
      requires Pressable(elements[i].step) || Editable(elements[i].step) ==> i + 2 < behind && elements[i + 1].Str?
      requires rest == elements[behind..] && left == LeftAfter(rest, w, mine.open)
      modifies this
      ensures behind <= next <= |elements| && elements[next..] == left
      ensures DrawnSoFar(was, frames + [p], answer, next, elements, diff')
    {
      diff' := EnterFrame(i, behind, mine, diff, was, frames, answer, p);
      next := SkipClosed(w, behind, mine.open, diff', was, frames + [p], answer, rest, left);
    }

    // Where drawing goes on behind a frame.
    method SkipClosed(w: Option<Widget>, i: nat, open: bool, ghost diff: Option<Diff>,
                      ghost was: seq<Elem>, ghost frames: seq<nat>, ghost answer: nat -> Answer,
                      ghost rest: seq<Elem>, ghost left: seq<Elem>) returns (next: nat)
      requires DrawnSoFar(was, frames, answer, i, elements, diff) && rest == elements[i..] && left == LeftAfter(rest, w, open)
      ensures i <= next <= |elements| && elements[next..] == left
      ensures DrawnSoFar(was, frames, answer, next, elements, diff)
    {
      next := i;
      if w.Some? && Opens(w.value) && !open {
        next := Skip(i, EndStep(w.value));
      }
      DrawnLater(was, frames, answer, i, next, elements, diff);
    }
  }
}
