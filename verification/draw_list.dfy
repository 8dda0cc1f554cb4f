// The draw list and the splitter that lets several channels be drawn in any order and puts them one behind
// another afterwards.
module DrawLists {
  import opened Options
  import opened DrawCommands

  // What has been drawn: indices, each under a header, and the callbacks between them.
  datatype Log = Log(marks: seq<Mark>, idx: seq<int>)

  function EventsOf(log: Log): seq<Event>
    requires IndexCount(log.marks) <= |log.idx|
  {
    Filled(log.marks, log.idx)
  }

  predicate Proper(r: Rect) { r.left <= r.right && r.top <= r.bottom }

  function Max(a: real, b: real): real { if a >= b then a else b }

  function Min(a: real, b: real): real { if a <= b then a else b }

  // The clip rectangle a push asks for, within the current one if so wanted, never inverted.
  function Clipped(wanted: Rect, current: Rect, intersect: bool): Rect {
    var r := if intersect
             then Rect(Max(wanted.left, current.left), Max(wanted.top, current.top),
                       Min(wanted.right, current.right), Min(wanted.bottom, current.bottom))
             else wanted;
    r.(right := Max(r.left, r.right), bottom := Max(r.top, r.bottom))
  }

  predicate InRect(r: Rect, x: real, y: real) { r.left <= x <= r.right && r.top <= y <= r.bottom }

  ghost predicate Meet(a: Rect, b: Rect) { exists x: real, y: real :: InRect(a, x, y) && InRect(b, x, y) }

  // The clip rectangle holds exactly the points of both rectangles, if they have any in common; with none, it
  // holds no more than an edge; and what is asked for without the current one, if it is a rectangle.
  lemma ClippedExactly(wanted: Rect, current: Rect)
    ensures Proper(Clipped(wanted, current, true)) && Proper(Clipped(wanted, current, false))
    ensures Meet(wanted, current) ==>
              forall x: real, y: real :: InRect(Clipped(wanted, current, true), x, y) <==> InRect(wanted, x, y) && InRect(current, x, y)
    ensures !Meet(wanted, current) ==>
              var r := Clipped(wanted, current, true); r.left == r.right || r.top == r.bottom
    ensures Proper(wanted) ==> Clipped(wanted, current, false) == wanted
  {
    var r := Clipped(wanted, current, true);
    if r.left < r.right && r.top < r.bottom {
      assert InRect(wanted, r.left, r.top) && InRect(current, r.left, r.top);
    }
  }

  lemma SameTail(a: seq<Mark>, b: seq<Mark>, tail: seq<Mark>)
    requires a + tail == b + tail
    ensures a == b
  {
    assert a == (a + tail)[..|a|] && b == (b + tail)[..|b|];
  }

  class DrawList {
    var cmds: seq<Cmd>
    var idx: seq<int>
    var idxWrite: nat
    var header: Header
    var clips: seq<Rect>
    var textures: seq<int>
    const fullscreen: Rect

    ghost function Contents(): Log
      reads this
    {
      Log(Marks(cmds), idx)
    }

    // The buffers alone.
    ghost predicate Sound()
      reads this
    {
      && Contiguous(cmds, |idx|)
      && Proper(fullscreen) && Proper(header.clip) && (forall c <- clips :: Proper(c))
    }

    // There is always a command to draw into, and it carries the current header.
    ghost predicate Valid()
      reads this
    {
      Sound() && cmds != [] && Last(cmds).callback.None? && Last(cmds).header == header
    }

    constructor (screen: Rect)
      requires Proper(screen)
      ensures Valid() && Contents() == Log([], []) && clips == [] && textures == [] && fullscreen == screen
    {
      var none := Header(Rect(0.0, 0.0, 0.0, 0.0), 0);
      fullscreen := screen;
      header, clips, textures := none, [], [];
      cmds, idx, idxWrite := [Cmd(none, 0, 0, None)], [], 0;
      new;
      Pushed([], 0, Cmd(none, 0, 0, None));
      assert [] + cmds == cmds;
    }

    method AddDrawCmd()
      requires Sound()
      modifies this`cmds
      ensures Valid() && Contents() == old(Contents()) && Unused(Last(cmds))
    {
      assert Proper(header.clip);
      Pushed(cmds, |idx|, Cmd(header, |idx|, 0, None));
      cmds := cmds + [Cmd(header, |idx|, 0, None)];
    }

    method PopUnusedDrawCmd()
      requires Sound()
      modifies this`cmds
      ensures Sound() && Contents() == old(Contents())
      ensures cmds == if old(cmds) != [] && Unused(Last(old(cmds))) then Front(old(cmds)) else old(cmds)
    {
      if |cmds| == 0 { return; }
      if Unused(Last(cmds)) {
        UnusedPopped(cmds, |idx|);
        cmds := Front(cmds);
      }
    }

    method AddCallback(callback: Option<int>)
      requires Valid()
      modifies this`cmds
      ensures Valid() && Contents().idx == old(Contents()).idx
      ensures Contents().marks
              == old(Contents()).marks + match callback { case Some(f) => [Call(f, header)] case None => [] }
    {
      if Last(cmds).elemCount != 0 {
        AddDrawCmd();
      }
      var c := Last(cmds).(callback := callback);
      LastChanged(cmds, |idx|, c);
      assert Marks(cmds) == Marks(Front(cmds)) + MarksOf(Last(cmds)) == Marks(Front(cmds));
      cmds := WithLast(cmds, c);
      AddDrawCmd();
    }

    // Folds the current command into the one before it.
    method TryMergeDrawCmds()
      requires Valid() && |cmds| >= 2
      modifies this`cmds
      ensures Valid() && Contents() == old(Contents())
    {
      var curr, prev := Last(cmds), cmds[|cmds| - 2];
      if curr.header == prev.header && prev.idxOffset + prev.elemCount == curr.idxOffset
         && curr.callback.None? && prev.callback.None? {
        JoinedMarks(Front(cmds), curr.idxOffset, curr);
        cmds := WithLast(Front(cmds), Grown(prev, curr.elemCount));
      }
    }

    // The command before the current one would do as well.
    predicate TakesOver(prev: Cmd, curr: Cmd)
      reads this
    {
      header == prev.header && prev.idxOffset + prev.elemCount == curr.idxOffset && prev.callback.None?
    }

    // The current command gets the new clip rectangle, or makes way if it has drawn under another.
    method OnChangedClipRect()
      requires Sound() && cmds != [] && Last(cmds).callback.None?
      requires Last(cmds).header == header.(clip := Last(cmds).header.clip)
      modifies this`cmds
      ensures Valid() && Contents() == old(Contents())
    {
      var curr := Last(cmds);
      if curr.elemCount != 0 && curr.header.clip != header.clip {
        AddDrawCmd();
        return;
      }
      if curr.elemCount == 0 && |cmds| > 1 && TakesOver(cmds[|cmds| - 2], curr) {
        UnusedPopped(cmds, |idx|);
        cmds := Front(cmds);
        return;
      }
      var c := curr.(header := curr.header.(clip := header.clip));
      LastChanged(cmds, |idx|, c);
      cmds := WithLast(cmds, c);
    }

    // The same for the texture.
    method OnChangedTextureID()
      requires Sound() && cmds != [] && Last(cmds).callback.None?
      requires Last(cmds).header == header.(texture := Last(cmds).header.texture)
      modifies this`cmds
      ensures Valid() && Contents() == old(Contents())
    {
      var curr := Last(cmds);
      if curr.elemCount != 0 && curr.header.texture != header.texture {
        AddDrawCmd();
        return;
      }
      if curr.elemCount == 0 && |cmds| > 1 && TakesOver(cmds[|cmds| - 2], curr) {
        UnusedPopped(cmds, |idx|);
        cmds := Front(cmds);
        return;
      }
      var c := curr.(header := curr.header.(texture := header.texture));
      LastChanged(cmds, |idx|, c);
      cmds := WithLast(cmds, c);
    }

    method PushClipRect(wanted: Rect, intersect: bool)
      requires Valid()
      modifies this`cmds, this`header, this`clips
      ensures Valid() && Contents() == old(Contents())
      ensures header == old(header).(clip := Clipped(wanted, old(header).clip, intersect))
      ensures clips == old(clips) + [header.clip]
    {
      var r := Clipped(wanted, header.clip, intersect);
      clips := clips + [r];
      header := header.(clip := r);
      OnChangedClipRect();
    }

    method PopClipRect()
      requires Valid() && clips != []
      modifies this`cmds, this`header, this`clips
      ensures Valid() && Contents() == old(Contents())
      ensures clips == old(clips)[..|old(clips)| - 1]
      ensures header == old(header).(clip := if clips == [] then fullscreen else clips[|clips| - 1])
    {
      clips := clips[..|clips| - 1];
      var r := if clips == [] then fullscreen else clips[|clips| - 1];
      header := header.(clip := r);
      OnChangedClipRect();
    }

    method PushTexture(texture: int)
      requires Valid()
      modifies this`cmds, this`header, this`textures
      ensures Valid() && Contents() == old(Contents())
      ensures header == old(header).(texture := texture) && textures == old(textures) + [texture]
    {
      textures := textures + [texture];
      header := header.(texture := texture);
      OnChangedTextureID();
    }

    method PopTexture()
      requires Valid() && textures != []
      modifies this`cmds, this`header, this`textures
      ensures Valid() && Contents() == old(Contents())
      ensures textures == old(textures)[..|old(textures)| - 1]
      ensures header == old(header).(texture := if textures == [] then 0 else textures[|textures| - 1])
    {
      textures := textures[..|textures| - 1];
      var texture := if textures == [] then 0 else textures[|textures| - 1];
      header := header.(texture := texture);
      OnChangedTextureID();
    }

    // Room for `n` indices, to be written through the write pointer.
    method PrimReserve(n: nat)
      requires Valid()
      modifies this`cmds, this`idx, this`idxWrite
      ensures Valid() && Contents().marks == old(Contents()).marks + Repeat(Index(header), n)
      ensures |idx| == |old(idx)| + n && idx[..|old(idx)|] == old(idx) && idxWrite == |old(idx)|
      ensures Last(cmds).elemCount >= n
    {
      JoinedMarks(cmds, |idx|, Cmd(header, |idx|, n, None));
      cmds := WithLast(cmds, Grown(Last(cmds), n));
      idxWrite := |idx|;
      idx := idx + seq(n, _ => 0);
    }

    method PrimWriteIdx(i: int)
      requires Valid() && idxWrite < |idx|
      modifies this`idx, this`idxWrite
      ensures Valid() && Contents().marks == old(Contents()).marks
      ensures idx == old(idx)[old(idxWrite) := i] && idxWrite == old(idxWrite) + 1
    {
      idx := idx[idxWrite := i];
      idxWrite := idxWrite + 1;
    }

    method PrimUnreserve(n: nat)
      requires Valid() && n <= Last(cmds).elemCount
      modifies this`cmds, this`idx
      ensures Valid() && old(Contents()).marks == Contents().marks + Repeat(Index(header), n)
      ensures idx == old(idx)[..|old(idx)| - n]
    {
      var c := Last(cmds);
      LastChanged(cmds, |idx|, c.(elemCount := c.elemCount - n));
      RepeatAdds(Index(header), c.elemCount - n, n);
      cmds := WithLast(cmds, c.(elemCount := c.elemCount - n));
      idx := idx[..|idx| - n];
    }

    method PrimWrite(indices: seq<int>)
      requires Valid() && idxWrite + |indices| <= |idx|
      modifies this`idx, this`idxWrite
      ensures Valid()
      ensures idx == old(idx)[..old(idxWrite)] + indices + old(idx)[old(idxWrite) + |indices|..]
    {
      ghost var from := idxWrite;
      for k := 0 to |indices|
        invariant Valid() && |idx| == |old(idx)| && idxWrite == from + k
        invariant idx[..from + k] == old(idx)[..from] + indices[..k] && idx[from + k..] == old(idx)[from + k..]
      {
        PrimWriteIdx(indices[k]);
        assert idx[..from + k + 1] == idx[..from + k] + [indices[k]];
        assert indices[..k + 1] == indices[..k] + [indices[k]];
      }
      assert indices[..|indices|] == indices;
      assert idx == idx[..from + |indices|] + idx[from + |indices|..];
    }

    // How shapes and text are drawn: room for the worst case, the indices, and the rest given back.
    method Prim(indices: seq<int>, spare: nat)
      requires Valid()
      modifies this`cmds, this`idx, this`idxWrite
      ensures Valid()
      ensures Contents() == Log(old(Contents()).marks + Repeat(Index(header), |indices|), old(Contents()).idx + indices)
    {
      ghost var marks, had := Marks(cmds), idx;
      PrimReserve(|indices| + spare);
      PrimWrite(indices);
      PrimUnreserve(spare);
      RepeatAdds(Index(header), |indices|, spare);
      SameTail(Marks(cmds), marks + Repeat(Index(header), |indices|), Repeat(Index(header), spare));
    }
  }
}
