// The splitter: a draw list is split into channels, which are drawn in any order and then merged, the
// buffers of each channel behind those of the one before.
module DrawSplitter {
  import opened Options
  import opened DrawCommands
  import opened DrawLists

  datatype Channel = Channel(cmds: seq<Cmd>, idx: seq<int>)

  function LogOf(ch: Channel): Log { Log(Marks(ch.cmds), ch.idx) }

  // ---- the specification: logs, one per channel

  function Joined(a: Log, b: Log): Log { Log(a.marks + b.marks, a.idx + b.idx) }

  function Concat(logs: seq<Log>): Log {
    if logs == [] then Log([], []) else Joined(Concat(logs[..|logs| - 1]), logs[|logs| - 1])
  }

  lemma ConcatNext(logs: seq<Log>, i: nat)
    requires i < |logs|
    ensures Concat(logs[..i + 1]) == Joined(Concat(logs[..i]), logs[i])
    ensures i == 0 ==> Concat(logs[..i + 1]) == logs[i]
  {
    assert logs[..i + 1][..i] == logs[..i];
  }

  ghost predicate Complete(log: Log) { IndexCount(log.marks) == |log.idx| }

  // Drawn one after the other, channel by channel.
  function EventsOfAll(logs: seq<Log>): seq<Event>
    requires forall l <- logs :: IndexCount(l.marks) <= |l.idx|
  {
    if logs == [] then [] else EventsOfAll(logs[..|logs| - 1]) + EventsOf(logs[|logs| - 1])
  }

  lemma {:induction false} ConcatRenders(logs: seq<Log>)
    requires forall l <- logs :: Complete(l)
    requires forall l <- logs :: IndexCount(l.marks) <= |l.idx|
    ensures Complete(Concat(logs)) && EventsOf(Concat(logs)) == EventsOfAll(logs)
  {
    if logs != [] {
      var init, l := logs[..|logs| - 1], logs[|logs| - 1];
      assert l in logs && forall k <- init :: k in logs;
      ConcatRenders(init);
      CountAppended(Concat(init).marks, l.marks);
      FilledAppended(Concat(init).marks, Concat(init).idx, l.marks, l.idx);
    }
  }

  // So what a merged buffer renders is what its channels would render, one after the other.
  lemma MergedRenders(cmds: seq<Cmd>, idx: seq<int>, logs: seq<Log>)
    requires Contiguous(cmds, |idx|) && Log(Marks(cmds), idx) == Concat(logs)
    requires (forall l <- logs :: Complete(l)) && forall l <- logs :: IndexCount(l.marks) <= |l.idx|
    ensures forall c <- cmds :: c.idxOffset + c.elemCount <= |idx|
    ensures Rendered(cmds, idx) == EventsOfAll(logs)
  {
    ContiguousInside(cmds, |idx|);
    RenderedIsFilled(cmds, idx, |idx|);
    ConcatRenders(logs);
  }

  // ---- channels

  // A parked channel: never drawn to, or with a command ready.
  ghost predicate Parked(ch: Channel) {
    Contiguous(ch.cmds, |ch.idx|) && (ch.cmds != [] ==> Last(ch.cmds).callback.None?)
  }

  ghost predicate AllParked(current: nat, count: nat, channels: seq<Channel>) {
    count <= |channels| && forall i :: 0 <= i < count && i != current ==> Parked(channels[i])
  }

  ghost function Logs(here: Log, current: nat, count: nat, channels: seq<Channel>): seq<Log>
    requires count <= |channels|
  {
    seq(count, i requires 0 <= i < count => if i == current then here else LogOf(channels[i]))
  }

  // ---- the merge, on values: `head` is the list's buffer, channels 1 to n - 1 follow it

  function Flat(head: seq<Cmd>, channels: seq<Channel>, n: nat): seq<Cmd>
    requires n <= |channels|
  {
    if n <= 1 then head else Flat(head, channels, n - 1) + channels[n - 1].cmds
  }

  // Where the last command before channel n is: 0 in the list, k in channel k, -1 nowhere.
  ghost predicate LastAt(head: seq<Cmd>, channels: seq<Channel>, n: nat, last: int)
    requires n <= |channels|
  {
    && -1 <= last < Max(n, 1)
    && (last < 0 ==> head == []) && (last == 0 ==> head != []) && (last > 0 ==> channels[last].cmds != [])
    && forall k :: 0 < k < n && last < k ==> channels[k].cmds == []
  }

  function Max(a: int, b: int): int { if a < b then b else a }

  // The buffers with the last command replaced.
  function HeadWith(head: seq<Cmd>, last: int, c: Cmd): seq<Cmd>
    requires last == 0 ==> head != []
  {
    if last == 0 then WithLast(head, c) else head
  }

  function ChannelsWith(channels: seq<Channel>, last: int, c: Cmd): seq<Channel>
    requires last < |channels| && (last > 0 ==> channels[last].cmds != [])
  {
    if last > 0 then channels[last := channels[last].(cmds := WithLast(channels[last].cmds, c))] else channels
  }

  function CmdAt(head: seq<Cmd>, channels: seq<Channel>, last: int): Cmd
    requires 0 <= last < |channels| && (last == 0 ==> head != []) && (last > 0 ==> channels[last].cmds != [])
  {
    Last(if last == 0 then head else channels[last].cmds)
  }

  lemma {:induction false} FlatUntil(head: seq<Cmd>, channels: seq<Channel>, other: seq<Channel>, n: nat)
    requires n <= |channels| && n <= |other| && forall k :: 0 <= k < n ==> channels[k].cmds == other[k].cmds
    ensures Flat(head, channels, n) == Flat(head, other, n)
  {
    if n > 1 { FlatUntil(head, channels, other, n - 1); }
  }

  lemma {:induction false} LastOfFlat(head: seq<Cmd>, channels: seq<Channel>, n: nat, last: int)
    requires 0 < n <= |channels| && LastAt(head, channels, n, last)
    ensures last < 0 ==> Flat(head, channels, n) == []
    ensures last >= 0 ==> var f := Flat(head, channels, n); f != [] && Last(f) == CmdAt(head, channels, last)
    decreases n
  {
    if n > 1 && last < n - 1 {
      LastOfFlat(head, channels, n - 1, last);
      assert channels[n - 1].cmds == [];
    }
  }

  lemma {:induction false} LastReplaced(head: seq<Cmd>, channels: seq<Channel>, n: nat, last: int, c: Cmd)
    requires 0 < n <= |channels| && LastAt(head, channels, n, last) && last >= 0
    requires Flat(head, channels, n) != []
    ensures Flat(HeadWith(head, last, c), ChannelsWith(channels, last, c), n) == WithLast(Flat(head, channels, n), c)
    decreases n
  {
    var changed := ChannelsWith(channels, last, c);
    if n > 1 {
      if last < n - 1 {
        assert channels[n - 1].cmds == [] && changed[n - 1].cmds == [];
        LastReplaced(head, channels, n - 1, last, c);
      } else {
        FlatUntil(head, channels, changed, n - 1);
        FlatLast(Flat(head, channels, n - 1), channels[n - 1].cmds, c);
      }
    }
  }

  lemma FlatLast(a: seq<Cmd>, b: seq<Cmd>, c: Cmd)
    requires b != []
    ensures WithLast(a + b, c) == a + WithLast(b, c)
  {
  }

  // Channels before n merged: one contiguous buffer that holds the log so far.
  ghost predicate Attached(head: seq<Cmd>, channels: seq<Channel>, n: nat, last: int, offset: nat, done: Log) {
    0 < n <= |channels| && LastAt(head, channels, n, last) && Holds(Flat(head, channels, n), offset, done)
  }

  ghost predicate Holds(cmds: seq<Cmd>, offset: nat, done: Log) {
    Contiguous(cmds, offset) && Marks(cmds) == done.marks && offset == |done.idx|
  }

  predicate JoinsLast(head: seq<Cmd>, channels: seq<Channel>, last: int, next: seq<Cmd>)
    requires last < |channels| && (last == 0 ==> head != []) && (last > 0 ==> channels[last].cmds != [])
  {
    last >= 0 && next != [] && Joins(CmdAt(head, channels, last), next[0])
  }

  // Channel n attached, its offsets not yet rebuilt.
  lemma GraftedAt(head: seq<Cmd>, channels: seq<Channel>, n: nat, last: int, next: seq<Cmd>,
      head': seq<Cmd>, channels': seq<Channel>, rest: seq<Cmd>)
    requires 0 < n < |channels| && LastAt(head, channels, n, last)
    requires if JoinsLast(head, channels, last, next)
             then var c := Grown(CmdAt(head, channels, last), next[0].elemCount);
                  head' == HeadWith(head, last, c) && channels' == ChannelsWith(channels, last, c) && rest == next[1..]
             else head' == head && channels' == channels && rest == next
    ensures LastAt(head', channels', n, last)
    ensures (Flat(head', channels', n), rest) == Grafted(Flat(head, channels, n), next)
    ensures Total(next) == Total(rest) + if JoinsLast(head, channels, last, next) then next[0].elemCount else 0
  {
    LastOfFlat(head, channels, n, last);
    if JoinsLast(head, channels, last, next) {
      assert next == [next[0]] + rest;
      TotalPrepended(next[0], rest);
      LastReplaced(head, channels, n, last, Grown(CmdAt(head, channels, last), next[0].elemCount));
    }
  }

  // Channel n attached.
  lemma AttachedOne(cmds: seq<Cmd>, n: nat, last: int, offset: nat, done: Log,
      next: seq<Cmd>, idx: seq<int>,
      head': seq<Cmd>, channels': seq<Channel>, rest: seq<Cmd>, start: nat, channels'': seq<Channel>)
    requires 0 < n < |channels'| && Holds(cmds, offset, done)
    requires LastAt(head', channels', n, last) && Contiguous(next, |idx|)
    requires (Flat(head', channels', n), rest) == Grafted(cmds, next)
    requires start + Total(rest) == offset + |idx|
    requires channels'' == channels'[n := Channel(Rebased(rest, start), idx)]
    ensures Attached(head', channels'', n + 1, if rest != [] then n else last, start + Total(rest),
                     Joined(done, Log(Marks(next), idx)))
  {
    HoldsNext(head', channels', n, cmds, offset, done, next, idx, rest, start, channels'');
    LastMoves(head', channels', n, last, channels'');
    assert channels''[n].cmds == [] <==> rest == [];
    assert LastAt(head', channels'', n + 1, if rest != [] then n else last);
  }

  lemma HoldsNext(head: seq<Cmd>, channels: seq<Channel>, n: nat, cmds: seq<Cmd>, offset: nat, done: Log,
      next: seq<Cmd>, idx: seq<int>, rest: seq<Cmd>, start: nat, channels': seq<Channel>)
    requires 0 < n < |channels| && Holds(cmds, offset, done) && Contiguous(next, |idx|)
    requires (Flat(head, channels, n), rest) == Grafted(cmds, next) && start + Total(rest) == offset + |idx|
    requires channels' == channels[n := Channel(Rebased(rest, start), idx)]
    ensures Holds(Flat(head, channels', n + 1), start + Total(rest), Joined(done, Log(Marks(next), idx)))
  {
    HoldsMore(cmds, offset, done, next, idx, Flat(head, channels, n), rest, start);
    FlatNext(head, channels, n, channels');
    assert channels'[n].cmds == Rebased(rest, start);
  }

  lemma FlatNext(head: seq<Cmd>, channels: seq<Channel>, n: nat, channels': seq<Channel>)
    requires 0 < n < |channels| && |channels'| > n
    requires forall k :: 0 <= k < n ==> channels'[k].cmds == channels[k].cmds
    ensures Flat(head, channels', n + 1) == Flat(head, channels, n) + channels'[n].cmds
  {
    FlatUntil(head, channels, channels', n);
  }

  lemma HoldsMore(cmds: seq<Cmd>, offset: nat, done: Log, next: seq<Cmd>, idx: seq<int>,
      out: seq<Cmd>, rest: seq<Cmd>, start: nat)
    requires Holds(cmds, offset, done) && Contiguous(next, |idx|)
    requires (out, rest) == Grafted(cmds, next) && start + Total(rest) == offset + |idx|
    ensures Holds(out + Rebased(rest, start), start + Total(rest), Joined(done, Log(Marks(next), idx)))
  {
    GraftedFollows(cmds, offset, next, |idx|, out, rest, start);
    HoldsBoth(out + Rebased(rest, start), start + Total(rest), done, Log(Marks(next), idx));
  }

  lemma HoldsBoth(cmds: seq<Cmd>, end: nat, done: Log, more: Log)
    requires Contiguous(cmds, end) && Marks(cmds) == done.marks + more.marks && end == |done.idx| + |more.idx|
    ensures Holds(cmds, end, Joined(done, more))
  {
  }

  lemma LastMoves(head: seq<Cmd>, channels: seq<Channel>, n: nat, last: int, channels': seq<Channel>)
    requires 0 < n < |channels| == |channels'| && LastAt(head, channels, n, last)
    requires forall k :: 0 <= k < n ==> channels'[k].cmds == channels[k].cmds
    ensures LastAt(head, channels', n + 1, if channels'[n].cmds != [] then n else last)
  {
  }

  class Splitter {
    var current: nat
    var count: nat
    var channels: seq<Channel>

    ghost predicate Valid()
      reads this
    {
      && (count <= 1 ==> current == 0)
      && (count > 1 ==> current < count && AllParked(current, count, channels))
    }

    // What was drawn to each channel; without a split there is only the list.
    ghost function Drawn(list: DrawList): seq<Log>
      reads this, list
      requires Valid()
    {
      if count <= 1 then [list.Contents()] else Logs(list.Contents(), current, count, channels)
    }

    constructor ()
      ensures Valid() && count == 0 && current == 0
    {
      current, count, channels := 0, 0, [];
    }

    // Channel 0 goes on with what the list holds, the others start empty. Channels are never removed.
    method Split(list: DrawList, n: nat)
      requires Valid() && list.Valid() && current == 0 && count <= 1 && n > 0
      modifies this
      ensures Valid() && count == n && current == 0
      ensures Drawn(list) == [list.Contents()] + seq(n - 1, _ => Log([], []))
    {
      var had := |channels|;
      if had < n {
        channels := channels + seq(n - had, _ => Channel([], []));
      }
      count := n;
      channels := channels[0 := Channel([], [])];
      for i := 1 to n
        invariant |channels| >= n && count == n && current == 0
        invariant forall k :: 0 <= k < i ==> channels[k] == Channel([], [])
        invariant forall k :: had <= k < n ==> channels[k] == Channel([], [])
      {
        if i < had {
          channels := channels[i := Channel([], [])];
        }
      }
      if n > 1 {
        assert Drawn(list) == [list.Contents()] + seq(n - 1, _ => Log([], []));
      }
    }

    // Makes the last command one to draw into, with the list's own header.
    method Refit(list: DrawList)
      requires list.Sound()
      modifies list`cmds
      ensures list.Valid() && list.Contents() == old(list.Contents())
    {
      if |list.cmds| == 0 || Last(list.cmds).callback.Some? {
        list.AddDrawCmd();
      }
      var c := Last(list.cmds);
      if c.elemCount == 0 {
        LastChanged(list.cmds, |list.idx|, c.(header := list.header));
        list.cmds := WithLast(list.cmds, c.(header := list.header));
      } else if c.header != list.header {
        list.AddDrawCmd();
      }
    }

    // The list's buffers are parked in the channel left, those of the channel entered are taken up.
    method SetCurrentChannel(list: DrawList, i: nat)
      requires Valid() && list.Valid() && i < count
      modifies this`channels, this`current, list`cmds, list`idx, list`idxWrite
      ensures Valid() && list.Valid() && current == i && Drawn(list) == old(Drawn(list))
    {
      if current == i { return; }
      ghost var before := Drawn(list);
      channels := channels[current := Channel(list.cmds, list.idx)];
      current := i;
      list.cmds, list.idx := channels[i].cmds, channels[i].idx;
      list.idxWrite := |list.idx|;
      assert Logs(LogOf(channels[i]), i, count, channels) == before;
      Refit(list);
    }

    method PopUnused(i: nat)
      requires i < |channels| && Parked(channels[i])
      modifies this`channels
      ensures |channels| == |old(channels)| && channels == old(channels)[i := channels[i]]
      ensures channels[i].idx == old(channels)[i].idx
      ensures Contiguous(channels[i].cmds, |channels[i].idx|) && LogOf(channels[i]) == LogOf(old(channels)[i])
    {
      var cmds := channels[i].cmds;
      if |cmds| > 0 && Unused(Last(cmds)) {
        UnusedPopped(cmds, |channels[i].idx|);
        channels := channels[i := channels[i].(cmds := Front(cmds))];
      }
    }

    // Gives commands the offsets they have behind `start` indices.
    method Rebase(cmds: seq<Cmd>, start: nat) returns (rebased: seq<Cmd>, offset: nat)
      ensures rebased == Rebased(cmds, start) && offset == start + Total(cmds)
    {
      rebased, offset := cmds, start;
      for n := 0 to |cmds|
        invariant |rebased| == |cmds| && rebased[..n] == Rebased(cmds[..n], start) && rebased[n..] == cmds[n..]
        invariant offset == start + Total(cmds[..n])
      {
        assert rebased[n] == rebased[n..][0] == cmds[n];
        assert Front(cmds[..n + 1]) == cmds[..n];
        rebased := rebased[n := rebased[n].(idxOffset := offset)];
        assert rebased[..n + 1] == rebased[..n] + [rebased[n]];
        offset := offset + cmds[n].elemCount;
      }
      assert cmds[..|cmds|] == cmds;
    }

    // The first command of channel i goes into the last one before it, if that will take it.
    method Graft(list: DrawList, i: nat, last: int, offset: nat) returns (start: nat)
      requires 0 < i < |channels| && LastAt(list.cmds, channels, i, last)
      modifies this`channels, list`cmds
      ensures |channels| == |old(channels)| && LastAt(list.cmds, channels, i, last)
      ensures (Flat(list.cmds, channels, i), channels[i].cmds)
              == Grafted(old(Flat(list.cmds, channels, i)), old(channels)[i].cmds)
      ensures start + Total(channels[i].cmds) == offset + Total(old(channels)[i].cmds)
      ensures forall k :: 0 <= k < |channels| ==> channels[k].idx == old(channels)[k].idx
      ensures forall k :: i < k < |channels| ==> channels[k] == old(channels)[k]
    {
      ghost var head, before, next := list.cmds, channels, channels[i].cmds;
      start := offset;
      if |channels[i].cmds| > 0 && last >= 0 {
        var c, d := if last == 0 then Last(list.cmds) else Last(channels[last].cmds), channels[i].cmds[0];
        if Joins(c, d) {
          if last == 0 {
            list.cmds := WithLast(list.cmds, Grown(c, d.elemCount));
          } else {
            channels := channels[last := Channel(WithLast(channels[last].cmds, Grown(c, d.elemCount)), channels[last].idx)];
          }
          start := start + d.elemCount;
          channels := channels[i := Channel(channels[i].cmds[1..], channels[i].idx)];
        }
      }
      ghost var grown := channels[i := before[i]];
      GraftedAt(head, before, i, last, next, list.cmds, grown, channels[i].cmds);
      FlatUntil(list.cmds, grown, channels, i);
    }

    // Channel i, its unused command gone, is put behind the ones before it.
    method Attach(list: DrawList, i: nat, last: int, offset: nat, ghost done: Log) returns (last': int, offset': nat)
      requires 0 < i < |channels| && Attached(list.cmds, channels, i, last, offset, done)
      requires Contiguous(channels[i].cmds, |channels[i].idx|)
      modifies this`channels, list`cmds
      ensures |channels| == |old(channels)|
      ensures Attached(list.cmds, channels, i + 1, last', offset', Joined(done, LogOf(old(channels)[i])))
      ensures forall k :: 0 <= k < |channels| ==> channels[k].idx == old(channels)[k].idx
      ensures forall k :: i < k < |channels| ==> channels[k] == old(channels)[k]
    {
      ghost var flat, next, idx := Flat(list.cmds, channels, i), channels[i].cmds, channels[i].idx;
      ContiguousTotal(next, |idx|);
      var start := Graft(list, i, last, offset);
      ghost var grafted, rest := channels, channels[i].cmds;
      last' := if |channels[i].cmds| > 0 then i else last;
      var cmds;
      cmds, offset' := Rebase(channels[i].cmds, start);
      channels := channels[i := Channel(cmds, channels[i].idx)];
      AttachedOne(flat, i, last, offset, done, next, idx, list.cmds, grafted, rest, start, channels);
    }

    method Follow(list: DrawList, i: nat, last: int, offset: nat, ghost done: Log) returns (last': int, offset': nat)
      requires 0 < i < |channels| && Attached(list.cmds, channels, i, last, offset, done) && Parked(channels[i])
      modifies this`channels, list`cmds
      ensures |channels| == |old(channels)|
      ensures Attached(list.cmds, channels, i + 1, last', offset', Joined(done, LogOf(old(channels)[i])))
      ensures forall k :: 0 <= k < |channels| ==> channels[k].idx == old(channels)[k].idx
      ensures forall k :: i < k < |channels| ==> channels[k] == old(channels)[k]
    {
      PopUnused(i);
      FlatUntil(list.cmds, old(channels), channels, i);
      last', offset' := Attach(list, i, last, offset, done);
    }

    // The first pass: the commands of every channel get their final offsets.
    method Relocate(list: DrawList, ghost logs: seq<Log>)
      requires list.Sound() && 1 < count && AllParked(0, count, channels)
      requires logs == Logs(list.Contents(), 0, count, channels)
      modifies this`channels, list`cmds
      ensures |channels| == |old(channels)| && Holds(Flat(list.cmds, channels, count), |Concat(logs).idx|, Concat(logs))
      ensures forall k :: 0 <= k < |channels| ==> channels[k].idx == old(channels)[k].idx
    {
      var last := if |list.cmds| > 0 then 0 else -1;
      var offset: nat := if |list.cmds| > 0 then Last(list.cmds).idxOffset + Last(list.cmds).elemCount else 0;
      ConcatNext(logs, 0);
      ghost var done := list.Contents();
      for i := 1 to count
        invariant |channels| == |old(channels)| && Attached(list.cmds, channels, i, last, offset, done)
        invariant done == Concat(logs[..i])
        invariant forall k :: 0 <= k < |channels| ==> channels[k].idx == old(channels)[k].idx
        invariant forall k :: i <= k < |channels| ==> channels[k] == old(channels)[k]
      {
        ConcatNext(logs, i);
        last, offset := Follow(list, i, last, offset, done);
        done := Joined(done, logs[i]);
      }
      assert logs[..count] == logs;
    }

    // The second pass: commands and indices are written behind those of the list.
    method Gather(list: DrawList, ghost logs: seq<Log>)
      requires 0 < count <= |channels| && |logs| == count && list.idx == Concat(logs[..1]).idx
      requires forall k :: 0 < k < count ==> channels[k].idx == logs[k].idx
      modifies list`cmds, list`idx, list`idxWrite
      ensures list.cmds == Flat(old(list.cmds), channels, count) && list.idx == Concat(logs).idx
    {
      for i := 1 to count
        invariant list.cmds == Flat(old(list.cmds), channels, i) && list.idx == Concat(logs[..i]).idx
      {
        ConcatNext(logs, i);
        list.cmds := list.cmds + channels[i].cmds;
        list.idx := list.idx + channels[i].idx;
      }
      list.idxWrite := |list.idx|;
      assert logs[..count] == logs;
    }

    // What the list holds afterwards is what was drawn to each channel, channel by channel, every index
    // under the header it was drawn with, in one contiguous buffer that is ready to be drawn into.
    method Merge(list: DrawList)
      requires Valid() && list.Valid()
      modifies this`channels, this`current, this`count, list`cmds, list`idx, list`idxWrite
      ensures Valid() && list.Valid() && current == 0 && count == if old(count) <= 1 then old(count) else 1
      ensures list.Contents() == Concat(old(Drawn(list)))
    {
      ghost var logs := Drawn(list);
      if count <= 1 {
        ConcatNext(logs, 0);
        assert logs[..1] == logs;
        return;
      }
      SetCurrentChannel(list, 0);
      list.PopUnusedDrawCmd();
      ConcatNext(logs, 0);
      Relocate(list, logs);
      Gather(list, logs);
      Refit(list);
      count := 1;
    }
  }

  // ---- any drawing between a split and its merge

  datatype Op =
    | PushClip(wanted: Rect, intersect: bool)
    | PopClip
    | PushTexture(texture: int)
    | PopTexture
    | Callback(callback: Option<int>)
    | Prim(indices: seq<int>, spare: nat)
    | Switch(channel: nat)

  // The clip and texture state, which all channels share.
  datatype View = View(header: Header, clips: seq<Rect>, textures: seq<int>)

  predicate Possible(op: Op, v: View, n: nat) {
    match op
    case PopClip => v.clips != []
    case PopTexture => v.textures != []
    case Switch(ch) => ch < n
    case _ => true
  }

  function Seen(op: Op, v: View, screen: Rect): View {
    match op
    case PushClip(r, intersect) =>
      var clip := Clipped(r, v.header.clip, intersect);
      View(v.header.(clip := clip), v.clips + [clip], v.textures)
    case PopClip =>
      if v.clips == [] then v else
      var rest := v.clips[..|v.clips| - 1];
      View(v.header.(clip := if rest == [] then screen else rest[|rest| - 1]), rest, v.textures)
    case PushTexture(t) => View(v.header.(texture := t), v.clips, v.textures + [t])
    case PopTexture =>
      if v.textures == [] then v else
      var rest := v.textures[..|v.textures| - 1];
      View(v.header.(texture := if rest == [] then 0 else rest[|rest| - 1]), v.clips, rest)
    case _ => v
  }

  function Drawing(op: Op, h: Header): Log {
    match op
    case Callback(Some(f)) => Log([Call(f, h)], [])
    case Prim(indices, _) => Log(Repeat(Index(h), |indices|), indices)
    case _ => Log([], [])
  }

  function Now(op: Op, current: nat): nat { if op.Switch? then op.channel else current }

  ghost predicate AllPossible(ops: seq<Op>, v: View, screen: Rect, n: nat)
    decreases |ops|
  {
    ops == [] || (Possible(ops[0], v, n) && AllPossible(ops[1..], Seen(ops[0], v, screen), screen, n))
  }

  // What one channel gets to see of a drawing: the draws made while it was current, in order, each under
  // the header of that moment.
  function DrawnTo(ch: nat, ops: seq<Op>, current: nat, v: View, screen: Rect): Log
    decreases |ops|
  {
    if ops == [] then Log([], [])
    else
      var rest := DrawnTo(ch, ops[1..], Now(ops[0], current), Seen(ops[0], v, screen), screen);
      if ch == current then Joined(Drawing(ops[0], v.header), rest) else rest
  }

  ghost function ViewOf(list: DrawList): View
    reads list
  {
    View(list.header, list.clips, list.textures)
  }

  method PerformOnList(list: DrawList, op: Op)
    requires list.Valid() && Possible(op, ViewOf(list), 0)
    modifies list
    ensures list.Valid() && ViewOf(list) == Seen(op, old(ViewOf(list)), list.fullscreen)
    ensures list.Contents() == Joined(old(list.Contents()), Drawing(op, old(list.header)))
  {
    JoinedNothing(list.Contents());
    match op {
      case PushClip(r, intersect) => list.PushClipRect(r, intersect);
      case PopClip => list.PopClipRect();
      case PushTexture(t) => list.PushTexture(t);
      case PopTexture => list.PopTexture();
      case Callback(f) => list.AddCallback(f);
      case Prim(indices, spare) => list.Prim(indices, spare);
    }
  }

  method Perform(list: DrawList, splitter: Splitter, op: Op)
    requires list.Valid() && splitter.Valid() && splitter.count > 0
    requires Possible(op, ViewOf(list), splitter.count)
    modifies list, splitter
    ensures list.Valid() && splitter.Valid() && splitter.count == old(splitter.count)
    ensures ViewOf(list) == Seen(op, old(ViewOf(list)), list.fullscreen)
    ensures splitter.current == Now(op, old(splitter.current))
    ensures var before := old(splitter.Drawn(list)); var c := old(splitter.current);
            c < |before| == splitter.count && splitter.Drawn(list) == before[c := Joined(before[c], Drawing(op, old(list.header)))]
  {
    if op.Switch? {
      JoinedNothing(splitter.Drawn(list)[splitter.current]);
      splitter.SetCurrentChannel(list, op.channel);
    } else {
      PerformOnList(list, op);
    }
  }

  lemma JoinedNothing(a: Log)
    ensures Joined(a, Log([], [])) == a == Joined(Log([], []), a)
  {
  }

  lemma JoinedRegroups(a: Log, b: Log, c: Log)
    ensures Joined(Joined(a, b), c) == Joined(a, Joined(b, c))
  {
    Regrouped(a.marks, b.marks, c.marks);
  }

  // What the channels will hold, given what they hold now and the rest of the drawing.
  function Outlook(logs: seq<Log>, ops: seq<Op>, current: nat, v: View, screen: Rect): (r: seq<Log>)
    ensures |r| == |logs|
  {
    seq(|logs|, ch requires 0 <= ch < |logs| => Joined(logs[ch], DrawnTo(ch, ops, current, v, screen)))
  }

  lemma OutlookKept(logs: seq<Log>, ops: seq<Op>, current: nat, v: View, screen: Rect)
    requires ops != [] && current < |logs|
    ensures Outlook(logs[current := Joined(logs[current], Drawing(ops[0], v.header))], ops[1..],
                    Now(ops[0], current), Seen(ops[0], v, screen), screen)
            == Outlook(logs, ops, current, v, screen)
  {
    JoinedRegroups(logs[current], Drawing(ops[0], v.header),
                   DrawnTo(current, ops[1..], Now(ops[0], current), Seen(ops[0], v, screen), screen));
  }

  lemma OutlookAtEnd(logs: seq<Log>, current: nat, v: View, screen: Rect)
    ensures Outlook(logs, [], current, v, screen) == logs
  {
    forall ch | 0 <= ch < |logs| ensures Joined(logs[ch], DrawnTo(ch, [], current, v, screen)) == logs[ch] {
      JoinedNothing(logs[ch]);
    }
  }

  lemma {:induction false} ConcatFirst(a: Log, logs: seq<Log>)
    requires logs != []
    ensures Concat(logs[0 := Joined(a, logs[0])]) == Joined(a, Concat(logs))
    decreases |logs|
  {
    var init, l := logs[..|logs| - 1], logs[|logs| - 1];
    if init == [] {
      JoinedNothing(l);
      JoinedNothing(Joined(a, l));
    } else {
      assert logs[0 := Joined(a, logs[0])][..|logs| - 1] == init[0 := Joined(a, init[0])];
      ConcatFirst(a, init);
      JoinedRegroups(a, Concat(init), l);
    }
  }

  method Play(list: DrawList, splitter: Splitter, ops: seq<Op>)
    requires list.Valid() && splitter.Valid() && splitter.count > 0
    requires AllPossible(ops, ViewOf(list), list.fullscreen, splitter.count)
    modifies list, splitter
    ensures list.Valid() && splitter.Valid() && splitter.count == old(splitter.count)
    ensures splitter.Drawn(list)
            == Outlook(old(splitter.Drawn(list)), ops, old(splitter.current), old(ViewOf(list)), list.fullscreen)
  {
    ghost var will := Outlook(splitter.Drawn(list), ops, splitter.current, ViewOf(list), list.fullscreen);
    assert ops[0..] == ops;
    for i := 0 to |ops|
      invariant list.Valid() && splitter.Valid() && splitter.count == old(splitter.count)
      invariant AllPossible(ops[i..], ViewOf(list), list.fullscreen, splitter.count)
      invariant Outlook(splitter.Drawn(list), ops[i..], splitter.current, ViewOf(list), list.fullscreen) == will
    {
      assert ops[i..][0] == ops[i] && ops[i..][1..] == ops[i + 1..];
      OutlookKept(splitter.Drawn(list), ops[i..], splitter.current, ViewOf(list), list.fullscreen);
      Perform(list, splitter, ops[i]);
    }
    OutlookAtEnd(splitter.Drawn(list), splitter.current, ViewOf(list), list.fullscreen);
  }

  // Splitting, drawing in any order of channels and merging leaves what drawing channel by channel would.
  method DrawInChannels(list: DrawList, splitter: Splitter, n: nat, ops: seq<Op>)
    requires list.Valid() && splitter.Valid() && splitter.current == 0 && splitter.count <= 1 && n > 0
    requires AllPossible(ops, ViewOf(list), list.fullscreen, n)
    modifies list, splitter
    ensures list.Valid() && splitter.Valid()
    ensures list.Contents() == Joined(old(list.Contents()),
              Concat(seq(n, ch requires 0 <= ch < n => DrawnTo(ch, ops, 0, old(ViewOf(list)), list.fullscreen))))
  {
    splitter.Split(list, n);
    ghost var view, screen, start := ViewOf(list), list.fullscreen, splitter.Drawn(list);
    ghost var parts := seq(n, ch requires 0 <= ch < n => DrawnTo(ch, ops, 0, view, screen));
    forall ch | 0 < ch < n ensures Joined(start[ch], parts[ch]) == parts[ch] {
      JoinedNothing(parts[ch]);
    }
    assert Outlook(start, ops, 0, view, screen) == parts[0 := Joined(start[0], parts[0])];
    ConcatFirst(start[0], parts);
    Play(list, splitter, ops);
    splitter.Merge(list);
  }
}
