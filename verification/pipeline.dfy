// Processors in a row: each one reads blocks from a stream, turns every block into at most one other, and
// writes that to the next stream. Processors are stopped and started again at any time.
module Pipeline {
  import opened Options
  import opened StreamProtocol

  // ---- maps of single blocks

  type Map<!B> = B -> Option<B>

  // One block through several processors.
  function Through<B>(fs: seq<Map<B>>, b: B): Option<B> {
    if fs == [] then Some(b)
    else match Through(fs[..|fs| - 1], b)
         case None => None
         case Some(c) => fs[|fs| - 1](c)
  }

  function Result<B>(fs: seq<Map<B>>, b: B, kept: bool): seq<B> {
    if !kept then [] else match Through(fs, b) case None => [] case Some(c) => [c]
  }

  // Several blocks through several processors, less those that got lost on the way.
  function Passed<B>(fs: seq<Map<B>>, blocks: seq<B>, kept: seq<bool>): seq<B>
    requires |blocks| == |kept|
  {
    if blocks == [] then [] else Result(fs, blocks[0], kept[0]) + Passed(fs, blocks[1..], kept[1..])
  }

  function Lost(kept: seq<bool>): nat {
    if kept == [] then 0 else (if kept[0] then 0 else 1) + Lost(kept[1..])
  }

  lemma {:induction false} LostAppended(a: seq<bool>, b: seq<bool>)
    ensures Lost(a + b) == Lost(a) + Lost(b)
    decreases |a|
  {
    if a == [] {
      assert a + b == b;
    } else {
      assert (a + b)[1..] == a[1..] + b;
      LostAppended(a[1..], b);
    }
  }

  lemma {:induction false} PassedAppended<B>(fs: seq<Map<B>>, x: seq<B>, y: seq<B>, a: seq<bool>, b: seq<bool>)
    requires |x| == |a| && |y| == |b|
    ensures Passed(fs, x + y, a + b) == Passed(fs, x, a) + Passed(fs, y, b)
    decreases |x|
  {
    if x == [] {
      assert x + y == y && a + b == b;
    } else {
      assert (x + y)[1..] == x[1..] + y && (a + b)[1..] == a[1..] + b;
      PassedAppended(fs, x[1..], y, a[1..], b);
    }
  }

  // What became of blocks behind one more processor, seen from in front of the first one: which of them got
  // as far as it did, and which were lost before or in it.
  function Pulled<B>(fs: seq<Map<B>>, blocks: seq<B>, kept: seq<bool>, later: seq<bool>): seq<bool>
    requires |blocks| == |kept|
  {
    if blocks == [] then []
    else if !kept[0] || Through(fs, blocks[0]).None? then [kept[0]] + Pulled(fs, blocks[1..], kept[1..], later)
    else if later == [] then []
    else [later[0]] + Pulled(fs, blocks[1..], kept[1..], later[1..])
  }

  lemma {:induction false} PulledFits<B>(fs: seq<Map<B>>, blocks: seq<B>, kept: seq<bool>, later: seq<bool>)
    requires |blocks| == |kept| && |later| <= |Passed(fs, blocks, kept)|
    ensures var all := Pulled(fs, blocks, kept, later); |all| <= |blocks| && Lost(all) <= Lost(kept) + Lost(later)
  {
    if blocks != [] {
      if !kept[0] || Through(fs, blocks[0]).None? {
        PulledFits(fs, blocks[1..], kept[1..], later);
      } else if later != [] {
        PulledFits(fs, blocks[1..], kept[1..], later[1..]);
      }
    }
  }

  lemma FirstPassed<B>(fs: seq<Map<B>>, blocks: seq<B>, kept: seq<bool>)
    requires 0 < |kept| <= |blocks|
    ensures Passed(fs, blocks[..|kept|], kept)
            == Result(fs, blocks[0], kept[0]) + Passed(fs, blocks[1..][..|kept| - 1], kept[1..])
  {
    assert blocks[..|kept|][1..] == blocks[1..][..|kept| - 1];
  }

  lemma Extended<B>(fs: seq<Map<B>>, f: Map<B>, b: B)
    ensures Through(fs + [f], b) == match Through(fs, b) { case None => None case Some(c) => f(c) }
  {
    assert (fs + [f])[..|fs|] == fs;
  }

  lemma OneMore<B>(fs: seq<Map<B>>, f: Map<B>, b: B, kept: bool)
    ensures match Through(fs, b)
            case None => Result(fs + [f], b, kept) == []
            case Some(c) => Result(fs + [f], b, kept) == Result([f], c, kept)
  {
    Extended(fs, f, b);
    if Through(fs, b).Some? {
      Extended([], f, Through(fs, b).value);
      assert [] + [f] == [f];
    }
  }

  // The first block is lost in the first stages, or turns into nothing there.
  lemma FirstStops<B>(fs: seq<Map<B>>, f: Map<B>, blocks: seq<B>, kept: seq<bool>, all: seq<bool>, out: seq<B>)
    requires blocks != [] && |blocks| == |kept| && 0 < |all| <= |blocks| && all[0] == kept[0]
    requires !kept[0] || Through(fs, blocks[0]).None?
    requires Passed(fs + [f], blocks[1..][..|all| - 1], all[1..]) == out
    ensures Passed(fs, blocks, kept) == Passed(fs, blocks[1..], kept[1..])
    ensures Passed(fs + [f], blocks[..|all|], all) == out
  {
    OneMore(fs, f, blocks[0], all[0]);
    FirstPassed(fs + [f], blocks, all);
  }

  // It reaches the last stage, which passes it on or not.
  lemma FirstPasses<B>(fs: seq<Map<B>>, f: Map<B>, blocks: seq<B>, kept: seq<bool>, later: seq<bool>, all: seq<bool>)
    requires blocks != [] && |blocks| == |kept| && kept[0] && Through(fs, blocks[0]).Some?
    requires 0 < |later| <= |Passed(fs, blocks, kept)| && 0 < |all| <= |blocks| && all[0] == later[0]
    requires var out := Passed(fs, blocks[1..], kept[1..]);
             && |later| - 1 <= |out|
             && Passed(fs + [f], blocks[1..][..|all| - 1], all[1..]) == Passed([f], out[..|later| - 1], later[1..])
    ensures Passed(fs + [f], blocks[..|all|], all) == Passed([f], Passed(fs, blocks, kept)[..|later|], later)
  {
    OneMore(fs, f, blocks[0], all[0]);
    FirstPassed(fs + [f], blocks, all);
    FirstPassed([f], Passed(fs, blocks, kept), later);
    assert Passed(fs, blocks, kept)[1..] == Passed(fs, blocks[1..], kept[1..]);
  }

  lemma {:induction false} PassedThroughOneMore<B>(fs: seq<Map<B>>, f: Map<B>, blocks: seq<B>, kept: seq<bool>, later: seq<bool>)
    requires |blocks| == |kept| && |later| <= |Passed(fs, blocks, kept)| && |Pulled(fs, blocks, kept, later)| <= |blocks|
    ensures var all := Pulled(fs, blocks, kept, later);
            Passed(fs + [f], blocks[..|all|], all) == Passed([f], Passed(fs, blocks, kept)[..|later|], later)
  {
    var all := Pulled(fs, blocks, kept, later);
    if blocks != [] {
      var rest, out := blocks[1..], Passed(fs, blocks[1..], kept[1..]);
      if !kept[0] || Through(fs, blocks[0]).None? {
        assert all == [kept[0]] + Pulled(fs, rest, kept[1..], later) && all[1..] == Pulled(fs, rest, kept[1..], later);
        PassedThroughOneMore(fs, f, rest, kept[1..], later);
        FirstStops(fs, f, blocks, kept, all, Passed([f], out[..|later|], later));
      } else if later != [] {
        assert all == [later[0]] + Pulled(fs, rest, kept[1..], later[1..]) && all[1..] == Pulled(fs, rest, kept[1..], later[1..]);
        PassedThroughOneMore(fs, f, rest, kept[1..], later[1..]);
        FirstPasses(fs, f, blocks, kept, later, all);
      }
    }
  }

  // ---- what processors do to blocks

  // A processor may remember every block it has read: what the last one turns into depends on all of them.
  type Process<!B> = seq<B> -> Option<B>

  function Outcome<B>(f: Process<B>, blocks: seq<B>, kept: bool): seq<B> {
    if !kept then [] else match f(blocks) case None => [] case Some(c) => [c]
  }

  // What a processor sends for the first blocks it reads, less those that get lost on the way out.
  function Results<B>(f: Process<B>, blocks: seq<B>, kept: seq<bool>): seq<B>
    requires |kept| <= |blocks|
  {
    if kept == [] then []
    else
      var n := |kept| - 1;
      Results(f, blocks, kept[..n]) + Outcome(f, blocks[..n + 1], kept[n])
  }

  lemma {:induction false} ResultsOfPrefix<B>(f: Process<B>, blocks: seq<B>, more: seq<B>, kept: seq<bool>)
    requires |kept| <= |blocks| && blocks <= more
    ensures Results(f, blocks, kept) == Results(f, more, kept)
    decreases |kept|
  {
    if kept != [] {
      ResultsOfPrefix(f, blocks, more, kept[..|kept| - 1]);
      assert blocks[..|kept|] == more[..|kept|];
    }
  }

  // A processor that remembers nothing.
  function OfBlock<B>(g: Map<B>): Process<B> { (h: seq<B>) => if h == [] then None else g(h[|h| - 1]) }

  lemma FrontAndLast<T>(s: seq<T>)
    requires s != []
    ensures s == s[..|s| - 1] + [s[|s| - 1]]
  {
  }

  lemma PrefixOfPrefix<T>(s: seq<T>, m: nat, k: nat)
    requires k <= m <= |s|
    ensures s[..m][..k] == s[..k]
  {
  }

  lemma {:induction false} ResultsOfMap<B>(g: Map<B>, blocks: seq<B>, kept: seq<bool>)
    requires |kept| <= |blocks|
    ensures Results(OfBlock(g), blocks, kept) == Passed([g], blocks[..|kept|], kept)
    decreases |kept|
  {
    if kept != [] {
      var n := |kept| - 1;
      ResultsOfMap(g, blocks, kept[..n]);
      FrontAndLast(kept);
      FrontAndLast(blocks[..n + 1]);
      PrefixOfPrefix(blocks, n + 1, n);
      PassedAppended([g], blocks[..n], [blocks[n]], kept[..n], [kept[n]]);
      OnePassed(g, blocks[n], kept[n]);
    }
  }

  lemma OnePassed<B>(g: Map<B>, b: B, kept: bool)
    ensures Passed([g], [b], [kept]) == if !kept then [] else match g(b) { case None => [] case Some(c) => [c] }
  {
    assert [g][..0] == [];
    assert Through([g], b) == g(b);
    assert Passed([g], [b], [kept]) == Result([g], b, kept) + Passed([g], [b][1..], [kept][1..]);
  }

  // ---- the processors' workers and the threads that stop and start them

  // `Writing`: waiting to swap the result in; `Telling`: between the two sections of the swap.
  datatype Place = Off | Reading | Using | Releasing | Writing | Telling

  // Stopping raises both stop flags, waits for the worker and clears the flags again.
  datatype Control = Going | ReaderStopped | BothStopped | ReaderCleared | Halted

  // `kept` says of each block whose fate is settled whether its result was passed on; `stops` counts.
  datatype Worker = Worker(place: Place, control: Control, kept: seq<bool>, stops: nat)

  datatype Pipe<!B> = Pipe(streams: seq<Stream<B>>, workers: seq<Worker>, source: Writer, sink: Reader)

  function ReaderAt(w: Worker): Reader {
    match w.place
    case Using => Holding
    case Releasing => Clearing
    case _ => Waiting
  }

  function WriterAt(w: Worker): Writer { if w.place == Telling then Swapped else Filling }

  predicate ReaderStop(w: Worker) { w.control == ReaderStopped || w.control == BothStopped }

  predicate WriterStop(w: Worker) { w.control == BothStopped || w.control == ReaderCleared }

  // One worker between its two streams.
  datatype Stage<B> = Stage(input: Stream<B>, worker: Worker, output: Stream<B>)

  datatype Move =
    | Read | QuitReading | ClearReady | FreeSwap | Write | QuitWriting | Tell
    | StopReading | StopWriting | ClearReadStop | ClearWriteStop | Start

  // What the block read last turns into.
  function LastResult<B>(g: Stage<B>, f: Process<B>): Option<B> {
    f(g.input.taken)
  }

  predicate Can<B>(g: Stage<B>, f: Process<B>, move: Move) {
    var w := g.worker;
    match move
    case Read => w.place == Reading && g.input.dataReady && !ReaderStop(w)
    case QuitReading => w.place == Reading && ReaderStop(w)
    case ClearReady => w.place == Using
    case FreeSwap => w.place == Releasing
    case Write => w.place == Writing && g.output.canSwap && !WriterStop(w) && LastResult(g, f).Some?
    case QuitWriting => w.place == Writing && WriterStop(w)
    case Tell => w.place == Telling
    case StopReading => w.control == Going
    case StopWriting => w.control == ReaderStopped
    case ClearReadStop => w.control == BothStopped && w.place == Off
    case ClearWriteStop => w.control == ReaderCleared
    case Start => w.control == Halted
  }

  // A block that gives no result is done with when the input has been freed.
  function Moved<B>(g: Stage<B>, f: Process<B>, move: Move): Stage<B>
    requires Can(g, f, move)
  {
    var w := g.worker;
    match move
    case Read => Stage(Take(g.input), w.(place := Using), g.output)
    case QuitReading => Stage(g.input, w.(place := Off), g.output)
    case ClearReady => Stage(Clear(g.input), w.(place := Releasing), g.output)
    case FreeSwap =>
      var next := if LastResult(g, f).None? then w.(place := Reading, kept := w.kept + [true]) else w.(place := Writing);
      Stage(Free(g.input), next, g.output)
    case Write =>
      Stage(g.input, w.(place := Telling, kept := w.kept + [true]), Swap(g.output, LastResult(g, f).value))
    case QuitWriting => Stage(g.input, w.(place := Off, kept := w.kept + [false]), g.output)
    case Tell => Stage(g.input, w.(place := Reading), Announce(g.output))
    case StopReading => Stage(g.input, w.(control := ReaderStopped, stops := w.stops + 1), g.output)
    case StopWriting => Stage(g.input, w.(control := BothStopped), g.output)
    case ClearReadStop => Stage(g.input, w.(control := ReaderCleared), g.output)
    case ClearWriteStop => Stage(g.input, w.(control := Halted), g.output)
    case Start => Stage(g.input, w.(control := Going, place := Reading), g.output)
  }

  // ---- what a stage keeps

  // A block read but not settled yet.
  predicate Busy(w: Worker) { w.place == Using || w.place == Releasing || w.place == Writing }

  ghost predicate Settled<B>(taken: seq<B>, w: Worker, sent: seq<B>, f: Process<B>) {
    && |taken| == |w.kept| + (if Busy(w) then 1 else 0)
    && sent == Results(f, taken, w.kept)
    && (w.place == Writing ==> f(taken).Some?)
  }

  // A stop costs at most one block, and only the worker's way out can cost it.
  predicate LossesCovered(w: Worker) {
    && Lost(w.kept) + (if w.control in {ReaderStopped, BothStopped} && w.place != Off then 1 else 0) <= w.stops
    && (w.place == Off ==> w.control != Going)
    && (w.control in {ReaderCleared, Halted} ==> w.place == Off)
  }

  ghost predicate StageInv<B>(g: Stage<B>, f: Process<B>) {
    Settled(g.input.taken, g.worker, g.output.sent, f) && LossesCovered(g.worker)
  }

  lemma LostOne(kept: seq<bool>, last: bool)
    ensures Lost(kept + [last]) == Lost(kept) + if last then 0 else 1
  {
    LostAppended(kept, [last]);
  }

  lemma LossesKept<B>(g: Stage<B>, f: Process<B>, move: Move)
    requires Can(g, f, move) && LossesCovered(g.worker)
    ensures LossesCovered(Moved(g, f, move).worker)
  {
    LostOne(g.worker.kept, true);
    LostOne(g.worker.kept, false);
  }

  // The last block's fate settled.
  lemma OneSettled<B>(taken: seq<B>, kept: seq<bool>, f: Process<B>, last: bool)
    requires |taken| == |kept| + 1
    ensures Results(f, taken, kept + [last]) == Results(f, taken, kept) + Outcome(f, taken, last)
  {
    assert (kept + [last])[..|kept|] == kept && taken[..|kept| + 1] == taken;
  }

  lemma OutcomeKept<B>(g: Stage<B>, f: Process<B>, move: Move)
    requires Can(g, f, move) && Settled(g.input.taken, g.worker, g.output.sent, f)
    requires move.FreeSwap? || move.Write? || move.QuitWriting?
    ensures var h := Moved(g, f, move); Settled(h.input.taken, h.worker, h.output.sent, f)
  {
    match move
    case FreeSwap => FreedKept(g, f);
    case Write => WrittenKept(g, f);
    case _ => LostKept(g, f);
  }

  lemma FreedKept<B>(g: Stage<B>, f: Process<B>)
    requires Can(g, f, FreeSwap) && Settled(g.input.taken, g.worker, g.output.sent, f)
    ensures var h := Moved(g, f, FreeSwap); Settled(h.input.taken, h.worker, h.output.sent, f)
  {
    OneSettled(g.input.taken, g.worker.kept, f, true);
  }

  lemma WrittenKept<B>(g: Stage<B>, f: Process<B>)
    requires Can(g, f, Write) && Settled(g.input.taken, g.worker, g.output.sent, f)
    ensures var h := Moved(g, f, Write); Settled(h.input.taken, h.worker, h.output.sent, f)
  {
    OneSettled(g.input.taken, g.worker.kept, f, true);
  }

  lemma LostKept<B>(g: Stage<B>, f: Process<B>)
    requires Can(g, f, QuitWriting) && Settled(g.input.taken, g.worker, g.output.sent, f)
    ensures var h := Moved(g, f, QuitWriting); Settled(h.input.taken, h.worker, h.output.sent, f)
  {
    OneSettled(g.input.taken, g.worker.kept, f, false);
  }

  lemma SettledKept<B>(g: Stage<B>, f: Process<B>, move: Move)
    requires Can(g, f, move) && Settled(g.input.taken, g.worker, g.output.sent, f)
    requires move.Start? ==> g.worker.place == Off
    ensures var h := Moved(g, f, move); Settled(h.input.taken, h.worker, h.output.sent, f)
  {
    var taken, kept := g.input.taken, g.worker.kept;
    if move.FreeSwap? || move.Write? || move.QuitWriting? {
      OutcomeKept(g, f, move);
      return;
    }
    match move {
      case Read => ResultsOfPrefix(f, taken, taken + [g.input.front], kept);
      case _ =>
    }
  }

  // A stage only ever takes from its input and only ever sends to its output, and it keeps both protocols.
  lemma StreamsKept<B>(g: Stage<B>, f: Process<B>, move: Move, w: Writer, r: Reader)
    requires Can(g, f, move) && LossesCovered(g.worker)
    requires Inv(g.input, w, ReaderAt(g.worker)) && Inv(g.output, WriterAt(g.worker), r)
    ensures var h := Moved(g, f, move);
            && Inv(h.input, w, ReaderAt(h.worker)) && Inv(h.output, WriterAt(h.worker), r)
            && h.input.sent == g.input.sent && h.output.taken == g.output.taken
  {
  }

  lemma StageKept<B>(g: Stage<B>, f: Process<B>, move: Move)
    requires Can(g, f, move) && StageInv(g, f)
    ensures StageInv(Moved(g, f, move), f)
  {
    LossesKept(g, f, move);
    SettledKept(g, f, move);
  }

  // Once both flags are up, the worker can always take a step of its own, and each brings it nearer to its end.
  function Distance(w: Worker): nat {
    match w.place
    case Off => 0
    case Reading => 1
    case Telling => 2
    case Writing => 2
    case Releasing => 3
    case Using => 4
  }

  predicate ByController(move: Move) {
    move in {StopReading, StopWriting, ClearReadStop, ClearWriteStop, Start}
  }

  lemma StoppedWorkersEnd<B>(g: Stage<B>, f: Process<B>)
    requires g.worker.control == BothStopped
    ensures g.worker.place == Off || exists move :: Can(g, f, move) && !ByController(move)
    ensures forall move :: Can(g, f, move) && !ByController(move) ==> Distance(Moved(g, f, move).worker) < Distance(g.worker)
  {
    assert g.worker.place == Reading ==> Can(g, f, QuitReading);
    assert g.worker.place == Using ==> Can(g, f, ClearReady);
    assert g.worker.place == Releasing ==> Can(g, f, FreeSwap);
    assert g.worker.place == Writing ==> Can(g, f, QuitWriting);
    assert g.worker.place == Telling ==> Can(g, f, Tell);
  }

  // What a stop and a start do to the flags the worker sees; only the join waits for it.
  lemma ControllerMoves<B>(g: Stage<B>, f: Process<B>, move: Move)
    requires Can(g, f, move) && ByController(move)
    ensures var w, h := g.worker, Moved(g, f, move);
            var v := h.worker;
            && h.input == g.input && h.output == g.output && v.kept == w.kept
            && (!move.Start? ==> v.place == w.place) && v.stops == w.stops + (if move.StopReading? then 1 else 0)
            && match move
               case StopReading => !ReaderStop(w) && ReaderStop(v) && !WriterStop(v)
               case StopWriting => ReaderStop(v) && WriterStop(v)
               case ClearReadStop => w.place == Off && !ReaderStop(v) && WriterStop(v)
               case ClearWriteStop => !ReaderStop(v) && !WriterStop(v) && v.control == Halted
               case Start => v.place == Reading && v.control == Going
               case _ => false
  {
  }

  predicate CanAll<B>(g: Stage<B>, f: Process<B>, moves: seq<Move>)
    decreases |moves|
  {
    moves == [] || (Can(g, f, moves[0]) && CanAll(Moved(g, f, moves[0]), f, moves[1..]))
  }

  function MovedAll<B>(g: Stage<B>, f: Process<B>, moves: seq<Move>): Stage<B>
    requires CanAll(g, f, moves)
    decreases |moves|
  {
    if moves == [] then g else MovedAll(Moved(g, f, moves[0]), f, moves[1..])
  }

  lemma Prefixed<B>(g: Stage<B>, f: Process<B>, move: Move, moves: seq<Move>)
    requires Can(g, f, move) && CanAll(Moved(g, f, move), f, moves)
    ensures CanAll(g, f, [move] + moves) && MovedAll(g, f, [move] + moves) == MovedAll(Moved(g, f, move), f, moves)
  {
    assert ([move] + moves)[1..] == moves;
  }

  function OwnMove(w: Worker): Move
    requires w.place != Off
  {
    match w.place
    case Reading => QuitReading
    case Using => ClearReady
    case Releasing => FreeSwap
    case Writing => QuitWriting
    case _ => Tell
  }

  // Wherever the worker is when it is stopped, it ends, the flags are cleared, and it can be started again.
  lemma {:induction false} StopCompletes<B>(g: Stage<B>, f: Process<B>) returns (moves: seq<Move>)
    requires g.worker.control == BothStopped
    ensures CanAll(g, f, moves)
    ensures var h := MovedAll(g, f, moves); h.worker.control == Halted && h.worker.place == Off && h.worker.stops == g.worker.stops
    decreases Distance(g.worker)
  {
    if g.worker.place == Off {
      var cleared := Moved(g, f, ClearReadStop);
      assert CanAll(Moved(cleared, f, ClearWriteStop), f, []);
      Prefixed(cleared, f, ClearWriteStop, []);
      Prefixed(g, f, ClearReadStop, [ClearWriteStop] + []);
      moves := [ClearReadStop] + ([ClearWriteStop] + []);
    } else {
      var own := OwnMove(g.worker);
      var rest := StopCompletes(Moved(g, f, own), f);
      Prefixed(g, f, own, rest);
      moves := [own] + rest;
    }
  }

  // ---- the whole row

  datatype Step<B> =
    | SourceSwaps(block: B)
    | SourceTells
    | SinkTakes
    | SinkClears
    | SinkFrees
    | At(stage: nat, move: Move)

  ghost predicate Fits<B>(p: Pipe<B>, fs: seq<Process<B>>) {
    |p.workers| == |fs| && |p.streams| == |fs| + 1
  }

  function StageAt<B>(p: Pipe<B>, i: nat): Stage<B>
    requires i < |p.workers| && i + 1 < |p.streams|
  {
    Stage(p.streams[i], p.workers[i], p.streams[i + 1])
  }

  function WriterOf<B>(p: Pipe<B>, i: nat): Writer
    requires i <= |p.workers|
  {
    if i == 0 then p.source else WriterAt(p.workers[i - 1])
  }

  function ReaderOf<B>(p: Pipe<B>, i: nat): Reader
    requires i <= |p.workers|
  {
    if i == |p.workers| then p.sink else ReaderAt(p.workers[i])
  }

  ghost predicate Enabled<B>(p: Pipe<B>, fs: seq<Process<B>>, step: Step<B>)
    requires Fits(p, fs)
  {
    var n := |fs|;
    match step
    case SourceSwaps(_) => p.source == Filling && p.streams[0].canSwap
    case SourceTells => p.source == Swapped
    case SinkTakes => p.sink == Waiting && p.streams[n].dataReady
    case SinkClears => p.sink == Holding
    case SinkFrees => p.sink == Clearing
    case At(i, move) => i < n && Can(StageAt(p, i), fs[i], move)
  }

  ghost function Do<B>(p: Pipe<B>, fs: seq<Process<B>>, step: Step<B>): Pipe<B>
    requires Fits(p, fs) && Enabled(p, fs, step)
    ensures Fits(Do(p, fs, step), fs)
  {
    var n, s := |fs|, p.streams;
    match step
    case SourceSwaps(b) => p.(streams := s[0 := Swap(s[0], b)], source := Swapped)
    case SourceTells => p.(streams := s[0 := Announce(s[0])], source := Filling)
    case SinkTakes => p.(streams := s[n := Take(s[n])], sink := Holding)
    case SinkClears => p.(streams := s[n := Clear(s[n])], sink := Clearing)
    case SinkFrees => p.(streams := s[n := Free(s[n])], sink := Waiting)
    case At(i, move) =>
      var h := Moved(StageAt(p, i), fs[i], move);
      p.(streams := s[i := h.input][i + 1 := h.output], workers := p.workers[i := h.worker])
  }

  // The source waits only for its stream to be free, and the sink only for a block.
  lemma EndsGoOn<B>(p: Pipe<B>, fs: seq<Process<B>>, b: B)
    requires Fits(p, fs)
    ensures p.source == Filling ==> (Enabled(p, fs, SourceSwaps(b)) <==> p.streams[0].canSwap)
    ensures p.source == Swapped ==> Enabled(p, fs, SourceTells)
    ensures p.sink == Waiting ==> (Enabled(p, fs, SinkTakes) <==> p.streams[|fs|].dataReady)
    ensures p.sink == Holding ==> Enabled(p, fs, SinkClears)
    ensures p.sink == Clearing ==> Enabled(p, fs, SinkFrees)
  {
  }

  ghost predicate StagesOk<B>(p: Pipe<B>, fs: seq<Process<B>>)
    requires Fits(p, fs)
  {
    forall i :: 0 <= i < |fs| ==> StageInv(StageAt(p, i), fs[i])
  }

  ghost predicate StreamsOk<B>(p: Pipe<B>, fs: seq<Process<B>>)
    requires Fits(p, fs)
  {
    forall i :: 0 <= i <= |fs| ==> Inv(p.streams[i], WriterOf(p, i), ReaderOf(p, i))
  }

  ghost predicate PipeInv<B>(p: Pipe<B>, fs: seq<Process<B>>) {
    Fits(p, fs) && StagesOk(p, fs) && StreamsOk(p, fs)
  }

  lemma StageKeepsStreams<B>(p: Pipe<B>, fs: seq<Process<B>>, i: nat, move: Move, j: nat)
    requires Fits(p, fs) && i < |fs| && j <= |fs| && Can(StageAt(p, i), fs[i], move) && LossesCovered(p.workers[i])
    requires Inv(p.streams[i], WriterOf(p, i), ReaderOf(p, i))
    requires Inv(p.streams[i + 1], WriterOf(p, i + 1), ReaderOf(p, i + 1))
    requires Inv(p.streams[j], WriterOf(p, j), ReaderOf(p, j))
    ensures var q := Do(p, fs, At(i, move)); Inv(q.streams[j], WriterOf(q, j), ReaderOf(q, j))
  {
    StreamsKept(StageAt(p, i), fs[i], move, WriterOf(p, i), ReaderOf(p, i + 1));
    if j == i || j == i + 1 { OwnStreamsMoved(p, fs, i, move); } else { OtherStreamsSame(p, fs, i, move, j); }
  }

  lemma OwnStreamsMoved<B>(p: Pipe<B>, fs: seq<Process<B>>, i: nat, move: Move)
    requires Fits(p, fs) && i < |fs| && Can(StageAt(p, i), fs[i], move)
    ensures var q, h := Do(p, fs, At(i, move)), Moved(StageAt(p, i), fs[i], move);
            && q.streams[i] == h.input && WriterOf(q, i) == WriterOf(p, i) && ReaderOf(q, i) == ReaderAt(h.worker)
            && q.streams[i + 1] == h.output && WriterOf(q, i + 1) == WriterAt(h.worker) && ReaderOf(q, i + 1) == ReaderOf(p, i + 1)
  {
  }

  lemma OtherStreamsSame<B>(p: Pipe<B>, fs: seq<Process<B>>, i: nat, move: Move, j: nat)
    requires Fits(p, fs) && i < |fs| && j <= |fs| && Can(StageAt(p, i), fs[i], move) && j != i && j != i + 1
    ensures var q := Do(p, fs, At(i, move));
            q.streams[j] == p.streams[j] && WriterOf(q, j) == WriterOf(p, j) && ReaderOf(q, j) == ReaderOf(p, j)
  {
  }

  lemma EndsKeepStreams<B>(p: Pipe<B>, fs: seq<Process<B>>, step: Step<B>, j: nat)
    requires Fits(p, fs) && j <= |fs| && Enabled(p, fs, step) && !step.At?
    requires Inv(p.streams[j], WriterOf(p, j), ReaderOf(p, j))
    ensures var q := Do(p, fs, step); Inv(q.streams[j], WriterOf(q, j), ReaderOf(q, j))
  {
  }

  lemma StreamsOkKept<B>(p: Pipe<B>, fs: seq<Process<B>>, step: Step<B>)
    requires PipeInv(p, fs) && Enabled(p, fs, step)
    ensures StreamsOk(Do(p, fs, step), fs)
  {
    forall j | 0 <= j <= |fs|
      ensures var q := Do(p, fs, step); Inv(q.streams[j], WriterOf(q, j), ReaderOf(q, j))
    {
      match step {
        case At(i, move) =>
          assert StageInv(StageAt(p, i), fs[i]);
          StageKeepsStreams(p, fs, i, move, j);
        case _ => EndsKeepStreams(p, fs, step, j);
      }
    }
  }

  lemma SharedHistoryKept<B>(g: Stage<B>, f: Process<B>, move: Move)
    requires Can(g, f, move)
    ensures Moved(g, f, move).input.sent == g.input.sent && Moved(g, f, move).output.taken == g.output.taken
  {
  }

  lemma OtherStagesSame<B>(p: Pipe<B>, fs: seq<Process<B>>, i: nat, move: Move, j: nat)
    requires Fits(p, fs) && i < |fs| && j < |fs| && Can(StageAt(p, i), fs[i], move) && i != j
    ensures var g, h := StageAt(p, j), StageAt(Do(p, fs, At(i, move)), j);
            h.input.taken == g.input.taken && h.worker == g.worker && h.output.sent == g.output.sent
  {
    SharedHistoryKept(StageAt(p, i), fs[i], move);
    if j == i + 1 {
      OwnStreamsMoved(p, fs, i, move);
      OtherStreamsSame(p, fs, i, move, j + 1);
    } else if j + 1 == i {
      OwnStreamsMoved(p, fs, i, move);
      OtherStreamsSame(p, fs, i, move, j);
    } else {
      OtherStreamsSame(p, fs, i, move, j);
      OtherStreamsSame(p, fs, i, move, j + 1);
    }
  }

  lemma OwnStageMoved<B>(p: Pipe<B>, fs: seq<Process<B>>, i: nat, move: Move)
    requires Fits(p, fs) && i < |fs| && Can(StageAt(p, i), fs[i], move)
    ensures StageAt(Do(p, fs, At(i, move)), i) == Moved(StageAt(p, i), fs[i], move)
  {
  }

  lemma StageKeepsStages<B>(p: Pipe<B>, fs: seq<Process<B>>, i: nat, move: Move, j: nat)
    requires Fits(p, fs) && i < |fs| && j < |fs| && Can(StageAt(p, i), fs[i], move)
    requires StageInv(StageAt(p, i), fs[i]) && StageInv(StageAt(p, j), fs[j])
    ensures StageInv(StageAt(Do(p, fs, At(i, move)), j), fs[j])
  {
    if i == j {
      StageKept(StageAt(p, i), fs[i], move);
      OwnStageMoved(p, fs, i, move);
    } else {
      OtherStagesSame(p, fs, i, move, j);
    }
  }

  lemma EndsKeepStages<B>(p: Pipe<B>, fs: seq<Process<B>>, step: Step<B>, j: nat)
    requires Fits(p, fs) && j < |fs| && Enabled(p, fs, step) && !step.At? && StageInv(StageAt(p, j), fs[j])
    ensures StageInv(StageAt(Do(p, fs, step), j), fs[j])
  {
  }

  lemma StagesOkKept<B>(p: Pipe<B>, fs: seq<Process<B>>, step: Step<B>)
    requires PipeInv(p, fs) && Enabled(p, fs, step)
    ensures StagesOk(Do(p, fs, step), fs)
  {
    forall j | 0 <= j < |fs| ensures StageInv(StageAt(Do(p, fs, step), j), fs[j]) {
      match step {
        case At(i, move) => StageKeepsStages(p, fs, i, move, j);
        case _ => EndsKeepStages(p, fs, step, j);
      }
    }
  }

  ghost predicate IsRun<B>(p: Pipe<B>, fs: seq<Process<B>>, steps: seq<Step<B>>)
    requires Fits(p, fs)
    decreases |steps|
  {
    steps == [] || (Enabled(p, fs, steps[0]) && IsRun(Do(p, fs, steps[0]), fs, steps[1..]))
  }

  ghost function After<B>(p: Pipe<B>, fs: seq<Process<B>>, steps: seq<Step<B>>): Pipe<B>
    requires Fits(p, fs) && IsRun(p, fs, steps)
    ensures Fits(After(p, fs, steps), fs)
    decreases |steps|
  {
    if steps == [] then p else After(Do(p, fs, steps[0]), fs, steps[1..])
  }

  lemma {:induction false} RunKept<B>(p: Pipe<B>, fs: seq<Process<B>>, steps: seq<Step<B>>)
    requires PipeInv(p, fs) && IsRun(p, fs, steps)
    ensures PipeInv(After(p, fs, steps), fs)
    decreases |steps|
  {
    if steps != [] {
      StagesOkKept(p, fs, steps[0]);
      StreamsOkKept(p, fs, steps[0]);
      RunKept(Do(p, fs, steps[0]), fs, steps[1..]);
    }
  }

  // ---- what comes out

  function Stops(workers: seq<Worker>): nat {
    if workers == [] then 0 else Stops(workers[..|workers| - 1]) + workers[|workers| - 1].stops
  }

  ghost function Fresh<B>(n: nat, first: B): Pipe<B> {
    Pipe(seq(n + 1, _ => Stream(true, false, first, [], [])), seq(n, _ => Worker(Off, Halted, [], 0)), Filling, Waiting)
  }

  // All that counts of a stage here.
  ghost predicate Delivers<B>(g: Stage<B>, f: Process<B>) {
    && g.input.taken <= g.input.sent && Settled(g.input.taken, g.worker, g.output.sent, f)
    && Lost(g.worker.kept) <= g.worker.stops
  }

  ghost predicate AllDeliver<B>(p: Pipe<B>, fs: seq<Process<B>>) {
    Fits(p, fs) && forall i :: 0 <= i < |fs| ==> Delivers(StageAt(p, i), fs[i])
  }

  lemma StagesDeliver<B>(p: Pipe<B>, fs: seq<Process<B>>)
    requires PipeInv(p, fs)
    ensures AllDeliver(p, fs)
  {
    forall i | 0 <= i < |fs| ensures Delivers(StageAt(p, i), fs[i]) {
      assert StageInv(StageAt(p, i), fs[i]) && Inv(p.streams[i], WriterOf(p, i), ReaderOf(p, i));
    }
  }

  // What several processors in a row make of a source, given what becomes of each one's results.
  function Row<B>(fs: seq<Process<B>>, source: seq<B>, kept: seq<seq<bool>>): seq<B>
    requires |kept| == |fs|
  {
    if fs == [] then source
    else
      var n := |fs| - 1;
      var before := Row(fs[..n], source, kept[..n]);
      if |kept[n]| <= |before| then Results(fs[n], before, kept[n]) else []
  }

  function Fates(workers: seq<Worker>): (r: seq<seq<bool>>)
    ensures |r| == |workers|
  {
    seq(|workers|, i requires 0 <= i < |workers| => workers[i].kept)
  }

  function AllLost(kept: seq<seq<bool>>): nat {
    if kept == [] then 0 else AllLost(kept[..|kept| - 1]) + Lost(kept[|kept| - 1])
  }

  lemma FatesOfPrefix(workers: seq<Worker>, n: nat)
    requires n <= |workers|
    ensures Fates(workers)[..n] == Fates(workers[..n])
  {
  }

  // Up to any stream: the blocks sent there are what the processors before it make of the source's blocks.
  lemma {:induction false} SentIsRow<B>(p: Pipe<B>, fs: seq<Process<B>>, i: nat)
    requires AllDeliver(p, fs) && i <= |fs|
    ensures p.streams[i].sent == Row(fs[..i], p.streams[0].sent, Fates(p.workers[..i]))
    ensures AllLost(Fates(p.workers[..i])) <= Stops(p.workers[..i])
  {
    if i > 0 {
      var n := i - 1;
      SentIsRow(p, fs, n);
      var g := StageAt(p, n);
      assert Delivers(g, fs[n]);
      ResultsOfPrefix(fs[n], g.input.taken, g.input.sent, g.worker.kept);
      PrefixOfPrefix(fs, i, n);
      PrefixOfPrefix(p.workers, i, n);
      FatesOfPrefix(p.workers[..i], n);
    }
  }

  lemma FreshDelivers<B>(fs: seq<Process<B>>, first: B, steps: seq<Step<B>>)
    requires IsRun(Fresh(|fs|, first), fs, steps)
    ensures var p := After(Fresh(|fs|, first), fs, steps);
            AllDeliver(p, fs) && Inv(p.streams[|fs|], WriterOf(p, |fs|), ReaderOf(p, |fs|))
  {
    RunKept(Fresh(|fs|, first), fs, steps);
    StagesDeliver(After(Fresh(|fs|, first), fs, steps), fs);
  }

  // In every run from the start, whatever the processors remember, the sink has read what they make of the
  // source's blocks, in order and at most one behind, with at most one block lost for every stop.
  lemma OutputIsRow<B>(fs: seq<Process<B>>, first: B, steps: seq<Step<B>>)
    requires IsRun(Fresh(|fs|, first), fs, steps)
    ensures var p := After(Fresh(|fs|, first), fs, steps);
            var sent, read := Row(fs, p.streams[0].sent, Fates(p.workers)), p.streams[|fs|].taken;
            && read <= sent && |sent| <= |read| + 1 && AllLost(Fates(p.workers)) <= Stops(p.workers)
  {
    var p := After(Fresh(|fs|, first), fs, steps);
    FreshDelivers(fs, first, steps);
    SentIsRow(p, fs, |fs|);
    assert fs[..|fs|] == fs && p.workers[..|fs|] == p.workers;
  }

  // ---- processors that remember nothing

  function OfBlocks<B>(gs: seq<Map<B>>): (fs: seq<Process<B>>)
    ensures |fs| == |gs|
  {
    seq(|gs|, i requires 0 <= i < |gs| => OfBlock(gs[i]))
  }

  lemma {:induction false} AllPassed<B>(blocks: seq<B>, kept: seq<bool>)
    requires |blocks| == |kept| && forall k <- kept :: k
    ensures Passed([], blocks, kept) == blocks && Lost(kept) == 0
  {
    if blocks != [] {
      assert kept[0] in kept;
      assert forall k <- kept[1..] :: k in kept;
      AllPassed(blocks[1..], kept[1..]);
      assert [blocks[0]] + blocks[1..] == blocks;
    }
  }

  // One stage more: from what its input was sent to what its output was sent.
  lemma OneStage<B>(gs: seq<Map<B>>, g: Map<B>, source: seq<B>, before: seq<bool>, sent: seq<B>, later: seq<bool>)
    returns (kept: seq<bool>)
    requires |before| <= |source| && sent == Passed(gs, source[..|before|], before) && |later| <= |sent|
    ensures |kept| <= |source| && Lost(kept) <= Lost(before) + Lost(later)
    ensures Results(OfBlock(g), sent, later) == Passed(gs + [g], source[..|kept|], kept)
  {
    var blocks := source[..|before|];
    kept := Pulled(gs, blocks, before, later);
    PulledFits(gs, blocks, before, later);
    PassedThroughOneMore(gs, g, blocks, before, later);
    ResultsOfMap(g, sent, later);
    PrefixOfPrefix(source, |before|, |kept|);
  }

  lemma OfBlocksFront<B>(gs: seq<Map<B>>)
    requires gs != []
    ensures var n := |gs| - 1;
            && gs[..n] + [gs[n]] == gs && OfBlocks(gs)[..n] == OfBlocks(gs[..n]) && OfBlocks(gs)[n] == OfBlock(gs[n])
  {
    var n := |gs| - 1;
    forall i | 0 <= i < n ensures OfBlocks(gs)[..n][i] == OfBlocks(gs[..n])[i] {
      assert gs[..n][i] == gs[i];
    }
  }

  // Processors that map single blocks make of the source the composed map of some of its blocks.
  lemma {:induction false} RowIsComposedMap<B>(gs: seq<Map<B>>, source: seq<B>, fates: seq<seq<bool>>) returns (kept: seq<bool>)
    requires |fates| == |gs| && RowFits(OfBlocks(gs), source, fates)
    ensures |kept| <= |source| && Lost(kept) <= AllLost(fates)
    ensures Row(OfBlocks(gs), source, fates) == Passed(gs, source[..|kept|], kept)
    decreases |gs|
  {
    if gs == [] {
      kept := seq(|source|, _ => true);
      AllPassed(source, kept);
      assert source[..|kept|] == source;
    } else {
      var n := |gs| - 1;
      OfBlocksFront(gs);
      var before := RowIsComposedMap(gs[..n], source, fates[..n]);
      kept := OneStage(gs[..n], gs[n], source, before, Row(OfBlocks(gs[..n]), source, fates[..n]), fates[n]);
    }
  }

  // No processor settles the fate of more blocks than it was sent.
  ghost predicate RowFits<B>(fs: seq<Process<B>>, source: seq<B>, kept: seq<seq<bool>>)
    requires |kept| == |fs|
  {
    fs == [] ||
      (RowFits(fs[..|fs| - 1], source, kept[..|fs| - 1])
       && |kept[|fs| - 1]| <= |Row(fs[..|fs| - 1], source, kept[..|fs| - 1])|)
  }

  lemma {:induction false} DeliveredRowFits<B>(p: Pipe<B>, fs: seq<Process<B>>, i: nat)
    requires AllDeliver(p, fs) && i <= |fs|
    ensures RowFits(fs[..i], p.streams[0].sent, Fates(p.workers[..i]))
  {
    if i > 0 {
      var n := i - 1;
      DeliveredRowFits(p, fs, n);
      SentIsRow(p, fs, n);
      assert Delivers(StageAt(p, n), fs[n]);
      PrefixOfPrefix(fs, i, n);
      PrefixOfPrefix(p.workers, i, n);
      FatesOfPrefix(p.workers[..i], n);
    }
  }

  lemma FreshRowFits<B>(fs: seq<Process<B>>, first: B, steps: seq<Step<B>>)
    requires IsRun(Fresh(|fs|, first), fs, steps)
    ensures var p := After(Fresh(|fs|, first), fs, steps); RowFits(fs, p.streams[0].sent, Fates(p.workers))
  {
    var p := After(Fresh(|fs|, first), fs, steps);
    FreshDelivers(fs, first, steps);
    DeliveredRowFits(p, fs, |fs|);
    assert fs[..|fs|] == fs && p.workers[..|fs|] == p.workers;
  }

  // For such processors, the sink has read the composed map of a prefix of what the source sent, with at most
  // one block lost for every stop.
  lemma OutputIsComposedMap<B>(gs: seq<Map<B>>, first: B, steps: seq<Step<B>>) returns (kept: seq<bool>)
    requires IsRun(Fresh(|gs|, first), OfBlocks(gs), steps)
    ensures var p := After(Fresh(|gs|, first), OfBlocks(gs), steps);
            var sent, read := p.streams[0].sent, p.streams[|gs|].taken;
            && |kept| <= |sent| && Lost(kept) <= Stops(p.workers)
            && read <= Passed(gs, sent[..|kept|], kept) && |Passed(gs, sent[..|kept|], kept)| <= |read| + 1
  {
    var fs := OfBlocks(gs);
    var p := After(Fresh(|gs|, first), fs, steps);
    OutputIsRow(fs, first, steps);
    FreshRowFits(fs, first, steps);
    kept := RowIsComposedMap(gs, p.streams[0].sent, Fates(p.workers));
  }
}
