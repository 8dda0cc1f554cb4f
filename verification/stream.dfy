// The hand-off of blocks between one writer and one reader over two buffers. Each operation has two
// critical sections under two different locks; a step is one of them.
module StreamProtocol {
  // The writer is filling its buffer (or waiting to swap), or has swapped and not yet told the reader.
  datatype Writer = Filling | Swapped

  // The reader waits, uses the buffer it was given, or has cleared the ready flag and not yet freed the swap.
  datatype Reader = Waiting | Holding | Clearing

  // `front` is what the read buffer holds, `sent` and `taken` what was swapped in and read so far.
  datatype Stream<T> = Stream(canSwap: bool, dataReady: bool, front: T, sent: seq<T>, taken: seq<T>)

  // ---- the critical sections

  function Swap<T>(s: Stream<T>, block: T): Stream<T> {
    s.(canSwap := false, front := block, sent := s.sent + [block])
  }

  function Announce<T>(s: Stream<T>): Stream<T> { s.(dataReady := true) }

  function Take<T>(s: Stream<T>): Stream<T> { s.(taken := s.taken + [s.front]) }

  function Clear<T>(s: Stream<T>): Stream<T> { s.(dataReady := false) }

  function Free<T>(s: Stream<T>): Stream<T> { s.(canSwap := true) }

  // ---- the invariant

  function Token(held: bool): nat { if held then 1 else 0 }

  // The right to move the buffers is in exactly one place.
  predicate OneToken<T>(s: Stream<T>, w: Writer, r: Reader) {
    Token(s.canSwap) + Token(w == Swapped) + Token(s.dataReady) + Token(r == Clearing) == 1
  }

  // A block is under way from the swap to the read.
  predicate UnderWay<T>(s: Stream<T>, w: Writer, r: Reader) { w == Swapped || (s.dataReady && r == Waiting) }

  ghost predicate Inv<T>(s: Stream<T>, w: Writer, r: Reader) {
    && OneToken(s, w, r)
    && (r == Holding ==> s.dataReady && s.taken != [] && s.taken[|s.taken| - 1] == s.front)
    && s.sent == if UnderWay(s, w, r) then s.taken + [s.front] else s.taken
  }

  // ---- every interleaving

  datatype Step<T> =
    | Swapping(block: T)
    | Announcing
    | Taking
    | ClearingReady
    | Freeing

  datatype System<T> = System(stream: Stream<T>, writer: Writer, reader: Reader)

  predicate Enabled<T>(y: System<T>, step: Step<T>) {
    match step
    case Swapping(_) => y.writer == Filling && y.stream.canSwap
    case Announcing => y.writer == Swapped
    case Taking => y.reader == Waiting && y.stream.dataReady
    case ClearingReady => y.reader == Holding
    case Freeing => y.reader == Clearing
  }

  function Do<T>(y: System<T>, step: Step<T>): System<T> {
    match step
    case Swapping(b) => System(Swap(y.stream, b), Swapped, y.reader)
    case Announcing => System(Announce(y.stream), Filling, y.reader)
    case Taking => System(Take(y.stream), y.writer, Holding)
    case ClearingReady => System(Clear(y.stream), y.writer, Clearing)
    case Freeing => System(Free(y.stream), y.writer, Waiting)
  }

  ghost predicate IsRun<T>(y: System<T>, steps: seq<Step<T>>)
    decreases |steps|
  {
    steps == [] || (Enabled(y, steps[0]) && IsRun(Do(y, steps[0]), steps[1..]))
  }

  function After<T>(y: System<T>, steps: seq<Step<T>>): System<T>
    decreases |steps|
  {
    if steps == [] then y else After(Do(y, steps[0]), steps[1..])
  }

  function Blocks<T>(steps: seq<Step<T>>): seq<T>
    decreases |steps|
  {
    if steps == [] then []
    else (if steps[0].Swapping? then [steps[0].block] else []) + Blocks(steps[1..])
  }

  lemma StepKept<T>(y: System<T>, step: Step<T>)
    requires Enabled(y, step) && Inv(y.stream, y.writer, y.reader)
    ensures var z := Do(y, step); Inv(z.stream, z.writer, z.reader)
  {
  }

  lemma {:induction false} RunKept<T>(y: System<T>, steps: seq<Step<T>>)
    requires IsRun(y, steps) && Inv(y.stream, y.writer, y.reader)
    ensures var z := After(y, steps); Inv(z.stream, z.writer, z.reader)
    decreases |steps|
  {
    if steps != [] {
      StepKept(y, steps[0]);
      RunKept(Do(y, steps[0]), steps[1..]);
    }
  }

  lemma {:induction false} RunSends<T>(y: System<T>, steps: seq<Step<T>>)
    ensures After(y, steps).stream.sent == y.stream.sent + Blocks(steps)
    decreases |steps|
  {
    if steps != [] {
      var now := if steps[0].Swapping? then [steps[0].block] else [];
      RunSends(Do(y, steps[0]), steps[1..]);
      assert Do(y, steps[0]).stream.sent == y.stream.sent + now;
      assert y.stream.sent + now + Blocks(steps[1..]) == y.stream.sent + (now + Blocks(steps[1..]));
    }
  }

  // From a fresh stream, every interleaving reads a prefix of the blocks written, each once and in order,
  // at most one behind; and while the reader uses a block the writer cannot swap it away.
  lemma BlocksAreReadInOrder<T>(first: T, steps: seq<Step<T>>)
    requires IsRun(System(Stream(true, false, first, [], []), Filling, Waiting), steps)
    ensures var z := After(System(Stream(true, false, first, [], []), Filling, Waiting), steps);
            && OneToken(z.stream, z.writer, z.reader)
            && z.stream.taken <= Blocks(steps) && |Blocks(steps)| <= |z.stream.taken| + 1
            && (z.reader == Holding ==> z.stream.taken == Blocks(steps) && !z.stream.canSwap)
  {
    var start := System(Stream(true, false, first, [], []), Filling, Waiting);
    RunKept(start, steps);
    RunSends(start, steps);
    assert After(start, steps).stream.sent == [] + Blocks(steps) == Blocks(steps);
  }

  // How far the writer's next swap and the reader's next block are off.
  function UntilSwap<T>(y: System<T>): nat {
    if y.stream.canSwap then 0
    else if y.reader == Clearing then 1
    else if y.reader == Holding then 2
    else if y.stream.dataReady then 3
    else 4
  }

  function UntilBlock<T>(y: System<T>): nat {
    if y.stream.dataReady then 0 else if y.writer == Swapped then 1 else if y.stream.canSwap then 2 else 3
  }

  // One side can always move, and whoever waits does not wait for long: every step that is possible while the
  // writer waits brings the swap nearer, and while the reader waits, the block.
  lemma NeverStuck<T>(y: System<T>, block: T)
    requires Inv(y.stream, y.writer, y.reader)
    ensures Enabled(y, Swapping(block)) || Enabled(y, Announcing) || Enabled(y, Taking)
            || Enabled(y, ClearingReady) || Enabled(y, Freeing)
    ensures !y.stream.canSwap ==> forall step :: Enabled(y, step) ==> UntilSwap(Do(y, step)) < UntilSwap(y)
    ensures y.reader == Waiting && !y.stream.dataReady ==>
              forall step :: Enabled(y, step) ==> UntilBlock(Do(y, step)) < UntilBlock(y)
  {
  }
}

// The same protocol over two arrays that the swap exchanges.
module StreamBuffers {
  import opened StreamProtocol

  class Stream<T(0)> {
    var writeBuf: array<T>
    var readBuf: array<T>
    var canSwap: bool
    var dataReady: bool
    var dataSize: nat
    var writerStop: bool
    var readerStop: bool

    ghost var writer: Writer
    ghost var reader: Reader
    ghost var sent: seq<seq<T>>
    ghost var taken: seq<seq<T>>

    ghost function Abs(): StreamProtocol.Stream<seq<T>>
      reads this, readBuf
      requires dataSize <= readBuf.Length
    {
      StreamProtocol.Stream(canSwap, dataReady, readBuf[..dataSize], sent, taken)
    }

    ghost predicate Valid()
      reads this, readBuf
    {
      && writeBuf != readBuf && writeBuf.Length == readBuf.Length && dataSize <= readBuf.Length
      && Inv(Abs(), writer, reader)
    }

    constructor (samples: nat)
      ensures Valid() && fresh(writeBuf) && fresh(readBuf) && writeBuf.Length == samples
      ensures Abs() == StreamProtocol.Stream(true, false, [], [], []) && writer == Filling && reader == Waiting
      ensures !writerStop && !readerStop
    {
      writeBuf, readBuf := new T[samples], new T[samples];
      canSwap, dataReady, dataSize, writerStop, readerStop := true, false, 0, false, false;
      writer, reader, sent, taken := Filling, Waiting, [], [];
    }

    // The writer may put a sample into its buffer at any time it is not swapping; the reader's block stays.
    method Fill(at: nat, sample: T)
      requires Valid() && writer == Filling && at < writeBuf.Length
      modifies writeBuf
      ensures Valid() && Abs() == old(Abs()) && writeBuf[..] == old(writeBuf[..])[at := sample]
    {
      writeBuf[at] := sample;
    }

    // The first section of a swap, entered once the wait is over.
    method SwapBuffers(size: nat) returns (swapped: bool)
      requires Valid() && writer == Filling && size <= writeBuf.Length && (canSwap || writerStop)
      modifies this`writeBuf, this`readBuf, this`dataSize, this`canSwap, this`writer, this`sent
      ensures Valid() && swapped == !writerStop
      ensures swapped ==> writer == Swapped && writeBuf == old(readBuf) && readBuf == old(writeBuf)
                          && Abs() == Swap(old(Abs()), old(writeBuf[..size]))
      ensures !swapped ==> Abs() == old(Abs()) && writer == Filling && writeBuf == old(writeBuf) && readBuf == old(readBuf)
    {
      if writerStop { return false; }
      dataSize := size;
      writeBuf, readBuf := readBuf, writeBuf;
      canSwap := false;
      writer, sent := Swapped, sent + [readBuf[..size]];
      return true;
    }

    method AnnounceData()
      requires Valid() && writer == Swapped
      modifies this`dataReady, this`writer
      ensures Valid() && Abs() == Announce(old(Abs())) && writer == Filling
    {
      dataReady := true;
      writer := Filling;
    }

    // Entered once the wait is over: a block is ready, or the reader is to stop.
    method Read() returns (count: int)
      requires Valid() && reader == Waiting && (dataReady || readerStop)
      modifies this`reader, this`taken
      ensures Valid() && count == if readerStop then -1 else dataSize
      ensures count >= 0 ==> reader == Holding && Abs() == Take(old(Abs()))
      ensures count < 0 ==> reader == Waiting && Abs() == old(Abs())
    {
      if readerStop { return -1; }
      reader, taken := Holding, taken + [readBuf[..dataSize]];
      return dataSize;
    }

    method ClearReady()
      requires Valid() && reader == Holding
      modifies this`dataReady, this`reader
      ensures Valid() && Abs() == Clear(old(Abs())) && reader == Clearing
    {
      dataReady := false;
      reader := Clearing;
    }

    method FreeSwap()
      requires Valid() && reader == Clearing
      modifies this`canSwap, this`reader
      ensures Valid() && Abs() == Free(old(Abs())) && reader == Waiting
    {
      canSwap := true;
      reader := Waiting;
    }

    method StopWriter()
      requires Valid()
      modifies this`writerStop
      ensures Valid() && Abs() == old(Abs()) && writerStop
    {
      writerStop := true;
    }

    method ClearWriteStop()
      requires Valid()
      modifies this`writerStop
      ensures Valid() && Abs() == old(Abs()) && !writerStop
    {
      writerStop := false;
    }

    method StopReader()
      requires Valid()
      modifies this`readerStop
      ensures Valid() && Abs() == old(Abs()) && readerStop
    {
      readerStop := true;
    }

    method ClearReadStop()
      requires Valid()
      modifies this`readerStop
      ensures Valid() && Abs() == old(Abs()) && !readerStop
    {
      readerStop := false;
    }
  }
}
