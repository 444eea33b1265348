/**
 The code of the two threads on the fields they share: each critical section of
 BufferedIOHandler::threadProc and of IOHandlerBufferHelper, updating the object and its
 buffer in place, is proved to be the step of the same name in RingProtocol.
 */
module BufferedIO {
  import opened RingProtocol
  import opened RingSafety

  class BufferedIOHandler {
    const maxChunkSize: nat
    const initialFillSize: nat
    const buffer: array<Byte>
    var a: nat
    var b: nat
    var empty: bool
    var posRead: int
    var waitForInitialFillSize: bool
    var doSeek: bool
    var seekOffset: int
    var seekWhence: Whence
    var eof: bool
    var readError: bool
    var checkSocket: bool
    var threadShutdown: bool
    // where each thread is
    var producer: Producer
    var reader: Reader
    ghost var past: History

    function TheRing(): Ring
      reads this, buffer
    {
      Ring(buffer[..], a, b, empty)
    }

    ghost function View(): State
      reads this, buffer
    {
      State(Config(maxChunkSize, initialFillSize), TheRing(), posRead, waitForInitialFillSize,
            if doSeek then Seek(seekOffset, seekWhence) else NoSeek,
            Flags(eof, readError, checkSocket, threadShutdown), producer, reader, past)
    }

    ghost predicate Valid()
      reads this, buffer
    {
      RingInv(View())
    }

    /** What the constructors' checks let through; see Open. */
    constructor (bufSize: nat, maxChunkSize: nat, initialFillSize: nat)
      requires 0 < bufSize <= INT_MAX && 0 < maxChunkSize && initialFillSize <= bufSize
      ensures Valid() && InitialRing(View()) && fresh(buffer) && buffer.Length == bufSize
      ensures this.maxChunkSize == maxChunkSize && this.initialFillSize == initialFillSize
    {
      this.maxChunkSize, this.initialFillSize := maxChunkSize, initialFillSize;
      buffer := new Byte[bufSize](_ => 0);
      a, b, empty, posRead := 0, 0, true, 0;
      waitForInitialFillSize := initialFillSize > 0;
      doSeek, seekOffset, seekWhence := false, 0, SeekSet;
      eof, readError, checkSocket, threadShutdown := false, false, false, false;
      producer, reader := Start, Idle;
      past := History([], []);
    }

    method CondSignal()
      modifies this`producer, this`reader
      ensures View() == Signal(old(View()))
    {
      if producer.Asleep? {
        producer := Woken;
      } else {
        reader := WakeReader(reader);
      }
    }

    // ----- the buffer thread -----

    method CurrentFillSize() returns (n: int)
      requires !empty
      ensures n == TheRing().Fill()
    {
      n := b - a;
      if n <= 0 {
        n := n + buffer.Length;
      }
    }

    /** The part of the loop that holds the lock, up to cond->wait or the release of the lock. */
    method TopOfLoop(throws: bool)
      requires Valid() && producer.Top?
      modifies this
      ensures View() == TopStep(old(View()), throws)
      ensures old(SoundSeek(View())) ==> Valid()
    {
      if SoundSeek(View()) { TopKeeps(View(), throws); }
      ResetContents(TheRing());
      ghost var goal := TopStep(View(), throws);
      if empty {
        a, b := 0, 0;
      }
      assert View() == old(View()).(ring := old(View()).ring.ResetIfEmpty());
      hide ProcessSeek, Decide;
      SeekSection(throws);
      WaitOrFill();
      assert View() == goal;
    }

    method WaitOrFill()
      requires b < buffer.Length
      modifies this`producer
      ensures View() == Decide(old(View()))
    {
      var maxWrite := if empty then buffer.Length else if a < b then buffer.Length - b else a - b;
      if maxWrite == 0 {
        producer := Asleep;
      } else {
        producer := Filling(if maxChunkSize > maxWrite then maxWrite else maxChunkSize);
      }
    }

    method SeekSection(throws: bool)
      requires TheRing().Valid()
      modifies this
      ensures View() == ProcessSeek(old(View()), throws) && b < buffer.Length
      ensures old(SoundSeek(View())) ==> TheRing().Valid()
    {
      if doSeek && !empty && (seekWhence.SeekSet? || (seekWhence.SeekCur? && seekOffset > 0)) {
        var currentFillSize := CurrentFillSize();
        var relSeek := ToInt(seekOffset);
        if seekWhence.SeekSet? {
          relSeek := ToInt(relSeek - posRead);
        }
        if relSeek <= currentFillSize {
          assert InBuffer(View());
          SeekInTheBuffer(relSeek);
        }
      }
      if doSeek {
        assert !InBuffer(old(View())) && View() == old(View());
        SeekBelow(throws);
      }
    }

    /** Everything the seek needs is in the buffer already. */
    method SeekInTheBuffer(relSeek: int)
      requires TheRing().Valid() && !empty && relSeek <= TheRing().Fill()
      modifies this
      ensures View() == SeekInBuffer(old(View()), relSeek) && !doSeek && b < buffer.Length
      ensures old(TheRing().Handles(relSeek, past.passed)) ==> TheRing().Valid()
    {
      ghost var r := TheRing();
      HandledIsValid(r, relSeek, past.passed);
      past := past.(passed := PassedAfter(r, past.passed, relSeek));
      posRead := posRead + relSeek;
      SkipAhead(relSeek);
      hide Ring.Skip;
      doSeek := false;
      CondSignal();
    }

    method SkipAhead(relSeek: int)
      modifies this`a, this`b, this`empty
      ensures TheRing() == old(TheRing()).Skip(relSeek) && b <= old(b)
    {
      a := (a + relSeek) % SIZE_RANGE;
      if a >= buffer.Length {
        a := a - buffer.Length;
      }
      if a == b {
        empty := true;
        a, b := 0, 0;
      }
    }

    method SeekBelow(throws: bool)
      requires TheRing().Valid()
      modifies this
      ensures View() == SeekUnderlying(old(View()), throws) && TheRing().Valid()
    {
      if !throws {
        empty := true;
        a, b := 0, 0;
        past := History([], []);
      }
      waitForInitialFillSize := initialFillSize > 0;
      doSeek := false;
      CondSignal();
    }

    /** A store by underlyingHandler->read into the chunk it was given. */
    method StoreByte(offset: nat, x: Byte)
      requires Valid() && producer.Filling? && offset < producer.chunk
      modifies buffer
      ensures Valid() && offset < old(buffer.Length - b) && View() == StoreStep(old(View()), offset, x)
    {
      StoreKeeps(View(), offset, x);
      buffer[b + offset] := x;
    }

    /** After underlyingHandler->read, with the lock taken again, to the end of the loop. */
    method AfterRead(result: ReadResult)
      requires Valid() && producer.Filling? && (result.Bytes? ==> 1 <= result.n <= producer.chunk)
      modifies this
      ensures Valid() && View() == CommitStep(old(View()), result)
    {
      CommitKeeps(View(), result);
      assert ChunkClear(TheRing(), producer.chunk);
      Commit(result);
    }

    method Commit(result: ReadResult)
      requires TheRing().Valid() && (result.Bytes? ==> b + result.n <= buffer.Length)
      modifies this
      ensures View() == CommitStep(old(View()), result)
    {
      match result
      case Bytes(n) =>
        TakeBytes(n);
        CheckInitialFill();
        EndOfLoop();
      case CheckSocket =>
        checkSocket := true;
        CondSignal();
        EndOfLoop();
      case EndOfFile =>
        if !threadShutdown { eof := true; }
        producer := Finished;
        CondSignal();
      case Failed =>
        if !threadShutdown { readError := true; }
        producer := Finished;
        CondSignal();
    }

    method TakeBytes(n: nat)
      requires b + n <= buffer.Length
      modifies this
      ensures View() == CommitBytes(old(View()), n) && !empty
    {
      past := past.(delivered := past.delivered + buffer[b..b + n]);
      b := b + n;
      if b == buffer.Length {
        b := 0;
      }
      if empty {
        empty := false;
        CondSignal();
      }
    }

    method CheckInitialFill()
      requires !empty
      modifies this
      ensures View() == CheckFill(old(View()))
    {
      if waitForInitialFillSize {
        var currentFillSize := CurrentFillSize();
        if currentFillSize >= initialFillSize {
          waitForInitialFillSize := false;
          CondSignal();
        }
      }
    }

    method EndOfLoop()
      modifies this`producer, this`reader
      ensures View() == Loop(old(View()))
    {
      if threadShutdown {
        producer := Finished;
        CondSignal();
      } else {
        producer := Top;
      }
    }

    // ----- the reading thread -----

    /** read() up to the release of the lock, its next sleep or its return. */
    method BeginRead(length: nat) returns (outcome: ReadOutcome)
      requires Valid() && LockFree(View()) && (reader.Idle? || reader.ReadWoken?) && 0 < length
      modifies this`reader, this`checkSocket
      ensures Valid() && View() == ReadStep(old(View()), length)
      ensures outcome == OutcomeOf(old(View())) && (outcome.Copies? <==> reader.Copying?)
    {
      ReadKeeps(View(), length);
      outcome := WaitForData(length);
    }

    method WaitForData(length: nat) returns (outcome: ReadOutcome)
      requires TheRing().Valid() && 0 < length
      modifies this`reader, this`checkSocket
      ensures View() == ReadStep(old(View()), length)
      ensures outcome == OutcomeOf(old(View())) && (outcome.Copies? <==> reader.Copying?)
    {
      if (empty || waitForInitialFillSize) && !(threadShutdown || eof || readError) {
        if checkSocket {
          checkSocket := false;
          reader := Idle;
          return Returns(CHECK_SOCKET);
        }
        reader := ReadAsleep(length);
        return Sleeps;
      }
      if readError || threadShutdown {
        reader := Idle;
        return Returns(-1);
      }
      if empty && eof {
        reader := Idle;
        return Returns(0);
      }
      ReadTakes(TheRing(), length);
      var read1, read2 := CopySizes(length);
      hide Ring.ReadSizes;
      reader := Copying(read1 + read2, []);
      outcome := Copies;
    }

    method CopySizes(length: nat) returns (read1: int, read2: int)
      requires !empty
      ensures (read1, read2) == TheRing().ReadSizes(length)
    {
      var currentFillSize := CurrentFillSize();
      var maxRead1 := if a < b then b - a else buffer.Length - a;
      read1 := if maxRead1 > length then length else maxRead1;
      var maxRead2 := currentFillSize - read1;
      read2 := if read1 < length then length - read1 else 0;
      if read2 > maxRead2 {
        read2 := maxRead2;
      }
    }

    /** One byte of the two memcpy calls. */
    method CopyByte()
      requires Valid() && reader.Copying? && |reader.out| < reader.count
      modifies this`reader
      ensures Valid() && |old(reader).out| < buffer.Length && View() == CopyStep(old(View()))
    {
      CopyKeeps(View());
      CopyNext();
    }

    method CopyNext()
      requires TheRing().Valid() && reader.Copying? && |reader.out| < buffer.Length
      modifies this`reader
      ensures View() == CopyStep(old(View()))
    {
      var i := a + |reader.out|;
      if i >= buffer.Length {
        i := i - buffer.Length;
      }
      reader := reader.(out := reader.out + [buffer[i]]);
    }

    /** read() with the lock taken again: the caller gets the front of what was unread. */
    method EndRead() returns (out: seq<Byte>)
      requires Valid() && LockFree(View()) && reader.Copying? && |reader.out| == reader.count
      modifies this
      ensures Valid() && View() == EndReadStep(old(View()))
      ensures out != [] && out <= old(TheRing().Contents()) && past.passed == old(past).passed + out
    {
      EndReadKeeps(View());
      assert TheRing().Valid() && 1 <= reader.count && reader.out <= TheRing().Contents();
      out := reader.out;
      Release(reader.count);
    }

    method Release(didRead: nat)
      requires TheRing().Valid() && !empty && reader.Copying? && didRead == reader.count
      modifies this
      ensures View() == EndReadStep(old(View()))
    {
      past := past.(passed := past.passed + reader.out);
      var full := a == b;
      MoveAhead(didRead);
      hide Ring.Advance;
      posRead := posRead + didRead;
      reader := Idle;
      if full || a == b {
        CondSignal();
      }
    }

    method MoveAhead(didRead: nat)
      modifies this`a, this`empty
      ensures TheRing() == old(TheRing()).Advance(didRead)
    {
      a := a + didRead;
      if a >= buffer.Length {
        a := a - buffer.Length;
      }
      if a == b {
        empty := true;
      }
    }

    /** seek() up to its sleep or return. */
    method BeginSeek(offset: int, whence: Whence)
      requires Valid() && LockFree(View()) && reader.Idle? && SeekAsserts(offset, whence)
      modifies this
      ensures Valid() && View() == SeekStep(old(View()), offset, whence)
    {
      SeekKeeps(View(), offset, whence);
      RequestSeek(offset, whence);
    }

    method RequestSeek(offset: int, whence: Whence)
      requires TheRing().Valid() && reader.Idle?
      modifies this
      ensures View() == SeekStep(old(View()), offset, whence)
    {
      if whence.SeekCur? && offset == 0 {
        return;
      }
      doSeek, seekOffset, seekWhence := true, offset, whence;
      CondSignal();
      if doSeek && !(threadShutdown || eof || readError) {
        reader := SeekAsleep;
      } else {
        reader := Idle;
      }
    }
  }

  /** The constructors with their checks; null when one throws. */
  method Open(bufSize: nat, maxChunkSize: nat, initialFillSize: nat) returns (handler: BufferedIOHandler?)
    requires bufSize <= INT_MAX
    ensures handler == null <==> bufSize == 0 || initialFillSize > bufSize || maxChunkSize == 0
    ensures handler != null ==>
              && fresh(handler) && handler.Valid() && InitialRing(handler.View()) && handler.buffer.Length == bufSize
              && handler.maxChunkSize == maxChunkSize && handler.initialFillSize == initialFillSize
  {
    if bufSize == 0 || initialFillSize > bufSize || maxChunkSize == 0 {
      return null;
    }
    handler := new BufferedIOHandler(bufSize, maxChunkSize, initialFillSize);
  }
}
