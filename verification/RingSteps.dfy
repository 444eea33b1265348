/**
 What each step does to the gate, the flags, the read position and the two threads, told from the state
 before it: when the gate opens, what read() returns, which seeks are served from the buffer, and how the
 buffer thread ends.
 */
module RingSteps {
  import opened RingProtocol
  import opened RingSafety

  // ----- the initial fill -----

  /** After a commit the gate is closed exactly if it was closed and the ring still holds less than the initial
      fill. A commit that opens it, or ends emptiness, leaves no reader asleep in read(). */
  lemma CommitGate(s: State, n: nat)
    requires s.producer.Filling?
    ensures var s' := CommitStep(s, Bytes(n));
            && (s'.gate <==> s.gate && s'.ring.Fill() < s.cfg.initialFillSize)
            && s'.ring == s.ring.Append(n) && s'.posRead == s.posRead && s'.seek == s.seek
            && (s.ring.empty || (s.gate && !s'.gate) ==> !s'.reader.ReadAsleep?)
            && (!s.ring.empty && s.gate == s'.gate && !s.flags.threadShutdown ==> s'.reader == s.reader)
  {
  }

  /** A seek is pending that goes to the underlying handler. */
  predicate PassedOn(s: State) {
    s.seek.Seek? && !InBuffer(s.(ring := s.ring.ResetIfEmpty()))
  }

  /** The gate opens only when the initial fill is reached, or with a seek passed on if there is none; it closes
      only with a seek passed on. */
  lemma GateChanges(s: State, s': State)
    requires ProducerSteps(s, s') || ReaderMoves(s, s')
    ensures s.gate && !s'.gate ==>
              || (s.producer.Filling? && s'.ring.Fill() >= s.cfg.initialFillSize)
              || (s.producer.Top? && PassedOn(s) && s.cfg.initialFillSize == 0)
    ensures !s.gate && s'.gate ==> s.producer.Top? && PassedOn(s) && s.cfg.initialFillSize > 0
    ensures s'.cfg == s.cfg
  {
    if ProducerSteps(s, s') { ProducerGate(s, s'); } else { ReaderGate(s, s'); }
  }

  lemma ProducerGate(s: State, s': State)
    requires ProducerSteps(s, s')
    ensures s.gate && !s'.gate ==>
              || (s.producer.Filling? && s'.ring.Fill() >= s.cfg.initialFillSize)
              || (s.producer.Top? && PassedOn(s) && s.cfg.initialFillSize == 0)
    ensures !s.gate && s'.gate ==> s.producer.Top? && PassedOn(s) && s.cfg.initialFillSize > 0
    ensures s'.cfg == s.cfg
  {
    hide Ring.Skip, PassedAfter, Ring.Contents, Ring.MaxWrite, RelSeek;
  }

  lemma ReaderGate(s: State, s': State)
    requires ReaderMoves(s, s')
    ensures s'.gate == s.gate && s'.cfg == s.cfg
  {
    hide Ring.ReadSizes, Ring.Contents, Ring.Advance, Ring.Fill;
  }

  /** In every run whatsoever: whenever the gate goes from closed to open the ring holds the initial fill, or there
      is none to wait for. */
  lemma GateOpens(run: seq<State>, n: nat)
    requires AnyBehaviour(run) && n + 1 < |run| && run[n].gate && !run[n + 1].gate
    ensures run[n + 1].ring.Fill() >= run[n + 1].cfg.initialFillSize || run[n + 1].cfg.initialFillSize == 0
  {
    assert ProducerSteps(run[n], run[n + 1]) || ReaderMoves(run[n], run[n + 1]);
    hide ProducerSteps, ReaderMoves, Ring.Fill, AnyBehaviour;
    GateChanges(run[n], run[n + 1]);
  }

  // ----- what read() does -----

  /** The codes of read(), by the flags and the ring; it hands out data exactly if there are some, no error and no
      shutdown, and the gate is open or the stream at its end. */
  lemma OutcomeExactly(s: State)
    ensures OutcomeOf(s) == Returns(-1) <==> s.flags.readError || s.flags.threadShutdown
    ensures OutcomeOf(s) == Returns(0) <==>
            !s.flags.readError && !s.flags.threadShutdown && s.flags.eof && s.ring.empty
    ensures OutcomeOf(s) == Returns(CHECK_SOCKET) <==>
            !s.flags.Over() && s.flags.checkSocket && (s.ring.empty || s.gate)
    ensures OutcomeOf(s) == Sleeps <==> !s.flags.Over() && !s.flags.checkSocket && (s.ring.empty || s.gate)
    ensures OutcomeOf(s) == Copies <==>
            !s.flags.readError && !s.flags.threadShutdown && !s.ring.empty && (s.flags.eof || !s.gate)
    ensures s.flags.Over() <==> s.flags.eof || s.flags.readError || s.flags.threadShutdown
  {
  }

  /** read() changes the reader alone, and the socket flag if it returns that code; it copies as much as is asked
      for and there. */
  lemma ReadExactly(s: State, length: nat)
    requires s.ring.Valid() && 0 < length
    ensures var out, s' := OutcomeOf(s), ReadStep(s, length);
            && s' == s.(reader := s'.reader,
                        flags := s.flags.(checkSocket := s.flags.checkSocket && out != Returns(CHECK_SOCKET)))
            && s'.reader == match out
                            case Sleeps => ReadAsleep(length)
                            case Returns(_) => Idle
                            case Copies => Copying(if length < s.ring.Fill() then length else s.ring.Fill(), [])
  {
    if !s.ring.empty { ReadTakes(s.ring, length); }
  }

  /** The end of a read moves the read position and the front of the ring by the bytes copied, and wakes the
      buffer thread if the ring was full or has become empty. */
  lemma ReadEnds(s: State)
    requires s.ring.Valid() && s.reader.Copying? && 1 <= s.reader.count <= s.ring.Fill()
    ensures var n, s' := s.reader.count, EndReadStep(s);
            && s'.posRead == s.posRead + n && s'.reader == Idle && s'.flags == s.flags && s'.seek == s.seek
            && s'.ring.Valid() && s'.ring.Contents() == s.ring.Contents()[n..]
            && (s.producer.Asleep? && (s.ring.Full() || s'.ring.empty) ==> s'.producer.Woken?)
            && (!s.producer.Asleep? ==> s'.producer == s.producer)
  {
    AdvanceContents(s.ring, s.reader.count);
    hide Ring.Contents;
  }

  // ----- seeks -----

  /** seek() does nothing for a relative distance of 0. Any other request is left for the buffer thread, which is
      woken, and waited for unless the stream is over. */
  lemma SeekAsks(s: State, offset: int, whence: Whence)
    ensures var s' := SeekStep(s, offset, whence);
            if whence == SeekCur && offset == 0 then s' == s
            else
              && s'.seek == Seek(offset, whence) && s'.ring == s.ring && s'.gate == s.gate && s'.flags == s.flags
              && s'.posRead == s.posRead && s'.past == s.past && !s'.producer.Asleep?
              && s'.reader == if s.flags.Over() then Idle else SeekAsleep
    ensures SeekWait(s) == s.(reader := if s.seek == NoSeek || s.flags.Over() then Idle else SeekAsleep)
  {
  }

  /** A seek that fits an int is served from the buffer exactly if the buffer is not empty, it is not relative to
      the end, a relative one goes forward, and the buffer reaches that far. */
  lemma ServedExactly(s: State)
    requires s.seek.Seek? && -INT_MAX - 1 <= Distance(s.seek, s.posRead) <= INT_MAX
    ensures InBuffer(s) <==>
            && !s.ring.empty && s.seek.whence != SeekEnd && (s.seek.whence == SeekCur ==> s.seek.offset > 0)
            && Distance(s.seek, s.posRead) <= s.ring.Fill()
    ensures Distance(s.seek, s.posRead) ==
            if s.seek.whence == SeekSet then s.seek.offset - s.posRead else s.seek.offset
  {
    RelSeekExact(s.seek, s.posRead);
  }

  /** A seek passed on empties the ring unless the underlying seek throws, closes the gate exactly if there is an
      initial fill, and leaves the read position alone. */
  lemma PassedOnExactly(s: State, throws: bool)
    requires s.seek.Seek? && !InBuffer(s) && !s.producer.Asleep?
    ensures var s' := ProcessSeek(s, throws);
            && s'.seek == NoSeek && (s'.gate <==> s.cfg.initialFillSize > 0)
            && s'.posRead == s.posRead && s'.flags == s.flags && !s'.reader.SeekAsleep?
            && (if throws then s'.ring == s.ring && s'.past == s.past
                else s'.ring == Ring(s.ring.buffer, 0, 0, true) && s'.past == History([], []))
  {
  }

  /** One served from the buffer leaves the gate, the bytes and the flags, and wakes the reader. */
  lemma ServedKeeps(s: State, throws: bool)
    requires InBuffer(s) && !s.producer.Asleep?
    ensures var s' := ProcessSeek(s, throws);
            && s'.seek == NoSeek && s'.gate == s.gate && s'.flags == s.flags && s'.ring.buffer == s.ring.buffer
            && s'.past.delivered == s.past.delivered && !s'.reader.SeekAsleep?
            && s'.posRead == s.posRead + RelSeek(s.seek, s.posRead)
  {
    hide PassedAfter, RelSeek;
  }

  // ----- the buffer thread -----

  /** The thread sleeps exactly on a full ring. Otherwise it reads as much as it may at once: a whole chunk, or up
      to the end of the buffer, or up to the first unread byte. */
  lemma ChunkIsLargest(s: State)
    requires s.ring.Valid() && 0 < s.cfg.maxChunkSize && (s.ring.empty ==> s.ring.b == 0)
    ensures var s' := Decide(s);
            && s' == s.(producer := s'.producer)
            && (s'.producer.Asleep? <==> s.ring.Full())
            && (!s.ring.Full() ==>
                  && s'.producer.Filling? && 1 <= s'.producer.chunk <= s.cfg.maxChunkSize
                  && var end := s.ring.b + s'.producer.chunk;
                     || s'.producer.chunk == s.cfg.maxChunkSize
                     || end == s.ring.Size() || (!s.ring.empty && end == s.ring.a))
  {
  }

  /** What an underlying read leads to: the end of the stream, an error and a socket to be checked each set their
      own flag, the first two not during a shutdown, and nothing but bytes changes the ring. */
  lemma CommitFlags(s: State, result: ReadResult)
    requires s.producer.Filling?
    ensures var s' := CommitStep(s, result);
            && (s'.flags.eof <==> s.flags.eof || (result == EndOfFile && !s.flags.threadShutdown))
            && (s'.flags.readError <==> s.flags.readError || (result == Failed && !s.flags.threadShutdown))
            && (s'.flags.checkSocket <==> s.flags.checkSocket || result == CheckSocket)
            && s'.flags.threadShutdown == s.flags.threadShutdown
            && (!result.Bytes? ==> s'.ring == s.ring && s'.gate == s.gate && s'.past == s.past)
  {
    hide Ring.Append, Ring.Fill;
  }

  /** The thread ends with the end of the stream, an error or a shutdown; then, and for a socket to be checked, no
      reader is asleep. */
  lemma CommitEnds(s: State, result: ReadResult)
    requires s.producer.Filling?
    ensures var s' := CommitStep(s, result);
            && s'.producer ==
               (if result == EndOfFile || result == Failed || s.flags.threadShutdown then Finished else Top)
            && (s'.producer == Finished || result == CheckSocket ==> !s'.reader.ReadAsleep? && !s'.reader.SeekAsleep?)
            && s'.posRead == s.posRead && s'.seek == s.seek
  {
    hide Ring.Append, Ring.Fill;
  }

  /** A shutdown is announced and seen: the thread that wakes up ends. */
  lemma ShutdownSeen(s: State)
    ensures var s' := ShutdownStep(s);
            && s'.flags == s.flags.(threadShutdown := true) && s'.ring == s.ring && s'.gate == s.gate
            && !s'.producer.Asleep?
    ensures s.producer.Woken? ==>
              Loop(s).producer == (if s.flags.threadShutdown then Finished else Top)
  {
  }
}
