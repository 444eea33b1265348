/**
 The initial-fill gate and progress: the ring is never full while the gate is closed, no
 wake-up is lost, and when an underlying seek that throws breaks this.
 */
module RingGate {
  import opened RingProtocol
  import opened RingSafety

  /** A closed gate leaves room in the ring. */
  predicate GateOk(s: State) {
    s.gate ==> !s.ring.Full()
  }

  /** A closed gate means that the ring is below the initial fill. */
  predicate Below(s: State) {
    s.gate ==> s.ring.Fill() < s.cfg.initialFillSize
  }

  // ----- the section with the seek -----

  /** A seek served from the buffer leaves the gate alone and moves the fill by the distance. */
  lemma InBufferFill(s: State, throws: bool)
    requires RingInv(s) && s.producer.Top? && SoundSeek(s) && InBuffer(s)
    ensures var s' := TopStep(s, throws);
            && s'.cfg == s.cfg && s'.gate == s.gate && s'.ring.Size() == s.ring.Size()
            && s'.ring.Fill() == s.ring.Fill() - RelSeek(s.seek, s.posRead)
            && (s'.ring.Full() ==> s.ring.Full())
  {
    var r, rel := s.ring, RelSeek(s.seek, s.posRead);
    if rel < 0 { SkipReturns(r, rel, s.past.passed); } else { SkipDiscards(r, rel); }
    WaitsExactlyWhenFull(r);
    WaitsExactlyWhenFull(r.Skip(rel));
    hide Behind, Ring.Contents, Ring.Skip;
    assert s == s.(ring := r.ResetIfEmpty());
  }

  /** One passed on closes the gate if there is an initial fill, and empties the ring unless it throws. */
  lemma UnderlyingFill(s: State, throws: bool)
    requires RingInv(s) && s.producer.Top? && !InBuffer(s)
    ensures var s' := TopStep(s, throws);
            && s'.cfg == s.cfg && s'.ring.Size() == s.ring.Size()
            && (if s.seek.NoSeek? || throws then s'.ring.Fill() == s.ring.Fill() && s'.ring.Full() == s.ring.Full()
                else s'.ring.Fill() == 0 && !s'.ring.Full())
            && s'.gate == if s.seek.NoSeek? then s.gate else s.cfg.initialFillSize > 0
  {
    hide Behind, Ring.Contents, Ring.Skip;
  }

  /** The section keeps room behind a closed gate exactly when an underlying seek does not throw on a full
      ring with an initial fill set. */
  lemma TopKeepsGate(s: State, throws: bool)
    requires RingInv(s) && GateOk(s) && s.producer.Top? && SoundSeek(s)
    ensures GateOk(TopStep(s, throws)) <==> (s.seek.Seek? && !InBuffer(s) && throws ==> RoomToThrow(s))
  {
    hide TopStep, RingInv;
    if InBuffer(s) { InBufferFill(s, throws); } else { UnderlyingFill(s, throws); }
  }

  /** It keeps the fill below the initial one exactly when the seek stays below. */
  lemma TopKeepsBelow(s: State, throws: bool)
    requires RingInv(s) && Below(s) && s.producer.Top? && SoundSeek(s)
    ensures Below(TopStep(s, throws)) <==> StaysBelow(s, throws)
  {
    hide TopStep, RingInv;
    if InBuffer(s) { InBufferFill(s, throws); } else { UnderlyingFill(s, throws); }
  }

  // ----- the other steps -----

  lemma CommitKeepsGate(s: State, result: ReadResult)
    requires RingInv(s) && s.producer.Filling? && (result.Bytes? ==> 1 <= result.n <= s.producer.chunk)
    ensures GateOk(s) ==> GateOk(CommitStep(s, result))
    ensures Below(s) ==> Below(CommitStep(s, result))
  {
    CommitKeeps(s, result);
    WaitsExactlyWhenFull(CommitStep(s, result).ring);
  }

  lemma FillingKeepsGate(s: State, s': State)
    requires RingInv(s) && s.producer.Filling? && ProducerMoves(s, s')
    ensures (GateOk(s) ==> GateOk(s')) && (Below(s) ==> Below(s'))
  {
    var chunk := s.producer.chunk;
    if offset: nat, x :| offset < chunk && s.ring.b + offset < s.ring.Size() && s' == StoreStep(s, offset, x) {
      assert s'.ring.Fill() == s.ring.Fill() && s'.ring.Full() == s.ring.Full();
    } else {
      var result: ReadResult :| (result.Bytes? ==> 1 <= result.n <= chunk) && s' == CommitStep(s, result);
      CommitKeepsGate(s, result);
    }
  }

  lemma TopLeaves(s: State, throws: bool)
    ensures !TopStep(s, throws).producer.Top?
  {
  }

  lemma ProducerKeepsGate(s: State, s': State)
    requires RingInv(s) && ProducerMoves(s, s')
    ensures GateOk(s) && GentleStep(s, s') ==> GateOk(s')
    ensures Below(s) && BelowStep(s, s') ==> Below(s')
  {
    if s.producer.Top? {
      var t :| s' == TopStep(s, t);
      TopLeaves(s, t);
      if GateOk(s) && GentleStep(s, s') {
        var throws :| (throws ==> RoomToThrow(s)) && s' == TopStep(s, throws);
        TopKeepsGate(s, throws);
      }
      if Below(s) && BelowStep(s, s') {
        var throws :| StaysBelow(s, throws) && s' == TopStep(s, throws);
        TopKeepsBelow(s, throws);
      }
    } else if s.producer.Filling? {
      FillingKeepsGate(s, s');
    }
  }

  lemma CopyKeepsGate(s: State, s': State)
    requires RingInv(s) && s.reader.Copying? && ReaderMoves(s, s')
    ensures (GateOk(s) ==> GateOk(s')) && (Below(s) ==> Below(s'))
  {
    AdvanceContents(s.ring, s.reader.count);
  }

  lemma ReaderKeepsGate(s: State, s': State)
    requires RingInv(s) && ReaderMoves(s, s')
    ensures (GateOk(s) ==> GateOk(s')) && (Below(s) ==> Below(s'))
  {
    hide RingInv;
    if s.reader.Copying? {
      CopyKeepsGate(s, s');
    }
  }

  lemma RingStepKeepsGate(s: State, s': State)
    requires RingInv(s) && RingStep(s, s')
    ensures GateOk(s) && GentleStep(s, s') ==> GateOk(s')
    ensures Below(s) && BelowStep(s, s') ==> Below(s')
  {
    if ProducerMoves(s, s') { ProducerKeepsGate(s, s'); } else { ReaderKeepsGate(s, s'); }
  }

  // ----- runs -----

  lemma {:induction false} RunsKeepGate(run: seq<State>, n: nat)
    requires RingBehaviour(run) && ThrowsGently(run) && n < |run|
    ensures GateOk(run[n])
  {
    if n > 0 {
      hide RingInv, GateOk, RingStep, GentleStep;
      RunsKeepRing(run, n - 1);
      RunsKeepGate(run, n - 1);
      assert RingStep(run[n - 1], run[n - 1 + 1]) && GentleStep(run[n - 1], run[n - 1 + 1]);
      RingStepKeepsGate(run[n - 1], run[n]);
    }
  }

  /** The initial-fill gate cannot block: if no underlying seek throws on a full ring, the ring is never full
      while the gate is closed. */
  lemma GateCannotBlock(run: seq<State>, n: nat)
    requires RingBehaviour(run) && ThrowsGently(run) && n < |run| && run[n].gate
    ensures !run[n].ring.Full() && run[n].ring.Fill() < run[n].ring.Size()
  {
    RunsKeepRing(run, n);
    RunsKeepGate(run, n);
    WaitsExactlyWhenFull(run[n].ring);
  }

  /** If moreover the seeks stay below the initial fill, so does the ring while the gate is closed. */
  lemma {:induction false} GateMeansBelow(run: seq<State>, n: nat)
    requires RingBehaviour(run) && SeeksBelow(run) && n < |run|
    ensures Below(run[n])
  {
    if n > 0 {
      hide RingInv, Below, RingStep, BelowStep;
      RunsKeepRing(run, n - 1);
      GateMeansBelow(run, n - 1);
      assert RingStep(run[n - 1], run[n - 1 + 1]) && BelowStep(run[n - 1], run[n - 1 + 1]);
      RingStepKeepsGate(run[n - 1], run[n]);
    }
  }

  ghost predicate ReaderSleeps(s: State) {
    s.reader.ReadAsleep? || s.reader.SeekAsleep?
  }

  /** No deadlock and no lost wake-up: the two threads never both sleep. A sleeping reader leaves the
      buffer thread able to move; a sleeping buffer thread means a full ring that can be read. */
  lemma NobodyStuck(run: seq<State>, n: nat, length: nat)
    requires RingBehaviour(run) && ThrowsGently(run) && n < |run| && 0 < length
    ensures var s := run[n];
            && !(s.producer.Asleep? && ReaderSleeps(s))
            && (ReaderSleeps(s) ==> s.producer.Start? || s.producer.Top? || s.producer.Woken? || s.producer.Filling?)
            && (s.producer.Asleep? ==> s.ring.Fill() == s.ring.Size() && ReadStep(s, length).reader.Copying?)
  {
    RunsKeepRing(run, n);
    RunsKeepGate(run, n);
  }

  /** If the underlying seek throws on a full ring with an initial fill set, both threads sleep as soon as
      the reader has returned from seek() and asks for data. */
  lemma ThrowDeadlocks(s: State, length: nat)
    requires RingInv(s) && s.producer.Top? && s.reader.SeekAsleep? && s.ring.Full() && !InBuffer(s)
    requires s.cfg.initialFillSize > 0 && !s.flags.checkSocket
    ensures var s1 := TopStep(s, true);
            var s2 := SeekWait(s1);
            var s3 := ReadStep(s2, length);
            && s1.reader.SeekWoken? && s2.reader.Idle?
            && s3.producer.Asleep? && s3.reader.ReadAsleep?
  {
  }
}
