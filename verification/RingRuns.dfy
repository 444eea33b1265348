/**
 Two runs of the ring protocol that end badly: a throwing seek that puts both threads to
 sleep, and a backward seek over bytes that the underlying handler has overwritten.
 */
module RingRuns {
  import opened RingProtocol
  import opened RingSafety

  const CALM := Flags(false, false, false, false)

  lemma Extended(run: seq<State>, s: State)
    requires RingBehaviour(run) && RingStep(run[|run| - 1], s)
    ensures RingBehaviour(run + [s])
  {
    var all := run + [s];
    forall i | 0 <= i < |all| - 1 ensures RingStep(all[i], all[i + 1]) {
      if i < |run| - 1 { assert RingStep(run[i], run[i + 1]); }
    }
  }

  lemma ProducerExtends(run: seq<State>, s: State)
    requires RingBehaviour(run) && ProducerMoves(run[|run| - 1], s)
    ensures RingBehaviour(run + [s])
  {
    assert RingStep(run[|run| - 1], s);
    Extended(run, s);
  }

  lemma ReaderExtends(run: seq<State>, s: State)
    requires RingBehaviour(run) && ReaderMoves(run[|run| - 1], s)
    ensures RingBehaviour(run + [s])
  {
    assert RingStep(run[|run| - 1], s);
    Extended(run, s);
  }

  /** The underlying read stores x at the offset, which the chunk contains. */
  lemma Stored(s: State, offset: nat, x: Byte)
    requires s.producer.Filling? && offset < s.producer.chunk && s.ring.b + offset < s.ring.Size()
    ensures ProducerMoves(s, StoreStep(s, offset, x))
  {
  }

  lemma Delivered(s: State, n: nat)
    requires s.producer.Filling? && 1 <= n <= s.producer.chunk
    ensures ProducerMoves(s, CommitStep(s, Bytes(n)))
  {
    assert (Bytes(n).Bytes? ==> 1 <= Bytes(n).n <= s.producer.chunk);
  }

  lemma Copied(s: State)
    requires s.reader.Copying? && s.ring.Valid() && |s.reader.out| < s.reader.count && |s.reader.out| < s.ring.Size()
    ensures ReaderMoves(s, CopyStep(s))
  {
  }

  // ----- a deadlock -----

  /** A ring of one byte with an initial fill of one. */
  function Tiny(buffer: seq<Byte>, empty: bool, gate: bool, seek: Seek, producer: Producer, reader: Reader,
                delivered: seq<Byte>): State {
    State(Config(1, 1), Ring(buffer, 0, 0, empty), 0, gate, seek, CALM, producer, reader, History(delivered, []))
  }

  const TO_END := Seek(0, SeekEnd)

  /** The ring is filled, the gate opens, and the buffer thread sleeps. */
  lemma TinyFills() returns (run: seq<State>)
    ensures RingBehaviour(run) && run[|run| - 1] == Tiny([7], false, false, NoSeek, Asleep, Idle, [7])
  {
    var s0 := Tiny([0], true, true, NoSeek, Start, Idle, []);
    run := [s0];
    var s1 := Tiny([0], true, true, NoSeek, Top, Idle, []);
    ProducerExtends(run, s1);
    run := run + [s1];
    var s2 := Tiny([0], true, true, NoSeek, Filling(1), Idle, []);
    assert s2 == TopStep(s1, false);
    ProducerExtends(run, s2);
    run := run + [s2];
    var s3 := Tiny([7], true, true, NoSeek, Filling(1), Idle, []);
    assert s3 == StoreStep(s2, 0, 7);
    Stored(s2, 0, 7);
    ProducerExtends(run, s3);
    run := run + [s3];
    var s4 := Tiny([7], false, false, NoSeek, Top, Idle, [7]);
    assert s4 == CommitStep(s3, Bytes(1));
    Delivered(s3, 1);
    ProducerExtends(run, s4);
    run := run + [s4];
    var s5 := Tiny([7], false, false, NoSeek, Asleep, Idle, [7]);
    assert s5 == TopStep(s4, false);
    ProducerExtends(run, s5);
    run := run + [s5];
  }

  /** A run in which the underlying seek throws on a full ring and both threads end up asleep, the gate
      closed in front of a full ring. */
  lemma ThrowDeadlocksInARun() returns (run: seq<State>)
    ensures RingBehaviour(run)
    ensures var s := run[|run| - 1]; s.producer.Asleep? && s.reader.ReadAsleep? && s.gate && s.ring.Full()
  {
    run := TinyFills();
    var s5 := Tiny([7], false, false, NoSeek, Asleep, Idle, [7]);
    var s6 := Tiny([7], false, false, TO_END, Woken, SeekAsleep, [7]);
    assert SeekAsserts(0, SeekEnd) && s6 == SeekStep(s5, 0, SeekEnd);
    ReaderExtends(run, s6);
    run := run + [s6];
    var s7 := Tiny([7], false, false, TO_END, Top, SeekAsleep, [7]);
    ProducerExtends(run, s7);
    run := run + [s7];
    var s8 := Tiny([7], false, true, NoSeek, Asleep, SeekWoken, [7]);
    assert s8 == TopStep(s7, true);
    ProducerExtends(run, s8);
    run := run + [s8];
    var s9 := Tiny([7], false, true, NoSeek, Asleep, Idle, [7]);
    ReaderExtends(run, s9);
    run := run + [s9];
    var s10 := Tiny([7], false, true, NoSeek, Asleep, ReadAsleep(1), [7]);
    assert s10 == ReadStep(s9, 1);
    ReaderExtends(run, s10);
    run := run + [s10];
  }

  // ----- a backward seek over overwritten bytes -----

  /** A ring of four bytes, chunks of up to four and no initial fill. */
  function Four(buffer: seq<Byte>, a: nat, b: nat, empty: bool, posRead: int, seek: Seek, producer: Producer,
                reader: Reader, past: History): State {
    State(Config(4, 0), Ring(buffer, a, b, empty), posRead, false, seek, CALM, producer, reader, past)
  }

  const NOTHING := History([], [])
  const ALL := History([1, 2, 3, 4], [])
  const READ := History([1, 2, 3, 4], [1, 2, 3])

  /** Four bytes are delivered and fill the ring. */
  lemma FourFills() returns (run: seq<State>)
    ensures RingBehaviour(run) && run[|run| - 1] == Four([1, 2, 3, 4], 0, 0, false, 0, NoSeek, Asleep, Idle, ALL)
  {
    var s0 := Four([0, 0, 0, 0], 0, 0, true, 0, NoSeek, Start, Idle, NOTHING);
    run := [s0];
    var s1 := Four([0, 0, 0, 0], 0, 0, true, 0, NoSeek, Top, Idle, NOTHING);
    ProducerExtends(run, s1);
    run := run + [s1];
    var s2 := Four([0, 0, 0, 0], 0, 0, true, 0, NoSeek, Filling(4), Idle, NOTHING);
    assert s2 == TopStep(s1, false);
    ProducerExtends(run, s2);
    run := FourStores(run + [s2]);
    var s6 := Four([1, 2, 3, 4], 0, 0, true, 0, NoSeek, Filling(4), Idle, NOTHING);
    var s7 := Four([1, 2, 3, 4], 0, 0, false, 0, NoSeek, Top, Idle, ALL);
    assert s7 == CommitStep(s6, Bytes(4));
    Delivered(s6, 4);
    ProducerExtends(run, s7);
    run := run + [s7];
    var s8 := Four([1, 2, 3, 4], 0, 0, false, 0, NoSeek, Asleep, Idle, ALL);
    assert s8 == TopStep(s7, false);
    ProducerExtends(run, s8);
    run := run + [s8];
  }

  lemma FourStores(run: seq<State>) returns (longer: seq<State>)
    requires RingBehaviour(run)
    requires run[|run| - 1] == Four([0, 0, 0, 0], 0, 0, true, 0, NoSeek, Filling(4), Idle, NOTHING)
    ensures RingBehaviour(longer)
    ensures longer[|longer| - 1] == Four([1, 2, 3, 4], 0, 0, true, 0, NoSeek, Filling(4), Idle, NOTHING)
  {
    var s2 := run[|run| - 1];
    var s3 := StoreStep(s2, 0, 1);
    Stored(s2, 0, 1);
    ProducerExtends(run, s3);
    longer := run + [s3];
    var s4 := StoreStep(s3, 1, 2);
    Stored(s3, 1, 2);
    ProducerExtends(longer, s4);
    longer := longer + [s4];
    var s5 := StoreStep(s4, 2, 3);
    Stored(s4, 2, 3);
    ProducerExtends(longer, s5);
    longer := longer + [s5];
    var s6 := StoreStep(s5, 3, 4);
    Stored(s5, 3, 4);
    ProducerExtends(longer, s6);
    longer := longer + [s6];
  }

  const BYTES: seq<Byte> := [1, 2, 3, 4]

  lemma CopyOne(run: seq<State>, k: nat) returns (longer: seq<State>)
    requires RingBehaviour(run) && k < 3
    requires run[|run| - 1] == Four(BYTES, 0, 0, false, 0, NoSeek, Asleep, Copying(3, BYTES[..k]), ALL)
    ensures RingBehaviour(longer)
    ensures longer[|longer| - 1] == Four(BYTES, 0, 0, false, 0, NoSeek, Asleep, Copying(3, BYTES[..k + 1]), ALL)
  {
    var s := run[|run| - 1];
    assert BYTES[..k] + [BYTES[k]] == BYTES[..k + 1];
    Copied(s);
    ReaderExtends(run, CopyStep(s));
    longer := run + [CopyStep(s)];
  }

  /** The reader takes three of them. */
  lemma FourReads() returns (run: seq<State>)
    ensures RingBehaviour(run) && run[|run| - 1] == Four([1, 2, 3, 4], 3, 0, false, 3, NoSeek, Woken, Idle, READ)
  {
    run := FourFills();
    var s9 := Four(BYTES, 0, 0, false, 0, NoSeek, Asleep, Copying(3, BYTES[..0]), ALL);
    assert s9 == ReadStep(run[|run| - 1], 3);
    ReaderExtends(run, s9);
    run := CopyOne(run + [s9], 0);
    run := CopyOne(run, 1);
    run := CopyOne(run, 2);
    FourReleases(run);
    run := run + [Four([1, 2, 3, 4], 3, 0, false, 3, NoSeek, Woken, Idle, READ)];
  }

  lemma FourReleases(run: seq<State>)
    requires RingBehaviour(run)
    requires run[|run| - 1] == Four(BYTES, 0, 0, false, 0, NoSeek, Asleep, Copying(3, BYTES[..3]), ALL)
    ensures RingBehaviour(run + [Four([1, 2, 3, 4], 3, 0, false, 3, NoSeek, Woken, Idle, READ)])
  {
    var s13 := Four(BYTES, 3, 0, false, 3, NoSeek, Woken, Idle, READ);
    assert BYTES[..3] == [1, 2, 3];
    assert s13 == EndReadStep(run[|run| - 1]);
    ReaderExtends(run, s13);
  }

  const OVERWRITTEN: seq<Byte> := [5, 2, 7, 4]

  /** The next read stores 5 and, further on, a 7 it will not return. */
  lemma FourOverwrites() returns (run: seq<State>)
    ensures RingBehaviour(run)
    ensures run[|run| - 1] == Four(OVERWRITTEN, 3, 0, false, 3, NoSeek, Filling(3), Idle, READ)
  {
    run := FourReads();
    var s13 := run[|run| - 1];
    var s14 := s13.(producer := Top);
    ProducerExtends(run, s14);
    run := run + [s14];
    var s15 := s13.(producer := Filling(3));
    assert s15 == TopStep(s14, false);
    ProducerExtends(run, s15);
    run := run + [s15];
    var s16 := StoreStep(s15, 0, 5);
    Stored(s15, 0, 5);
    ProducerExtends(run, s16);
    run := run + [s16];
    var s17 := StoreStep(s16, 2, 7);
    Stored(s16, 2, 7);
    ProducerExtends(run, s17);
    run := run + [s17];
  }

  /** Meanwhile a seek one byte back is requested. It is served from the buffer, where 7 stands in the
      place of 3. */
  lemma BackwardSeekFindsOthers() returns (run: seq<State>)
    ensures RingBehaviour(run)
    ensures var s := run[|run| - 1];
            && s.producer.Top? && InBuffer(s) && RelSeek(s.seek, s.posRead) == -1
            && s.ring.Valid() && s.ring.b < s.ring.a - 1
            && s.ring.Skip(-1).Valid() && s.ring.Skip(-1).Contents() == [7, 4, 5]
            && s.past == History([1, 2, 3, 4, 5], [1, 2, 3])
  {
    run := FourOverwrites();
    BackwardSeekPending(run, run[|run| - 1]);
    var s18 := Four(OVERWRITTEN, 3, 0, false, 3, Seek(2, SeekSet), Filling(3), SeekAsleep, READ);
    run := run + [s18];
    var past := History([1, 2, 3, 4, 5], [1, 2, 3]);
    var s19 := Four(OVERWRITTEN, 3, 1, false, 3, Seek(2, SeekSet), Top, SeekAsleep, past);
    assert s19 == CommitStep(s18, Bytes(1));
    Delivered(s18, 1);
    ProducerExtends(run, s19);
    run := run + [s19];
    SkipIndex(s19.ring, -1);
  }

  lemma BackwardSeekPending(run: seq<State>, s17: State)
    requires RingBehaviour(run) && run[|run| - 1] == s17
    requires s17 == Four(OVERWRITTEN, 3, 0, false, 3, NoSeek, Filling(3), Idle, READ)
    ensures RingBehaviour(run + [Four(OVERWRITTEN, 3, 0, false, 3, Seek(2, SeekSet), Filling(3), SeekAsleep, READ)])
  {
    var s18 := Four(OVERWRITTEN, 3, 0, false, 3, Seek(2, SeekSet), Filling(3), SeekAsleep, READ);
    assert SeekAsserts(2, SeekSet) && s18 == SeekStep(s17, 2, SeekSet);
    ReaderExtends(run, s18);
  }
}
