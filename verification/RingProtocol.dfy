/**
 The buffer thread of BufferedIOHandler and the reading thread of
 IOHandlerBufferHelper, as a state machine with one step per critical section and one
 step per byte moved outside the lock.

 The two threads share one condition variable. A signal wakes one sleeper, and a sleeper
 may also wake without one. That both never sleep at once is one of the results, so which
 one a signal wakes does not matter here.
 */
module RingProtocol {

  type Byte = x: int | 0 <= x < 256

  const INT_RANGE := 0x1_0000_0000
  const INT_MAX := 0x7FFF_FFFF
  const CHECK_SOCKET := -666
  const SIZE_RANGE := 0x1_0000_0000_0000_0000

  // ----- the ring -----

  datatype Ring = Ring(buffer: seq<Byte>, a: nat, b: nat, empty: bool) {

    function Size(): nat {
      |buffer|
    }

    /** currentFillSize, with the empty flag deciding a == b. */
    function Fill(): int {
      if empty then 0 else if b - a <= 0 then b - a + Size() else b - a
    }

    predicate Valid() {
      0 < Size() <= INT_MAX && a < Size() && b < Size() && (empty ==> a == b)
    }

    predicate Full() {
      !empty && a == b
    }

    /** The unread bytes, front first. */
    function Contents(): (c: seq<Byte>)
      requires Valid()
      ensures |c| == Fill()
      ensures forall i :: 0 <= i < |c| ==> c[i] == buffer[Wrap(a + i, Size())]
    {
      if empty then [] else if a < b then buffer[a..b] else buffer[a..] + buffer[..b]
    }

    /** The room up to the next obstacle: the end of the buffer or the first unread byte. */
    function MaxWrite(): int {
      if empty then Size() else if a < b then Size() - b else a - b
    }

    function ResetIfEmpty(): Ring {
      if empty then this.(a := 0, b := 0) else this
    }

    /** a += rel in size_t, one wrap-around, and an empty ring when a meets b. */
    function Skip(rel: int): Ring {
      var sum := (a + rel) % SIZE_RANGE;
      var a' := if sum >= Size() then sum - Size() else sum;
      if a' == b then this.(empty := true, a := 0, b := 0) else this.(a := a')
    }

    /** The n bytes in front of a are still the ones that left the ring last. */
    predicate Intact(passed: seq<Byte>, n: nat) {
      n <= a <= Size() && n <= |passed| && buffer[a - n..a] == passed[|passed| - n..]
    }

    /** The distances the in-buffer path handles: forward, 0 unless the ring is full, and backward over
        intact bytes without reaching b. */
    predicate Handles(rel: int, passed: seq<Byte>) {
      || 0 < rel
      || (rel == 0 && !Full())
      || (rel < 0 && (a < b || b < a + rel) && Intact(passed, -rel))
    }

    function Append(n: nat): Ring {
      this.(b := if b + n == Size() then 0 else b + n, empty := false)
    }

    /** The reader's a += n; unlike Skip it leaves the indices where they meet. */
    function Advance(n: nat): Ring {
      var a' := if a + n >= Size() then a + n - Size() else a + n;
      this.(a := a', empty := empty || a' == b)
    }

    function Store(i: nat, x: Byte): Ring
      requires i < Size()
    {
      this.(buffer := buffer[i := x])
    }

    /** The two memcpy sizes of read(): up to the end of the buffer, and from its start. */
    function ReadSizes(length: nat): (int, int) {
      var maxRead1 := if a < b then b - a else Size() - a;
      var read1 := if maxRead1 > length then length else maxRead1;
      var maxRead2 := Fill() - read1;
      var want := if read1 < length then length - read1 else 0;
      (read1, if want > maxRead2 then maxRead2 else want)
    }
  }

  function Wrap(i: nat, size: nat): nat {
    if i < size then i else i - size
  }

  // ----- the shared state -----

  datatype Whence = SeekSet | SeekCur | SeekEnd

  datatype Seek = NoSeek | Seek(offset: int, whence: Whence)

  /** The buffer thread: not yet running, at the top of its loop with the lock held, asleep or woken
      in cond->wait, reading into the buffer without the lock, or gone. */
  datatype Producer = Start | Top | Asleep | Woken | Filling(chunk: nat) | Finished

  /** The reading thread: outside, asleep or woken in read() or seek(), or copying without the lock. */
  datatype Reader =
    | Idle
    | ReadAsleep(length: nat) | ReadWoken(length: nat)
    | SeekAsleep | SeekWoken
    | Copying(count: nat, out: seq<Byte>)

  /** What the underlying read returned. */
  datatype ReadResult = Bytes(n: nat) | EndOfFile | Failed | CheckSocket

  datatype Config = Config(maxChunkSize: nat, initialFillSize: nat)

  datatype Flags = Flags(eof: bool, readError: bool, checkSocket: bool, threadShutdown: bool) {
    predicate Over() {
      eof || readError || threadShutdown
    }
  }

  /** Since the underlying handler was last repositioned: what its reads have returned, and what
      has left the ring, read or skipped. */
  datatype History = History(delivered: seq<Byte>, passed: seq<Byte>)

  datatype State = State(
    cfg: Config, ring: Ring, posRead: int, gate: bool, seek: Seek,
    flags: Flags, producer: Producer, reader: Reader, past: History)

  function Signal(s: State): State {
    if s.producer.Asleep? then s.(producer := Woken) else s.(reader := WakeReader(s.reader))
  }

  function WakeReader(r: Reader): Reader {
    match r
    case ReadAsleep(n) => ReadWoken(n)
    case SeekAsleep => SeekWoken
    case _ => r
  }

  // ----- the buffer thread -----

  /** Conversion of an off_t to int. */
  function ToInt(x: int): int {
    var m := x % INT_RANGE;
    if m > INT_MAX then m - INT_RANGE else m
  }

  /** relSeek: the distance from posRead, computed in int. */
  function RelSeek(seek: Seek, posRead: int): int
    requires seek.Seek?
  {
    if seek.whence.SeekSet? then ToInt(ToInt(seek.offset) - posRead) else ToInt(seek.offset)
  }

  predicate InBuffer(s: State) {
    && s.seek.Seek? && !s.ring.empty
    && (s.seek.whence.SeekSet? || (s.seek.whence.SeekCur? && s.seek.offset > 0))
    && RelSeek(s.seek, s.posRead) <= s.ring.Fill()
  }

  /** What has left the ring after a move of a by rel. */
  function PassedAfter(r: Ring, passed: seq<Byte>, rel: int): seq<Byte> {
    if rel < 0 then (if 0 <= |passed| + rel then passed[..|passed| + rel] else passed)
    else if r.Valid() && rel <= r.Fill() then passed + r.Contents()[..rel]
    else passed
  }

  /** The seek served from the buffer. */
  function SeekInBuffer(s: State, rel: int): State {
    Signal(s.(ring := s.ring.Skip(rel), posRead := s.posRead + rel, seek := NoSeek,
              past := s.past.(passed := PassedAfter(s.ring, s.past.passed, rel))))
  }

  /** The seek passed on to the underlying handler, which may throw. */
  function SeekUnderlying(s: State, throws: bool): State {
    var gate := s.cfg.initialFillSize > 0;
    Signal(if throws then s.(gate := gate, seek := NoSeek)
           else s.(ring := s.ring.(a := 0, b := 0, empty := true), gate := gate, seek := NoSeek,
                   past := History([], [])))
  }

  function ProcessSeek(s: State, throws: bool): State {
    if InBuffer(s) then SeekInBuffer(s, RelSeek(s.seek, s.posRead))
    else if s.seek.Seek? then SeekUnderlying(s, throws)
    else s
  }

  /** From the top of the loop to the wait or to the release of the lock. */
  function TopStep(s: State, throws: bool): State {
    Decide(ProcessSeek(s.(ring := s.ring.ResetIfEmpty()), throws))
  }

  function Decide(s: State): State {
    var maxWrite := s.ring.MaxWrite();
    if maxWrite <= 0 then s.(producer := Asleep)
    else s.(producer := Filling(if s.cfg.maxChunkSize > maxWrite then maxWrite else s.cfg.maxChunkSize))
  }

  /** The underlying read stores a byte somewhere in the chunk it was given. */
  function StoreStep(s: State, offset: nat, x: Byte): State
    requires s.ring.b + offset < s.ring.Size()
  {
    s.(ring := s.ring.Store(s.ring.b + offset, x))
  }

  /** The lock is taken again after the underlying read. */
  function CommitStep(s: State, result: ReadResult): State {
    match result
    case Bytes(n) => Loop(CheckFill(CommitBytes(s, n)))
    case CheckSocket => Loop(Signal(s.(flags := s.flags.(checkSocket := true))))
    case EndOfFile => Finish(if s.flags.threadShutdown then s else s.(flags := s.flags.(eof := true)))
    case Failed => Finish(if s.flags.threadShutdown then s else s.(flags := s.flags.(readError := true)))
  }

  function CommitBytes(s: State, n: nat): State {
    var taken := if s.ring.b + n <= s.ring.Size() then s.ring.buffer[s.ring.b..s.ring.b + n] else [];
    var s1 := s.(ring := s.ring.Append(n), past := s.past.(delivered := s.past.delivered + taken));
    if s.ring.empty then Signal(s1) else s1
  }

  function CheckFill(s: State): State {
    if s.gate && s.ring.Fill() >= s.cfg.initialFillSize then Signal(s.(gate := false)) else s
  }

  function Loop(s: State): State {
    if s.flags.threadShutdown then Finish(s) else s.(producer := Top)
  }

  function Finish(s: State): State {
    Signal(s.(producer := Finished))
  }

  // ----- the reading thread -----

  /** How far read() gets without releasing the lock: it sleeps, goes on to copy, or returns a code. */
  datatype ReadOutcome = Sleeps | Copies | Returns(code: int)

  /** An error or a shutdown is -1, the end of the stream 0, and a socket to be checked CHECK_SOCKET. */
  function OutcomeOf(s: State): ReadOutcome {
    var f := s.flags;
    if f.readError || f.threadShutdown then Returns(-1)
    else if f.eof then (if s.ring.empty then Returns(0) else Copies)
    else if !s.ring.empty && !s.gate then Copies
    else if f.checkSocket then Returns(CHECK_SOCKET)
    else Sleeps
  }

  /** The wait loop at the head of read(), up to the release of the lock. */
  function ReadStep(s: State, length: nat): State {
    if (s.ring.empty || s.gate) && !s.flags.Over() then
      if s.flags.checkSocket then s.(flags := s.flags.(checkSocket := false), reader := Idle)
      else s.(reader := ReadAsleep(length))
    else if s.flags.readError || s.flags.threadShutdown || (s.ring.empty && s.flags.eof) then
      s.(reader := Idle)
    else
      var (read1, read2) := s.ring.ReadSizes(length);
      s.(reader := Copying(if read1 + read2 >= 0 then read1 + read2 else 0, []))
  }

  function CopyStep(s: State): State
    requires s.reader.Copying? && s.ring.Valid() && |s.reader.out| < s.ring.Size()
  {
    var i := Wrap(s.ring.a + |s.reader.out|, s.ring.Size());
    s.(reader := s.reader.(out := s.reader.out + [s.ring.buffer[i]]))
  }

  /** The lock is taken again after the copy. */
  function EndReadStep(s: State): State
    requires s.reader.Copying?
  {
    var n := s.reader.count;
    var s1 := s.(ring := s.ring.Advance(n), posRead := s.posRead + n,
                 past := s.past.(passed := s.past.passed + s.reader.out), reader := Idle);
    if s.ring.a == s.ring.b || s1.ring.a == s1.ring.b then Signal(s1) else s1
  }

  function SeekStep(s: State, offset: int, whence: Whence): State {
    if whence.SeekCur? && offset == 0 then s
    else SeekWait(Signal(s.(seek := Seek(offset, whence))))
  }

  function SeekWait(s: State): State {
    if s.seek.Seek? && !s.flags.Over() then s.(reader := SeekAsleep) else s.(reader := Idle)
  }

  function ShutdownStep(s: State): State {
    Signal(s.(flags := s.flags.(threadShutdown := true)))
  }

  // ----- behaviours -----

  /** As constructed: the buffer and fill sizes have passed the constructors' checks. */
  predicate InitialRing(s: State) {
    && 0 < s.ring.Size() <= INT_MAX && 0 < s.cfg.maxChunkSize && s.cfg.initialFillSize <= s.ring.Size()
    && s.ring.a == s.ring.b == 0 && s.ring.empty && s.posRead == 0
    && s.gate == (s.cfg.initialFillSize > 0) && s.seek == NoSeek
    && s.flags == Flags(false, false, false, false)
    && s.producer == Start && s.reader == Idle && s.past == History([], [])
  }

  /** A seek served from the buffer goes a distance that is handled. */
  predicate SoundSeek(s: State) {
    InBuffer(s) ==> s.ring.Handles(RelSeek(s.seek, s.posRead), s.past.passed)
  }

  ghost predicate ProducerSteps(s: State, s': State) {
    match s.producer
    case Start => s' == s.(producer := Top)
    case Top => exists throws :: s' == TopStep(s, throws)
    case Asleep => s' == s.(producer := Woken)
    case Woken => s' == Loop(s)
    case Filling(chunk) =>
      || (exists offset: nat, x :: offset < chunk && s.ring.b + offset < s.ring.Size() && s' == StoreStep(s, offset, x))
      || (exists result: ReadResult :: (result.Bytes? ==> 1 <= result.n <= chunk) && s' == CommitStep(s, result))
    case _ => false
  }

  ghost predicate ProducerMoves(s: State, s': State) {
    ProducerSteps(s, s') && (s.producer.Top? ==> SoundSeek(s))
  }

  /** The buffer thread keeps the lock from its commit through the top of the loop. */
  predicate LockFree(s: State) {
    !s.producer.Top?
  }

  predicate SeekAsserts(offset: int, whence: Whence) {
    (whence.SeekSet? ==> offset >= 0) && (whence.SeekEnd? ==> offset <= 0)
  }

  ghost predicate ReaderMoves(s: State, s': State) {
    match s.reader
    case Idle =>
      LockFree(s) &&
      (|| (exists length: nat :: 0 < length && s' == ReadStep(s, length))
       || (exists offset, whence :: SeekAsserts(offset, whence) && s' == SeekStep(s, offset, whence))
       || s' == ShutdownStep(s))
    case ReadWoken(length) => LockFree(s) && s' == ReadStep(s, length)
    case ReadAsleep(length) => s' == s.(reader := ReadWoken(length))
    case SeekAsleep => s' == s.(reader := SeekWoken)
    case SeekWoken => LockFree(s) && s' == SeekWait(s)
    case Copying(count, out) =>
      if |out| < count then s.ring.Valid() && |out| < s.ring.Size() && s' == CopyStep(s)
      else LockFree(s) && s' == EndReadStep(s)
  }

  ghost predicate RingStep(s: State, s': State) {
    ProducerMoves(s, s') || ReaderMoves(s, s')
  }

  /** The runs in which every seek served from the buffer is handled. */
  ghost predicate RingBehaviour(run: seq<State>) {
    && run != [] && InitialRing(run[0])
    && forall i :: 0 <= i < |run| - 1 ==> RingStep(run[i], run[i + 1])
  }

  /** Every run, whatever the seeks. */
  ghost predicate AnyBehaviour(run: seq<State>) {
    && run != [] && InitialRing(run[0])
    && forall i :: 0 <= i < |run| - 1 ==> ProducerSteps(run[i], run[i + 1]) || ReaderMoves(run[i], run[i + 1])
  }

  /** A seek served from the buffer does not go back past the start of the buffer. */
  predicate InsideSeek(s: State) {
    InBuffer(s) ==> 0 <= s.ring.a + RelSeek(s.seek, s.posRead)
  }

  ghost predicate SeeksInside(run: seq<State>) {
    forall i :: 0 <= i < |run| - 1 && run[i].producer.Top? && !run[i + 1].producer.Top? ==> InsideSeek(run[i])
  }

  /** The underlying seek may throw: there is no initial fill or the ring has room. */
  predicate RoomToThrow(s: State) {
    s.cfg.initialFillSize == 0 || !s.ring.Full()
  }

  /** If the step is the buffer thread's and its seek throws, the ring had room. */
  ghost predicate GentleStep(s: State, s': State) {
    s.producer.Top? && !s'.producer.Top? ==>
      exists throws :: (throws ==> RoomToThrow(s)) && s' == TopStep(s, throws)
  }

  ghost predicate ThrowsGently(run: seq<State>) {
    forall i :: 0 <= i < |run| - 1 ==> GentleStep(run[i], run[i + 1])
  }

  /** A seek that keeps a closed gate's ring below the initial fill: one that throws finds it below, and
      one served from the buffer does not go back so far that it is reached. */
  predicate StaysBelow(s: State, throws: bool) {
    s.seek.Seek? ==>
      if InBuffer(s) then s.gate ==> s.ring.Fill() - RelSeek(s.seek, s.posRead) < s.cfg.initialFillSize
      else throws ==> s.cfg.initialFillSize == 0 || s.ring.Fill() < s.cfg.initialFillSize
  }

  ghost predicate BelowStep(s: State, s': State) {
    s.producer.Top? && !s'.producer.Top? ==> exists throws :: StaysBelow(s, throws) && s' == TopStep(s, throws)
  }

  ghost predicate SeeksBelow(run: seq<State>) {
    forall i :: 0 <= i < |run| - 1 ==> BelowStep(run[i], run[i + 1])
  }
}
