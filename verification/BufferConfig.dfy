/**
 The buffer sizes of a transcoding profile, from the configuration file to the ring:
 the parser's checks in int and size_t, and the checks of the two constructors.
 */
module BufferConfig {
  import opened RingProtocol

  datatype Sizes = Sizes(bufferSize: nat, chunkSize: nat, fillSize: nat)

  datatype Parsed = Accepted(sizes: Sizes) | Rejected

  /** Conversion of an int to size_t. */
  function ToSize(x: int): nat {
    x % SIZE_RANGE
  }

  predicate IsInt(x: int) {
    -INT_MAX - 1 <= x <= INT_MAX
  }

  /** The <buffer> element: size, chunk-size and fill-size as read with toInt. The sign test for the
      fill size looks at the loop counter i instead. */
  function ParseBuffer(size: int, chunk: int, fill: int, i: nat): Parsed {
    if size < 0 then Rejected
    else if chunk < 0 then Rejected
    else if ToSize(chunk) > ToSize(size) then Rejected
    else if (i as int) < 0 then Rejected
    else if ToSize(fill) > ToSize(size) then Rejected
    else Accepted(Sizes(ToSize(size), ToSize(chunk), ToSize(fill)))
  }

  /** The IOHandlerBufferHelper and BufferedIOHandler constructors accept the sizes. */
  predicate Constructs(s: Sizes) {
    0 < s.bufferSize && s.fillSize <= s.bufferSize && 0 < s.chunkSize
  }

  /** Although the fill size's sign is never tested, a profile is accepted exactly when all three
      sizes are non-negative and chunk and fill fit the buffer, and it then carries them unchanged. */
  lemma AcceptedSizes(size: int, chunk: int, fill: int, i: nat)
    requires IsInt(size) && IsInt(chunk) && IsInt(fill)
    ensures ParseBuffer(size, chunk, fill, i).Accepted? <==> 0 <= size && 0 <= chunk <= size && 0 <= fill <= size
    ensures ParseBuffer(size, chunk, fill, i).Accepted? ==>
              ParseBuffer(size, chunk, fill, i).sizes == Sizes(size, chunk, fill)
  {
    assert fill < 0 ==> ToSize(fill) == fill + SIZE_RANGE;
  }

  /** What an accepted profile still needs: a chunk of at least one byte. It then starts the protocol
      in a state with the bounds the ring relies on. */
  lemma AcceptedProfileRuns(size: int, chunk: int, fill: int, i: nat, s: State)
    requires IsInt(size) && IsInt(chunk) && IsInt(fill) && ParseBuffer(size, chunk, fill, i).Accepted?
    ensures Constructs(ParseBuffer(size, chunk, fill, i).sizes) <==> 1 <= chunk
    ensures 1 <= chunk && |s.ring.buffer| == size && s.ring.a == s.ring.b == 0 && s.ring.empty && s.posRead == 0
            && s.cfg == Config(chunk, fill) && s.gate == (fill > 0) && s.seek == NoSeek
            && s.flags == Flags(false, false, false, false) && s.producer == Start && s.reader == Idle
            && s.past == History([], [])
            ==> InitialRing(s)
  {
    AcceptedSizes(size, chunk, fill, i);
  }
}
