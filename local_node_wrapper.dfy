/** The channel wrapper between the server and a node running in the same JVM
    (LocalNodeWrapperHandler): its interest and readiness bit sets, and the reads
    and writes of data locations on the node message it shares with the node.

    The node message's list of locations is a field of the handler here. Waiting for
    the other side (goToSleep, wakeUp) and waking the selector are not modelled: a
    read that would wait reports that it is blocked. */
module LocalNodeWrapper {
  import opened JavaLang

  /** SelectionKey.OP_READ */
  const OP_READ: bv32 := 1
  /** SelectionKey.OP_WRITE */
  const OP_WRITE: bv32 := 4

  /** A data location: the bytes it holds. */
  datatype Location = Location(bytes: seq<bv8>)

  /** The ready set after setKeyOps(keyOps): a key set with OP_WRITE becomes the
      ready set without OP_READ, so the channel is never reported readable while
      it is write-ready; otherwise the ready set is kept. */
  function ReadyOpsAfter(keyOps: bv32, readyOps: bv32): (r: bv32)
    ensures keyOps & OP_WRITE == 0 ==> r == readyOps
    ensures keyOps & OP_WRITE != 0 ==> r & OP_READ == 0 && r & OP_WRITE != 0
    ensures keyOps & OP_WRITE != 0 ==> r | OP_READ == keyOps | OP_READ
  {
    if keyOps & OP_WRITE != 0 then keyOps & !OP_READ else readyOps
  }

  /** Setting the key set twice gives the ready set of the last call when that call
      has OP_WRITE. */
  lemma ReadyOpsLastWriteWins(k1: bv32, k2: bv32, readyOps: bv32)
    requires k2 & OP_WRITE != 0
    ensures ReadyOpsAfter(k2, ReadyOpsAfter(k1, readyOps)) == ReadyOpsAfter(k2, 0)
  {
  }

  /** What a read finds: it would wait for the node, the list index is out of range
      (IndexOutOfBoundsException), or the location at `index` is read. */
  datatype ReadResult = Blocked | OutOfRange | Found(index: nat)

  /** read() as written: it waits while readPosition >= size, then reads the
      location at readPosition + 1. */
  function ReadFromAsWritten(readPosition: nat, size: nat): ReadResult {
    if readPosition >= size then Blocked
    else if readPosition + 1 < size then Found(readPosition + 1)
    else OutOfRange
  }

  /** The wait condition lets through the one position whose successor is past the
      end: with a single location and nothing read, the read goes out of range. */
  lemma ReadFromAsWrittenOutOfRange(readPosition: nat, size: nat)
    ensures ReadFromAsWritten(readPosition, size) == OutOfRange <==> readPosition + 1 == size
    ensures ReadFromAsWritten(0, 1) == OutOfRange
  {
  }

  /** read() with the wait condition matched to the index read: it waits while
      readPosition + 1 >= size. */
  function ReadFrom(readPosition: nat, size: nat): (r: ReadResult)
    ensures !r.OutOfRange?
    ensures r.Found? <==> readPosition + 1 < size
    ensures r.Found? ==> r.index == readPosition + 1 && r.index < size
  {
    if readPosition + 1 >= size then Blocked else Found(readPosition + 1)
  }

  /** The corrected read differs from the code only where the code goes out of
      range, and waits there instead. */
  lemma ReadFromAgrees(readPosition: nat, size: nat)
    ensures ReadFromAsWritten(readPosition, size) != OutOfRange ==> ReadFrom(readPosition, size) == ReadFromAsWritten(readPosition, size)
    ensures ReadFromAsWritten(readPosition, size) == OutOfRange ==> ReadFrom(readPosition, size) == Blocked
  {
  }

  /** Reads in a row, each after the previous one: the k-th read returns location
      k + 1, so reading never revisits a location and never reads location 0. */
  lemma {:induction false} ReadsInOrder(size: nat, k: nat)
    requires k + 1 < size
    ensures ReadFrom(k, size) == Found(k + 1)
    ensures forall j :: 0 <= j < k ==> ReadFrom(j, size).index < ReadFrom(k, size).index
  {
    forall j | 0 <= j < k
      ensures ReadFrom(j, size).index < ReadFrom(k, size).index
    {
      assert ReadFrom(j, size) == Found(j + 1);
    }
  }

  class Handler {
    var keyOps: bv32
    var readyOps: bv32
    var readPosition: nat
    var currentLocation: Option<Location>
    var currentCount: int
    /** The locations of the node message shared with the node. */
    var locations: seq<Location>

    /** A new handler: no interest, nothing ready, nothing read or written. */
    constructor (locations: seq<Location>)
      ensures keyOps == 0 && readyOps == 0 && readPosition == 0
      ensures currentLocation.None? && currentCount == 0
      ensures this.locations == locations
    {
      keyOps := 0;
      readyOps := 0;
      readPosition := 0;
      currentLocation := None;
      currentCount := 0;
      this.locations := locations;
    }

    /** setKeyOps: the key set is replaced; the ready set follows ReadyOpsAfter. */
    method SetKeyOps(k: bv32)
      modifies this`keyOps, this`readyOps
      ensures keyOps == k
      ensures readyOps == ReadyOpsAfter(k, old(readyOps))
    {
      if k & OP_WRITE != 0 {
        readyOps := k & !OP_READ;
      }
      keyOps := k;
    }

    method SetReadyOps(r: bv32)
      modifies this`readyOps
      ensures readyOps == r
    {
      readyOps := r;
    }

    /** write(data, offset, len): one new location holding the len bytes at offset
        is appended to the node message, and the channel becomes read-ready. */
    method Write(data: seq<bv8>, offset: nat, len: nat)
      requires offset + len <= |data|
      modifies this`locations, this`currentLocation, this`readyOps
      ensures locations == old(locations) + [Location(data[offset..offset + len])]
      ensures currentLocation == Some(Location(data[offset..offset + len]))
      ensures readyOps == OP_READ
    {
      var location := Location(data[offset..offset + len]);
      currentLocation := Some(location);
      locations := locations + [location];
      readyOps := OP_READ;
    }

    /** writeInt(value): only the current count is reset; the value is not written. */
    method WriteInt(value: int)
      modifies this`currentCount
      ensures currentCount == 0
    {
      currentCount := 0;
    }

    /** read() as written: the channel becomes write-ready; past the wait, the read
        position moves on and the location there is returned, or the list index is
        out of range. */
    method ReadAsWritten() returns (r: ReadResult, buffer: Option<seq<bv8>>)
      modifies this`readyOps, this`readPosition
      ensures readyOps == OP_WRITE
      ensures r == ReadFromAsWritten(old(readPosition), |locations|)
      ensures readPosition == if r.Blocked? then old(readPosition) else old(readPosition) + 1
      ensures buffer.Some? <==> r.Found?
      ensures r.Found? ==> buffer == Some(locations[r.index].bytes)
    {
      readyOps := OP_WRITE;
      if readPosition >= |locations| {
        return Blocked, None;
      }
      readPosition := readPosition + 1;
      if readPosition < |locations| {
        r := Found(readPosition);
        buffer := Some(locations[readPosition].bytes);
      } else {
        r := OutOfRange;
        buffer := None;
      }
    }

    /** read() with the corrected wait: the location after the read position, once
        it exists, is returned and becomes the read position. */
    method Read() returns (r: ReadResult, buffer: Option<seq<bv8>>)
      modifies this`readyOps, this`readPosition
      ensures readyOps == OP_WRITE
      ensures r == ReadFrom(old(readPosition), |locations|)
      ensures readPosition == if r.Blocked? then old(readPosition) else old(readPosition) + 1
      ensures buffer.Some? <==> r.Found?
      ensures r.Found? ==> buffer == Some(locations[r.index].bytes)
    {
      readyOps := OP_WRITE;
      if readPosition + 1 >= |locations| {
        return Blocked, None;
      }
      readPosition := readPosition + 1;
      r := Found(readPosition);
      buffer := Some(locations[readPosition].bytes);
    }
  }
}
