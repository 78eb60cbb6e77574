/** The per-channel state of the generic multiplexer (MultiplexerContext): the
    application and multiplexer ports, the queue of messages waiting to be sent,
    the message being written, the end-of-stream flag and a counter of messages
    read.

    Buffers are values compared by identity; returning a buffer to the buffer pool
    is recorded in a `released` log. The inherited NioContext message is modelled by
    the bytes written into its buffer so far (NioContext is not part of this
    model). */
module MultiplexerContext {
  import opened JavaLang

  newtype byte = x: int | 0 <= x < 256

  /** A ByteBuffer, by identity. */
  datatype Buffer = Buffer(id: nat)

  /** A ByteBufferWrapper queued for sending, by identity. */
  datatype BufferWrapper = BufferWrapper(id: nat)

  /** The inherited message: the bytes written into its buffer before it is flipped. */
  datatype NioMessage = NioMessage(written: seq<byte>)

  /** A SelectionKey, by identity. */
  datatype Key = Key(id: nat)

  /** ByteBuffer.getInt on a buffer just flipped over `bytes`: a big-endian 32-bit
      two's-complement int, or None for the BufferUnderflowException thrown when
      fewer than four bytes were written. */
  function GetInt(bytes: seq<byte>): (r: Option<int>)
    ensures r.Some? <==> |bytes| >= 4
    ensures r.Some? ==> IsInt(r.value)
  {
    if |bytes| < 4 then None
    else
      var u := bytes[0] as int * 0x100_0000 + bytes[1] as int * 0x1_0000 + bytes[2] as int * 0x100 + bytes[3] as int;
      Some(if u > INT_MAX then u - 0x1_0000_0000 else u)
  }

  /** ByteBuffer.putInt: the four big-endian bytes of an int. */
  function PutInt(v: int): (r: seq<byte>)
    requires IsInt(v)
    ensures |r| == 4
  {
    var u := if v < 0 then v + 0x1_0000_0000 else v;
    var q1 := u / 0x100;
    var q2 := q1 / 0x100;
    [(q2 / 0x100) as byte, (q2 % 0x100) as byte, (q1 % 0x100) as byte, (u % 0x100) as byte]
  }

  /** Reading back an int that was written gives the int, whatever follows it. */
  lemma GetPutInt(v: int, rest: seq<byte>)
    requires IsInt(v)
    ensures GetInt(PutInt(v) + rest) == Some(v)
  {
    var b := PutInt(v) + rest;
    var u := if v < 0 then v + 0x1_0000_0000 else v;
    var q1 := u / 0x100;
    var q2 := q1 / 0x100;
    assert u == q1 * 0x100 + u % 0x100;
    assert q1 == q2 * 0x100 + q1 % 0x100;
    assert q2 == q2 / 0x100 * 0x100 + q2 % 0x100;
    assert b[0] as int == q2 / 0x100 && b[1] as int == q2 % 0x100;
    assert b[2] as int == q1 % 0x100 && b[3] as int == u % 0x100;
    assert b[0] as int * 0x100_0000 + b[1] as int * 0x1_0000 + b[2] as int * 0x100 + b[3] as int == u;
  }

  /** Only the first four bytes are read, and they are the bytes of the int read. */
  lemma PutGetInt(bytes: seq<byte>)
    requires |bytes| >= 4
    ensures PutInt(GetInt(bytes).value) == bytes[..4]
  {
    var b0, b1, b2, b3 := bytes[0] as int, bytes[1] as int, bytes[2] as int, bytes[3] as int;
    var u := b0 * 0x100_0000 + b1 * 0x1_0000 + b2 * 0x100 + b3;
    var v := GetInt(bytes).value;
    assert (if v < 0 then v + 0x1_0000_0000 else v) == u;
    assert u == ((b0 * 0x100 + b1) * 0x100 + b2) * 0x100 + b3;
    DivPlus((b0 * 0x100 + b1) * 0x100 + b2, b3, 0x100);
    DivPlus(b0 * 0x100 + b1, b2, 0x100);
    DivPlus(b0, b1, 0x100);
    DivPlus(0, b0, 0x100);
  }

  lemma DivPlus(q: int, r: int, d: int)
    requires d == 0x100 || d == 0x1_0000 || d == 0x100_0000
    requires 0 <= r < d
    ensures (q * d + r) / d == q && (q * d + r) % d == r
  {
    if d == 0x100 {
      assert q * d == q * 0x100;
    } else if d == 0x1_0000 {
      assert q * d == q * 0x1_0000;
    } else {
      assert q * d == q * 0x100_0000;
    }
  }

  lemma GetPutIntAll()
    ensures forall v, rest :: IsInt(v) ==> GetInt(PutInt(v) + rest) == Some(v)
  {
    forall v, rest | IsInt(v) ensures GetInt(PutInt(v) + rest) == Some(v) {
      GetPutInt(v, rest);
    }
  }

  class Context {
    var linkedKey: Option<Key>
    var boundPort: int
    var multiplexerPort: int
    var pendingMessages: seq<BufferWrapper>
    var currentMessage: Option<Buffer>
    var eof: bool
    var readMessageCount: int
    var message: Option<NioMessage>
    /** The buffers returned to the buffer pool, in order. */
    var released: seq<Buffer>

    predicate Valid()
      reads this
    {
      IsInt(readMessageCount)
    }

    /** isApplicationPort */
    predicate IsApplicationPort()
      reads this
    {
      boundPort > 0
    }

    /** isMultiplexerPort */
    predicate IsMultiplexerPort()
      reads this
    {
      multiplexerPort > 0
    }

    /** A new context: both ports -1, so neither kind of port; nothing queued. */
    constructor ()
      ensures Valid()
      ensures boundPort == -1 && multiplexerPort == -1
      ensures !IsApplicationPort() && !IsMultiplexerPort()
      ensures linkedKey.None? && pendingMessages == [] && currentMessage.None? && message.None?
      ensures !eof && readMessageCount == 0 && released == []
    {
      linkedKey := None;
      boundPort := -1;
      multiplexerPort := -1;
      pendingMessages := [];
      currentMessage := None;
      eof := false;
      readMessageCount := 0;
      message := None;
      released := [];
    }

    method SetBoundPort(p: int)
      modifies this`boundPort
      ensures boundPort == p
      ensures IsApplicationPort() <==> p > 0
    {
      boundPort := p;
    }

    method SetMultiplexerPort(p: int)
      modifies this`multiplexerPort
      ensures multiplexerPort == p
      ensures IsMultiplexerPort() <==> p > 0
    {
      multiplexerPort := p;
    }

    method SetLinkedKey(k: Option<Key>)
      modifies this`linkedKey
      ensures linkedKey == k
    {
      linkedKey := k;
    }

    method SetEof(b: bool)
      modifies this`eof
      ensures eof == b
    {
      eof := b;
    }

    /** addPendingMessage: appended at the tail of the queue; a null message is
        refused by the queue with a NullPointerException (`ok` false) and the queue
        is unchanged. */
    method AddPendingMessage(m: Option<BufferWrapper>) returns (ok: bool)
      modifies this`pendingMessages
      ensures ok <==> m.Some?
      ensures pendingMessages == if ok then old(pendingMessages) + [m.value] else old(pendingMessages)
    {
      ok := m.Some?;
      if ok {
        pendingMessages := pendingMessages + [m.value];
      }
    }

    /** nextPendingMessage: the head of the queue, removed; null when the queue is
        empty. */
    method NextPendingMessage() returns (m: Option<BufferWrapper>)
      modifies this`pendingMessages
      ensures old(pendingMessages) == [] ==> m.None? && pendingMessages == []
      ensures old(pendingMessages) != [] ==> m == Some(old(pendingMessages)[0]) && pendingMessages == old(pendingMessages)[1..]
    {
      if pendingMessages == [] {
        m := None;
      } else {
        m := Some(pendingMessages[0]);
        pendingMessages := pendingMessages[1..];
      }
    }

    /** hasPendingMessage: whether the queue has a head. */
    method HasPendingMessage() returns (b: bool)
      ensures b <==> |pendingMessages| > 0
    {
      b := pendingMessages != [];
    }

    /** setCurrentMessage: clearing the current message returns its buffer to the
        pool; replacing it with another buffer does not. */
    method SetCurrentMessage(m: Option<Buffer>)
      modifies this`currentMessage, this`released
      ensures currentMessage == m
      ensures released == if m.None? && old(currentMessage).Some? then old(released) + [old(currentMessage).value] else old(released)
    {
      if m.None? && currentMessage.Some? {
        released := released + [currentMessage.value];
      }
      currentMessage := m;
    }

    /** newReadMessageCount: `++readMessageCount` in 32-bit arithmetic: one more
        than before, until INT_MAX wraps to INT_MIN. */
    method NewReadMessageCount() returns (n: int)
      requires Valid()
      modifies this`readMessageCount
      ensures Valid()
      ensures n == readMessageCount == WrapInt(old(readMessageCount) + 1)
      ensures old(readMessageCount) < INT_MAX ==> n == old(readMessageCount) + 1
      ensures old(readMessageCount) == INT_MAX ==> n == INT_MIN
    {
      readMessageCount := WrapInt(readMessageCount + 1);
      n := readMessageCount;
    }

    /** readOutBoundPort: -1 without a message, otherwise the int at the start of
        the message's buffer, or None for a buffer underflow. The buffer's position
        and limit are not modelled. */
    function ReadOutBoundPort(): (r: Option<int>)
      reads this
      ensures message.None? ==> r == Some(-1)
      ensures message.Some? ==> (r.Some? <==> |message.value.written| >= 4)
      ensures forall v, rest :: IsInt(v) && message == Some(NioMessage(PutInt(v) + rest)) ==> r == Some(v)
    {
      if message.None? then Some(-1)
      else
        GetPutIntAll();
        GetInt(message.value.written)
    }
  }
}
