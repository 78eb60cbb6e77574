/** A wrapper around an external process (ProcessWrapper): the process is set at
    most once, the process's output and error streams are drained in chunks, and
    every chunk is passed to the registered listeners in registration order.

    A stream is given as the UTF-16 code units its reader yields before end of
    stream (an IOException ends reading the same way), since Reader.read() returns
    one code unit at a time and StringBuilder.length() counts code units: a
    supplementary character is a surrogate pair, counts twice towards the flush
    size, and may be split across two chunks. Listener callbacks are recorded in a
    notification log instead of being run. */
module ProcessWrapper {
  import opened JavaLang

  /** `8*1024`: the size at which a chunk is flushed without a line end. */
  const BUFFER_SIZE: int := 8 * 1024

  /** A UTF-16 code unit, as Reader.read() returns it before end of stream. */
  newtype CodeUnit = c: int | 0 <= c < 0x1_0000

  /** Java text as its code units: the contents of a StringBuilder or a String. */
  type Text = seq<CodeUnit>

  /** '\r' and '\n' as code units. */
  const CR: CodeUnit := 13
  const LF: CodeUnit := 10

  /** A java.lang.Process, by identity. */
  datatype Process = Process(id: nat)

  /** A ProcessWrapperEventListener, by identity. */
  datatype Listener = Listener(id: nat)

  /** One callback: outputStreamAltered (output) or errorStreamAltered (not output)
      called on `listener` with an event holding `content`. */
  datatype Notification = Notification(listener: Listener, output: bool, content: Text)

  /** A StreamHandler thread started for one stream; `threadName` is None for a
      thread that keeps its default name. */
  datatype Handler = Handler(threadName: Option<string>, output: bool)

  /** What StreamHandler.run has done after some code units: the chunks it flushed
      and the code units waiting in its buffer. */
  datatype Chunking = Chunking(chunks: seq<Text>, pending: Text)

  /** One code unit read: CR is skipped; any other is appended, and the buffer is
      flushed when its length reaches BUFFER_SIZE or the unit is LF. */
  function Step(st: Chunking, c: CodeUnit): Chunking {
    if c == CR then st
    else
      var sb := st.pending + [c];
      if |sb| >= BUFFER_SIZE || c == LF then Chunking(st.chunks + [sb], [])
      else Chunking(st.chunks, sb)
  }

  /** The state of StreamHandler.run after reading all of `input`. */
  function Chunks(input: Text): Chunking
    decreases |input|
  {
    if |input| == 0 then Chunking([], [])
    else Step(Chunks(input[..|input| - 1]), input[|input| - 1])
  }

  /** The input with every CR removed. */
  function Strip(input: Text): Text
    decreases |input|
  {
    if |input| == 0 then []
    else
      var c := input[|input| - 1];
      Strip(input[..|input| - 1]) + (if c == CR then [] else [c])
  }

  /** The chunks glued together. */
  function Concat(chunks: seq<Text>): Text
    decreases |chunks|
  {
    if |chunks| == 0 then [] else Concat(chunks[..|chunks| - 1]) + chunks[|chunks| - 1]
  }

  /** A flushed chunk: non-empty, at most BUFFER_SIZE long, no CR, a LF only as
      its last unit, and ending with LF unless it is full. */
  predicate ChunkOk(c: Text) {
    && 0 < |c| <= BUFFER_SIZE
    && CR !in c
    && (c[|c| - 1] == LF || |c| == BUFFER_SIZE)
    && forall j :: 0 <= j < |c| - 1 ==> c[j] != LF
  }

  /** Every chunk is well formed and the buffer holds no CR, no LF and fewer
      than BUFFER_SIZE code units. */
  predicate WellFormed(st: Chunking) {
    && (forall k :: 0 <= k < |st.chunks| ==> ChunkOk(st.chunks[k]))
    && CR !in st.pending
    && LF !in st.pending
    && |st.pending| < BUFFER_SIZE
  }

  lemma StepWellFormed(st: Chunking, c: CodeUnit)
    requires WellFormed(st)
    ensures WellFormed(Step(st, c))
    ensures Step(st, c).chunks[..|st.chunks|] == st.chunks
  {
    if c != CR {
      var sb := st.pending + [c];
      assert forall j :: 0 <= j < |sb| - 1 ==> sb[j] == st.pending[j];
      assert CR !in sb;
      if |sb| >= BUFFER_SIZE || c == LF {
        assert ChunkOk(sb);
        assert (st.chunks + [sb])[..|st.chunks|] == st.chunks;
      }
    }
  }

  /** Only well-formed chunks are flushed, and what stays in the buffer at the end
      of the stream has no line end and is shorter than BUFFER_SIZE. */
  lemma {:induction false} ChunksWellFormed(input: Text)
    ensures WellFormed(Chunks(input))
    decreases |input|
  {
    if |input| > 0 {
      ChunksWellFormed(input[..|input| - 1]);
      StepWellFormed(Chunks(input[..|input| - 1]), input[|input| - 1]);
    }
  }

  lemma StepConcat(st: Chunking, c: CodeUnit)
    ensures Concat(Step(st, c).chunks) + Step(st, c).pending
         == Concat(st.chunks) + st.pending + (if c == CR then [] else [c])
  {
    if c != CR {
      var sb := st.pending + [c];
      if |sb| >= BUFFER_SIZE || c == LF {
        assert (st.chunks + [sb])[..|st.chunks|] == st.chunks;
      }
    }
  }

  /** Nothing is lost or reordered except the CR units and the unflushed
      tail: the chunks followed by the buffer are the input without CR units. */
  lemma {:induction false} ChunksConcat(input: Text)
    ensures Concat(Chunks(input).chunks) + Chunks(input).pending == Strip(input)
    decreases |input|
  {
    if |input| > 0 {
      var init := input[..|input| - 1];
      ChunksConcat(init);
      StepConcat(Chunks(init), input[|input| - 1]);
    }
  }

  /** The text passed to listeners is a prefix of the input without CR; what
      follows it is never passed on, and it is non-empty exactly when the stripped
      input does not end at a flush point. */
  lemma ChunksLoseTail(input: Text)
    ensures var st := Chunks(input);
      && |Concat(st.chunks)| <= |Strip(input)|
      && Concat(st.chunks) == Strip(input)[..|Concat(st.chunks)|]
      && Strip(input)[|Concat(st.chunks)|..] == st.pending
      && LF !in st.pending && |st.pending| < BUFFER_SIZE
  {
    ChunksConcat(input);
    ChunksWellFormed(input);
    var st := Chunks(input);
    assert Strip(input) == Concat(st.chunks) + st.pending;
  }

  /** A line without a final line end is never passed on. */
  lemma UnterminatedLineLost()
    ensures Chunks([97, CR, LF, 98]).chunks == [[97, LF]]
    ensures Chunks([97, CR, LF, 98]).pending == [98]
  {
    var input: Text := [97, CR, LF, 98];
    assert input[..3] == [97, CR, LF] && input[..3][..2] == [97, CR];
    assert input[..3][..2][..1] == [97] && [97 as CodeUnit][..0] == [];
    assert Chunks([97]) == Chunking([], [97]);
    assert Chunks([97, CR]) == Chunking([], [97]);
    assert [97 as CodeUnit] + [LF] == [97, LF];
    assert Chunks([97, CR, LF]) == Step(Chunking([], [97]), LF);
    assert Chunks([97, CR, LF]) == Chunking([[97, LF]], []);
  }

  /** A supplementary character read when the buffer is one unit short of
      BUFFER_SIZE is split: its high surrogate ends the flushed chunk and its low
      surrogate starts the next buffer. */
  lemma SurrogatePairSplit(st: Chunking, high: CodeUnit, low: CodeUnit)
    requires WellFormed(st) && |st.pending| == BUFFER_SIZE - 1
    requires 0xD800 <= high < 0xDC00 && 0xDC00 <= low < 0xE000
    ensures Step(st, high).chunks == st.chunks + [st.pending + [high]]
    ensures Step(Step(st, high), low) == Chunking(st.chunks + [st.pending + [high]], [low])
  {
  }

  /** The callbacks for one event: every listener, in list order. */
  function Fanout(listeners: seq<Listener>, output: bool, content: Text): (r: seq<Notification>)
    ensures |r| == |listeners|
    ensures forall i :: 0 <= i < |r| ==> r[i] == Notification(listeners[i], output, content)
  {
    seq(|listeners|, i requires 0 <= i < |listeners| => Notification(listeners[i], output, content))
  }

  /** The callbacks for a sequence of events, event by event. */
  function Notified(listeners: seq<Listener>, output: bool, chunks: seq<Text>): seq<Notification>
    decreases |chunks|
  {
    if |chunks| == 0 then []
    else Notified(listeners, output, chunks[..|chunks| - 1]) + Fanout(listeners, output, chunks[|chunks| - 1])
  }

  /** The callbacks for two runs of events are those of the first run followed by
      those of the second. */
  lemma {:induction false} NotifiedAppend(listeners: seq<Listener>, output: bool, a: seq<Text>, b: seq<Text>)
    ensures Notified(listeners, output, a + b) == Notified(listeners, output, a) + Notified(listeners, output, b)
    decreases |b|
  {
    if |b| > 0 {
      var b' := b[..|b| - 1];
      assert (a + b)[..|a + b| - 1] == a + b';
      assert (a + b)[|a + b| - 1] == b[|b| - 1];
      NotifiedAppend(listeners, output, a, b');
    } else {
      assert a + b == a;
    }
  }

  /** Each chunk reaches every listener exactly once and in order: the callbacks
      for chunk k come after those of the chunks before it and before those of the
      chunks after it. */
  lemma NotifiedSplit(listeners: seq<Listener>, output: bool, chunks: seq<Text>, k: int)
    requires 0 <= k < |chunks|
    ensures Notified(listeners, output, chunks)
         == Notified(listeners, output, chunks[..k]) + Fanout(listeners, output, chunks[k])
          + Notified(listeners, output, chunks[k + 1..])
  {
    assert chunks == chunks[..k] + [chunks[k]] + chunks[k + 1..];
    NotifiedAppend(listeners, output, chunks[..k] + [chunks[k]], chunks[k + 1..]);
    NotifiedAppend(listeners, output, chunks[..k], [chunks[k]]);
    assert [chunks[k]][..0] == [];
  }

  lemma NotifiedSnoc(listeners: seq<Listener>, output: bool, chunks: seq<Text>, c: Text)
    ensures Notified(listeners, output, chunks + [c]) == Notified(listeners, output, chunks) + Fanout(listeners, output, c)
  {
    assert (chunks + [c])[..|chunks|] == chunks;
  }

  lemma {:induction false} NotifiedLength(listeners: seq<Listener>, output: bool, chunks: seq<Text>)
    ensures |Notified(listeners, output, chunks)| == |chunks| * |listeners|
    decreases |chunks|
  {
    if |chunks| > 0 {
      NotifiedLength(listeners, output, chunks[..|chunks| - 1]);
    }
  }

  class Wrapper {
    var process: Option<Process>
    var name: Option<string>
    var listeners: seq<Listener>
    /** The StreamHandler threads started, in order. */
    var started: seq<Handler>
    /** The listener callbacks made, in order. */
    var notifications: seq<Notification>

    /** new ProcessWrapper(): no process, no name, no listener. */
    constructor ()
      ensures process.None? && name.None? && listeners == [] && started == [] && notifications == []
    {
      process := None;
      name := None;
      listeners := [];
      started := [];
      notifications := [];
    }

    /** new ProcessWrapper(process): setProcess on a fresh wrapper, which starts the
        two unnamed stream handlers. */
    constructor WithProcess(p: Process)
      ensures process == Some(p) && name.None? && listeners == [] && notifications == []
      ensures started == [Handler(None, true), Handler(None, false)]
    {
      process := Some(p);
      name := None;
      listeners := [];
      started := [Handler(None, true), Handler(None, false)];
      notifications := [];
    }

    /** setProcess: only the first non-null process is kept. It starts a handler for
        the output stream and one for the error stream, named after the wrapper when
        it has a name. A null process on a wrapper without one is stored and then
        dereferenced: `ok` is false for that NullPointerException. */
    method SetProcess(p: Option<Process>) returns (ok: bool)
      modifies this
      ensures name == old(name) && listeners == old(listeners) && notifications == old(notifications)
      ensures ok <==> old(process).Some? || p.Some?
      ensures old(process).Some? ==> process == old(process) && started == old(started)
      ensures old(process).None? && p.None? ==> process.None? && started == old(started)
      ensures old(process).None? && p.Some? ==> process == p
      ensures old(process).None? && p.Some? ==>
        started == old(started) + [Handler(Suffixed(name, "-out"), true), Handler(Suffixed(name, "-err"), false)]
    {
      ok := true;
      if process.None? {
        process := p;
        if p.None? {
          ok := false;
          return;
        }
        started := started + [Handler(Suffixed(name, "-out"), true), Handler(Suffixed(name, "-err"), false)];
      }
    }

    /** The thread name of a stream handler: the wrapper's name followed by `suffix`
        ("-out" or "-err"), or the default thread name when the wrapper has none. */
    static function Suffixed(name: Option<string>, suffix: string): (r: Option<string>)
      ensures name.None? <==> r.None?
      ensures name.Some? ==> |r.value| == |name.value| + |suffix|
      ensures name.Some? ==> r.value[..|name.value|] == name.value && r.value[|name.value|..] == suffix
    {
      if name.None? then None else Some(name.value + suffix)
    }

    method SetName(n: Option<string>)
      modifies this
      ensures name == n
      ensures process == old(process) && listeners == old(listeners)
      ensures started == old(started) && notifications == old(notifications)
    {
      name := n;
    }

    /** addListener: appended to the list (duplicates allowed). */
    method AddListener(l: Listener)
      modifies this
      ensures listeners == old(listeners) + [l]
      ensures process == old(process) && name == old(name)
      ensures started == old(started) && notifications == old(notifications)
    {
      listeners := listeners + [l];
    }

    /** removeListener: its first occurrence is removed, if any. */
    method RemoveListener(l: Listener)
      modifies this
      ensures listeners == RemoveFirst(old(listeners), l)
      ensures process == old(process) && name == old(name)
      ensures started == old(started) && notifications == old(notifications)
    {
      listeners := RemoveFirst(listeners, l);
    }

    /** fireStreamEvent: one event, passed to every listener in list order through
        the callback the flag selects. */
    method FireStreamEvent(output: bool, content: Text)
      modifies this
      ensures notifications == old(notifications) + Fanout(listeners, output, content)
      ensures process == old(process) && name == old(name)
      ensures listeners == old(listeners) && started == old(started)
    {
      ghost var before := notifications;
      var i := 0;
      while i < |listeners|
        invariant 0 <= i <= |listeners|
        invariant notifications == before + Fanout(listeners[..i], output, content)
        invariant process == old(process) && name == old(name)
        invariant listeners == old(listeners) && started == old(started)
      {
        notifications := notifications + [Notification(listeners[i], output, content)];
        assert listeners[..i + 1] == listeners[..i] + [listeners[i]];
        i := i + 1;
      }
      assert listeners[..i] == listeners;
    }

    /** StreamHandler.run on a stream yielding `input`: each chunk is fired as it is
        flushed, and the code units left in the buffer at the end are dropped. */
    method HandleStream(output: bool, input: Text)
      modifies this
      ensures notifications == old(notifications) + Notified(listeners, output, Chunks(input).chunks)
      ensures process == old(process) && name == old(name)
      ensures listeners == old(listeners) && started == old(started)
    {
      ghost var before := notifications;
      ghost var fired: seq<Text> := [];
      var sb: Text := [];
      var i := 0;
      while i < |input|
        invariant 0 <= i <= |input|
        invariant Chunks(input[..i]) == Chunking(fired, sb)
        invariant notifications == before + Notified(listeners, output, fired)
        invariant process == old(process) && name == old(name)
        invariant listeners == old(listeners) && started == old(started)
      {
        assert input[..i + 1][..i] == input[..i];
        assert Chunks(input[..i + 1]) == Step(Chunking(fired, sb), input[i]);
        sb, fired := ReadChar(output, input[i], sb, fired, before);
        i := i + 1;
      }
      assert input[..i] == input;
    }

    /** One code unit of StreamHandler.run: the buffer after it, and the chunk it
        flushes, fired, if any. */
    method ReadChar(output: bool, c: CodeUnit, sb: Text, ghost fired: seq<Text>, ghost before: seq<Notification>)
      returns (sb': Text, ghost fired': seq<Text>)
      requires notifications == before + Notified(listeners, output, fired)
      modifies this
      ensures Chunking(fired', sb') == Step(Chunking(fired, sb), c)
      ensures notifications == before + Notified(listeners, output, fired')
      ensures process == old(process) && name == old(name)
      ensures listeners == old(listeners) && started == old(started)
    {
      sb', fired' := sb, fired;
      if c != CR {
        sb' := sb + [c];
        if |sb'| >= BUFFER_SIZE || c == LF {
          FireStreamEvent(output, sb');
          NotifiedSnoc(listeners, output, fired, sb');
          fired' := fired + [sb'];
          sb' := [];
        }
      }
    }
  }
}
