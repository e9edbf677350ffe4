/**
 The receiver's append-only task journal: one JSON line per event, each carrying its
 sequence number, the digest of the line before it, and its own digest. The file is real
 bytes, and a crash may leave any prefix of the record that was being written.
 */
module Journal {
  import opened Basics

  const NEWLINE: Byte := 10

  datatype Content<E> = Content(sequence: nat, previous: string, event: E)

  datatype Line<E> = Line(content: Content<E>, digest: string)

  /** What the journal uses of JSON and SHA-256. `parse` fails on text that is not a valid record. */
  datatype Codec<!E> = Codec(render: Line<E> -> seq<Byte>,
                             parse: seq<Byte> -> Option<Line<E>>,
                             digest: Content<E> -> string)

  /** Printing is inverted by parsing, and a printed line holds no newline byte. */
  ghost predicate Faithful<E(!new)>(c: Codec<E>) {
    && (forall l :: c.parse(c.render(l)) == Some(l))
    && (forall l :: NEWLINE !in c.render(l))
  }

  ghost predicate Collisionless<E(!new)>(c: Codec<E>) {
    && (forall a, b :: c.digest(a) == c.digest(b) ==> a == b)
    && (forall a :: c.digest(a) != "")
  }

  // ---------------------------------------------------------------------------
  // Bytes and lines
  // ---------------------------------------------------------------------------

  /** The bytes after the last newline: a torn record, or nothing. */
  function Tail(data: seq<Byte>): seq<Byte> {
    if data == [] || data[|data| - 1] == NEWLINE then [] else Tail(data[..|data| - 1]) + [data[|data| - 1]]
  }

  /** The lines that are closed by a newline. */
  function Lines(data: seq<Byte>): seq<seq<Byte>> {
    if data == [] then []
    else
      var rest := data[..|data| - 1];
      if data[|data| - 1] == NEWLINE then Lines(rest) + [Tail(rest)] else Lines(rest)
  }

  /** The tail runs back from the end to the last newline. */
  lemma {:induction false} TailIsLine(data: seq<Byte>)
    ensures |Tail(data)| <= |data| && 0x0A !in Tail(data)
    ensures |Tail(data)| < |data| ==> data[|data| - |Tail(data)| - 1] == 0x0A
    ensures forall i :: 0 <= i < |Tail(data)| ==> Tail(data)[i] == data[|data| - |Tail(data)| + i]
  {
    if data != [] && data[|data| - 1] != NEWLINE { TailIsLine(data[..|data| - 1]); }
  }

  lemma {:induction false} TailSplits(data: seq<Byte>)
    ensures |Tail(data)| <= |data| && data == data[..|data| - |Tail(data)|] + Tail(data)
  {
    TailIsLine(data);
    hide Tail;
  }

  lemma {:induction false} LinesOfConcat(a: seq<Byte>, b: seq<Byte>)
    requires NEWLINE !in b
    ensures Lines(a + b) == Lines(a) && Tail(a + b) == Tail(a) + b
  {
    if b == [] {
      assert a + b == a;
    } else {
      var b' := b[..|b| - 1];
      LinesOfConcat(a, b');
      assert (a + b)[..|a + b| - 1] == a + b';
      assert b == b' + [b[|b| - 1]];
    }
  }

  lemma {:induction false} LinesOfRecord(a: seq<Byte>, b: seq<Byte>)
    requires NEWLINE !in b && Tail(a) == []
    ensures Lines(a + b + [NEWLINE]) == Lines(a) + [b] && Tail(a + b + [NEWLINE]) == []
  {
    LinesOfConcat(a, b);
    assert Tail(a) + b == b;
    assert (a + b + [NEWLINE])[..|a + b|] == a + b;
  }

  /** The offset just after the last newline. */
  method CompleteBytes(data: seq<Byte>) returns (bytes: nat)
    ensures bytes == |data| - |Tail(data)|
  {
    bytes := |data|;
    assert data[..bytes] == data;
    while bytes > 0 && data[bytes - 1] != NEWLINE
      invariant bytes <= |data|
      invariant Tail(data) == Tail(data[..bytes]) + data[bytes..]
    {
      assert data[..bytes][..bytes - 1] == data[..bytes - 1];
      assert data[bytes - 1..] == [data[bytes - 1]] + data[bytes..];
      bytes := bytes - 1;
    }
    if bytes > 0 { assert data[..bytes][bytes - 1] == NEWLINE; }
  }

  method SplitLines(data: seq<Byte>) returns (lines: seq<seq<Byte>>)
    ensures lines == Lines(data)
  {
    lines := [];
    var line: seq<Byte> := [];
    for i := 0 to |data|
      invariant lines == Lines(data[..i]) && line == Tail(data[..i])
    {
      assert data[..i + 1][..i] == data[..i];
      if data[i] == NEWLINE { lines, line := lines + [line], []; } else { line := line + [data[i]]; }
    }
    assert data[..|data|] == data;
  }

  // ---------------------------------------------------------------------------
  // Reading the journal
  // ---------------------------------------------------------------------------

  datatype Reading<E> = Reading(state: E, sequence: nat, previous: string)

  /** One line extends a reading, or the journal is refused. */
  function Extend<E>(c: Codec<E>, r: Reading<E>, line: seq<Byte>): Result<Reading<E>> {
    match c.parse(line)
    case None => Err
    case Some(l) =>
      if l.content.sequence == r.sequence + 1 && l.content.previous == r.previous && l.digest == c.digest(l.content)
      then Ok(Reading(l.content.event, l.content.sequence, l.digest))
      else Err
  }

  function Replay<E>(c: Codec<E>, lines: seq<seq<Byte>>, initial: E): Result<Reading<E>> {
    if lines == [] then Ok(Reading(initial, 0, ""))
    else
      match Replay(c, lines[..|lines| - 1], initial)
      case Err => Err
      case Ok(r) => Extend(c, r, lines[|lines| - 1])
  }

  lemma {:induction false} RefusalIsFinal<E>(c: Codec<E>, lines: seq<seq<Byte>>, k: nat, initial: E)
    requires k <= |lines| && Replay(c, lines[..k], initial).Err?
    ensures Replay(c, lines, initial).Err?
  {
    if k == |lines| {
      assert lines[..k] == lines;
    } else {
      assert lines[..|lines| - 1][..k] == lines[..k];
      RefusalIsFinal(c, lines[..|lines| - 1], k, initial);
    }
  }

  /** Reads the complete lines of the file, and the number of bytes they take. */
  method ReadJournal<E>(c: Codec<E>, data: seq<Byte>, initial: E) returns (r: Result<Reading<E>>, bytes: nat)
    ensures r == Replay(c, Lines(data), initial)
    ensures bytes == |data| - |Tail(data)|
  {
    hide Tail, Lines, Extend;
    bytes := CompleteBytes(data);
    TailIsLine(data);
    TailSplits(data);
    LinesOfConcat(data[..bytes], Tail(data));
    var lines := SplitLines(data[..bytes]);
    var reading := Reading(initial, 0, "");
    for i := 0 to |lines|
      invariant Replay(c, lines[..i], initial) == Ok(reading)
    {
      assert lines[..i + 1][..i] == lines[..i];
      var next := Extend(c, reading, lines[i]);
      if next.Err? {
        RefusalIsFinal(c, lines, i + 1, initial);
        return Err, bytes;
      }
      reading := next.value;
    }
    assert lines[..|lines|] == lines;
    r := Ok(reading);
  }

  // ---------------------------------------------------------------------------
  // What a journal of events looks like
  // ---------------------------------------------------------------------------

  function ContentOf<E>(c: Codec<E>, events: seq<E>): Content<E>
    requires events != []
    decreases |events|, 0
  {
    Content(|events|, Previous(c, events[..|events| - 1]), events[|events| - 1])
  }

  /** The digest of the last line, which stands for the whole history. */
  function Previous<E>(c: Codec<E>, events: seq<E>): string
    decreases |events|, 1
  {
    if events == [] then "" else c.digest(ContentOf(c, events))
  }

  function RecordOf<E>(c: Codec<E>, events: seq<E>): seq<Byte>
    requires events != []
  {
    c.render(Line(ContentOf(c, events), Previous(c, events))) + [NEWLINE]
  }

  function Render<E>(c: Codec<E>, events: seq<E>): seq<Byte> {
    if events == [] then [] else Render(c, events[..|events| - 1]) + RecordOf(c, events)
  }

  function StateOf<E>(events: seq<E>, initial: E): E {
    if events == [] then initial else events[|events| - 1]
  }

  function ReadingOf<E>(c: Codec<E>, events: seq<E>, initial: E): Reading<E> {
    Reading(StateOf(events, initial), |events|, Previous(c, events))
  }

  /** The events that a file holds, whatever wrote it. */
  function EventsIn<E>(c: Codec<E>, lines: seq<seq<Byte>>): seq<E> {
    if lines == [] then []
    else
      var rest := EventsIn(c, lines[..|lines| - 1]);
      match c.parse(lines[|lines| - 1])
      case Some(l) => rest + [l.content.event]
      case None => rest
  }

  function LineOf<E>(c: Codec<E>, events: seq<E>): seq<Byte>
    requires events != []
  {
    c.render(Line(ContentOf(c, events), Previous(c, events)))
  }

  lemma {:induction false} RenderedLines<E(!new)>(c: Codec<E>, events: seq<E>)
    requires Faithful(c)
    ensures Tail(Render(c, events)) == []
    ensures events != [] ==>
      Lines(Render(c, events)) == Lines(Render(c, events[..|events| - 1])) + [LineOf(c, events)]
  {
    if events != [] {
      var init := events[..|events| - 1];
      RenderedLines(c, init);
      LinesOfRecord(Render(c, init), LineOf(c, events));
      assert Render(c, events) == Render(c, init) + LineOf(c, events) + [NEWLINE];
    }
  }

  lemma {:induction false} RenderReplays<E(!new)>(c: Codec<E>, events: seq<E>, initial: E)
    requires Faithful(c)
    ensures Replay(c, Lines(Render(c, events)), initial) == Ok(ReadingOf(c, events, initial))
    ensures EventsIn(c, Lines(Render(c, events))) == events
  {
    if events != [] {
      var init := events[..|events| - 1];
      RenderReplays(c, init, initial);
      RenderedLines(c, events);
      var lines := Lines(Render(c, events));
      assert lines[..|lines| - 1] == Lines(Render(c, init)) && lines[|lines| - 1] == LineOf(c, events);
      assert events == init + [events[|events| - 1]];
    }
  }

  /** A fully written journal, with or without a torn tail, reads back as exactly its events. */
  lemma {:induction false} ReadsBack<E(!new)>(c: Codec<E>, events: seq<E>, tail: seq<Byte>, initial: E)
    requires Faithful(c) && NEWLINE !in tail
    ensures Tail(Render(c, events) + tail) == tail
    ensures Replay(c, Lines(Render(c, events) + tail), initial) == Ok(ReadingOf(c, events, initial))
    ensures EventsIn(c, Lines(Render(c, events) + tail)) == events
  {
    LinesOfConcat(Render(c, events), tail);
    RenderedLines(c, events);
    RenderReplays(c, events, initial);
    assert [] + tail == tail;
  }

  /** Any bytes that are accepted hold an unbroken digest chain over the events they hold. */
  lemma {:induction false} AcceptedIsChained<E>(c: Codec<E>, lines: seq<seq<Byte>>, initial: E)
    requires Replay(c, lines, initial).Ok?
    ensures Replay(c, lines, initial).value == ReadingOf(c, EventsIn(c, lines), initial)
    ensures |EventsIn(c, lines)| == |lines|
  {
    if lines != [] {
      var rest := lines[..|lines| - 1];
      AcceptedIsChained(c, rest, initial);
      var l := c.parse(lines[|lines| - 1]).value;
      var events := EventsIn(c, lines);
      assert events == EventsIn(c, rest) + [l.content.event];
      assert events[..|events| - 1] == EventsIn(c, rest);
      assert ContentOf(c, events) == l.content;
    }
  }

  lemma {:induction false} DigestDeterminesEvents<E(!new)>(c: Codec<E>, a: seq<E>, b: seq<E>)
    requires Collisionless(c) && Previous(c, a) == Previous(c, b)
    ensures a == b
  {
    if a == [] || b == [] {
    } else {
      assert ContentOf(c, a) == ContentOf(c, b);
      DigestDeterminesEvents(c, a[..|a| - 1], b[..|b| - 1]);
      assert a == a[..|a| - 1] + [a[|a| - 1]] && b == b[..|b| - 1] + [b[|b| - 1]];
    }
  }

  /** Two accepted files with the same last digest hold the same history: no line can be altered, dropped or moved. */
  lemma {:induction false} SameDigestSameHistory<E(!new)>(c: Codec<E>, data: seq<Byte>, data': seq<Byte>, initial: E,
        initial': E)
    requires Collisionless(c)
    requires var r, r' := Replay(c, Lines(data), initial), Replay(c, Lines(data'), initial');
      r.Ok? && r'.Ok? && r.value.previous == r'.value.previous
    ensures EventsIn(c, Lines(data)) == EventsIn(c, Lines(data'))
  {
    AcceptedIsChained(c, Lines(data), initial);
    AcceptedIsChained(c, Lines(data'), initial');
    DigestDeterminesEvents(c, EventsIn(c, Lines(data)), EventsIn(c, Lines(data')));
  }

  // ---------------------------------------------------------------------------
  // The file, appends and crashes
  // ---------------------------------------------------------------------------

  /** The record that an append to this file writes. */
  function NextRecord<E>(c: Codec<E>, r: Reading<E>, event: E): seq<Byte> {
    var content := Content(r.sequence + 1, r.previous, event);
    c.render(Line(content, c.digest(content))) + [NEWLINE]
  }

  /** The file after an append of which `written` bytes reached the disk. */
  function AfterAppend<E>(c: Codec<E>, data: seq<Byte>, initial: E, event: E, written: nat): seq<Byte> {
    match Replay(c, Lines(data), initial)
    case Err => data
    case Ok(r) =>
      TailSplits(data);
      var record := NextRecord(c, r, event);
      data[..|data| - |Tail(data)|] + record[..if written <= |record| then written else |record|]
  }

  /** The journal on disk. A file that does not exist is an empty one. */
  class JournalFile<!E> {
    var data: seq<Byte>

    constructor ()
      ensures data == []
    {
      data := [];
    }

    /** Truncates the torn tail, then appends one record. Nothing is written to a journal that is refused. */
    method AppendState(c: Codec<E>, initial: E, event: E) returns (done: bool)
      modifies this
      ensures done == Replay(c, Lines(old(data)), initial).Ok?
      ensures !done ==> data == old(data)
      ensures done ==>
        data == AfterAppend(c, old(data), initial, event,
                            |NextRecord(c, Replay(c, Lines(old(data)), initial).value, event)|)
    {
      var current, bytes := ReadJournal(c, data, initial);
      if current.Err? { return false; }
      var value := Content(current.value.sequence + 1, current.value.previous, event);
      data := data[..bytes];
      data := data + (c.render(Line(value, c.digest(value))) + [NEWLINE]);
      done := true;
    }

    /** The same append, cut off by a crash after `written` bytes of the record. */
    method AppendInterrupted(c: Codec<E>, initial: E, event: E, written: nat)
      modifies this
      ensures data == AfterAppend(c, old(data), initial, event, written)
    {
      var current, bytes := ReadJournal(c, data, initial);
      if current.Ok? {
        var value := Content(current.value.sequence + 1, current.value.previous, event);
        var record := c.render(Line(value, c.digest(value))) + [NEWLINE];
        data := data[..bytes];
        data := data + (if written < |record| then record[..written] else record);
      }
    }
  }

  /** A crash before the truncation is `Crash` without an append; otherwise some bytes were written. */
  datatype Operation<E> = Append(event: E, written: nat) | Crash

  function Perform<E>(c: Codec<E>, data: seq<Byte>, initial: E, op: Operation<E>): seq<Byte> {
    match op
    case Crash => data
    case Append(event, written) => AfterAppend(c, data, initial, event, written)
  }

  function History<E>(c: Codec<E>, initial: E, ops: seq<Operation<E>>): seq<Byte> {
    if ops == [] then [] else Perform(c, History(c, initial, ops[..|ops| - 1]), initial, ops[|ops| - 1])
  }

  /** The events whose record was written whole, newline included. */
  function Committed<E>(c: Codec<E>, ops: seq<Operation<E>>): seq<E> {
    if ops == [] then []
    else
      var before := Committed(c, ops[..|ops| - 1]);
      match ops[|ops| - 1]
      case Crash => before
      case Append(event, written) =>
        if written >= |RecordOf(c, before + [event])| then before + [event] else before
  }

  lemma {:induction false} NextRecordOf<E(!new)>(c: Codec<E>, events: seq<E>, initial: E, event: E)
    ensures NextRecord(c, ReadingOf(c, events, initial), event) == RecordOf(c, events + [event])
    ensures Render(c, events + [event]) == Render(c, events) + RecordOf(c, events + [event])
  {
    assert (events + [event])[..|events|] == events;
  }

  /** What an append of some bytes of the record leaves behind the complete lines. */
  lemma {:induction false} AppendToRendered<E(!new)>(c: Codec<E>, events: seq<E>, tail: seq<Byte>, initial: E,
        event: E, written: nat)
    requires Faithful(c) && NEWLINE !in tail
    ensures var record := RecordOf(c, events + [event]);
      AfterAppend(c, Render(c, events) + tail, initial, event, written)
        == Render(c, events) + record[..if written <= |record| then written else |record|]
  {
    ReadsBack(c, events, tail, initial);
    NextRecordOf(c, events, initial, event);
    hide Replay, Lines, Tail, EventsIn, Render, RecordOf, NextRecord, ReadingOf, Faithful;
    var data := Render(c, events) + tail;
    assert data[..|data| - |tail|] == Render(c, events);
  }

  lemma {:induction false} RecordHasOneNewline<E(!new)>(c: Codec<E>, events: seq<E>, n: nat)
    requires Faithful(c) && events != [] && n < |RecordOf(c, events)|
    ensures NEWLINE !in RecordOf(c, events)[..n]
  {
    assert RecordOf(c, events)[..n] == LineOf(c, events)[..n];
  }

  lemma {:induction false} AppendRefines<E(!new)>(c: Codec<E>, events: seq<E>, tail: seq<Byte>, initial: E, event: E,
        written: nat)
      returns (tail': seq<Byte>)
    requires Faithful(c) && NEWLINE !in tail
    ensures NEWLINE !in tail'
    ensures AfterAppend(c, Render(c, events) + tail, initial, event, written)
      == Render(c, if written >= |RecordOf(c, events + [event])| then events + [event] else events) + tail'
  {
    hide AfterAppend, Render, RecordOf, Faithful;
    AppendToRendered(c, events, tail, initial, event, written);
    NextRecordOf(c, events, initial, event);
    var record := RecordOf(c, events + [event]);
    if written >= |record| {
      tail' := [];
      assert record[..|record|] == record;
      assert Render(c, events + [event]) + [] == Render(c, events + [event]);
    } else {
      tail' := record[..written];
      RecordHasOneNewline(c, events + [event], written);
    }
  }

  /**
   The byte journal refines an append-only sequence of events: after any appends and
   crashes the file is the rendering of the committed events and a torn tail, and reading
   it succeeds and yields exactly those events.
   */
  lemma {:induction false} HistoryRefines<E(!new)>(c: Codec<E>, initial: E,
        ops: seq<Operation<E>>) returns (tail: seq<Byte>)
    requires Faithful(c)
    ensures NEWLINE !in tail
    ensures History(c, initial, ops) == Render(c, Committed(c, ops)) + tail
    ensures Replay(c, Lines(History(c, initial, ops)), initial) == Ok(ReadingOf(c, Committed(c, ops), initial))
  {
    tail := [];
    if ops != [] {
      tail := HistoryRefines(c, initial, ops[..|ops| - 1]);
      match ops[|ops| - 1]
      case Crash =>
      case Append(event, written) =>
        tail := AppendRefines(c, Committed(c, ops[..|ops| - 1]), tail, initial, event, written);
    }
    ReadsBack(c, Committed(c, ops), tail, initial);
  }
}
