/** The journal as bytes in a file: one JSON record per line, where only a newline commits a record. */
module SchedulerJournalFile {
  import opened SchedulerModel
  import opened Options

  type Byte = b: int | 0 <= b < 256
  const NEWLINE: Byte := 10
  const MAX_JOURNAL_BYTES: nat := 16 * 1024 * 1024
  const MAX_EVENT_BYTES: nat := 64 * 1024

  /** `JSON.stringify` and `parseEvent`. */
  datatype Codec = Codec(serialize: Event -> seq<Byte>, parse: seq<Byte> -> Option<Event>)

  /** JSON text has no raw newline, and an event whose own text is accepted is read back unchanged. */
  ghost predicate ValidCodec(codec: Codec) {
    && (forall e :: NEWLINE !in codec.serialize(e))
    && (forall e :: codec.parse(codec.serialize(e)).Some? ==> codec.parse(codec.serialize(e)).value == e)
  }

  // ---------- reading ----------

  /** `lastIndexOf(0x0a) + 1`. */
  function CommittedLength(bytes: seq<Byte>): (n: nat)
    ensures n <= |bytes|
    ensures n > 0 ==> bytes[n - 1] == NEWLINE
    ensures NEWLINE !in bytes[n..]
  {
    if bytes == [] then 0
    else if bytes[|bytes| - 1] == NEWLINE then |bytes|
    else
      var n := CommittedLength(bytes[..|bytes| - 1]);
      assert bytes[n..] == bytes[..|bytes| - 1][n..] + [bytes[|bytes| - 1]];
      n
  }

  /** The lines of a text that ends with a newline. */
  function Lines(bytes: seq<Byte>, line: seq<Byte>): seq<seq<Byte>> {
    if bytes == [] then []
    else if bytes[0] == NEWLINE then [line] + Lines(bytes[1..], [])
    else Lines(bytes[1..], line + [bytes[0]])
  }

  datatype ReadResult = Events(events: Journal) | Corrupt | TooLarge

  function ParseLines(codec: Codec, lines: seq<seq<Byte>>): ReadResult {
    if lines == [] then Events([]) else
    var first := codec.parse(lines[0]);
    var rest := ParseLines(codec, lines[1..]);
    if |lines[0]| > MAX_EVENT_BYTES || first.None? || !rest.Events? then Corrupt else Events([first.value] + rest.events)
  }

  function ParseCommitted(codec: Codec, bytes: seq<Byte>): ReadResult {
    ParseLines(codec, Lines(bytes[..CommittedLength(bytes)], []))
  }

  /** `readEvents`; a missing file is an empty journal. */
  function ReadEvents(codec: Codec, file: Option<seq<Byte>>): ReadResult {
    if file.None? then Events([])
    else if |file.value| > MAX_JOURNAL_BYTES then TooLarge
    else ParseCommitted(codec, file.value)
  }

  // ---------- what the file holds ----------

  function Record(codec: Codec, e: Event): seq<Byte> { codec.serialize(e) + [NEWLINE] }

  function Encode(codec: Codec, events: Journal): seq<Byte> {
    if events == [] then [] else Record(codec, events[0]) + Encode(codec, events[1..])
  }

  predicate Storable(codec: Codec, e: Event) {
    codec.parse(codec.serialize(e)) == Some(e) && |codec.serialize(e)| + 1 <= MAX_EVENT_BYTES
  }

  ghost predicate Holds(codec: Codec, bytes: seq<Byte>, events: Journal, tail: seq<Byte>) {
    && bytes == Encode(codec, events) + tail && NEWLINE !in tail
    && |bytes| <= MAX_JOURNAL_BYTES
    && forall i :: 0 <= i < |events| ==> Storable(codec, events[i])
  }

  /** The file is the records of `events` and possibly the torn beginning of one more. */
  ghost predicate JournalFile(codec: Codec, file: Option<seq<Byte>>, events: Journal) {
    match file
    case None => events == []
    case Some(bytes) => exists tail :: Holds(codec, bytes, events, tail)
  }

  lemma {:induction false} LinesSplit(text: seq<Byte>, rest: seq<Byte>, line: seq<Byte>)
    requires NEWLINE !in text
    ensures Lines(text + [NEWLINE] + rest, line) == [line + text] + Lines(rest, [])
  {
    var all := text + [NEWLINE] + rest;
    if text == [] {
      assert all[0] == NEWLINE && all[1..] == rest;
      assert line + text == line;
    } else {
      assert all[0] == text[0] && all[1..] == text[1..] + [NEWLINE] + rest;
      LinesSplit(text[1..], rest, line + [text[0]]);
      assert line + [text[0]] + text[1..] == line + text;
    }
  }

  lemma {:induction false} ParseEncoded(codec: Codec, events: Journal)
    requires ValidCodec(codec) && forall i :: 0 <= i < |events| ==> Storable(codec, events[i])
    ensures ParseLines(codec, Lines(Encode(codec, events), [])) == Events(events)
  {
    if events != [] {
      var text, rest := codec.serialize(events[0]), Encode(codec, events[1..]);
      LinesSplit(text, rest, []);
      assert Encode(codec, events) == text + [NEWLINE] + rest;
      assert [] + text == text;
      var lines := Lines(Encode(codec, events), []);
      assert lines[0] == text && lines[1..] == Lines(rest, []);
      ParseEncoded(codec, events[1..]);
      assert [events[0]] + events[1..] == events;
    }
  }

  lemma {:induction false} EncodeEndsWithNewline(codec: Codec, events: Journal)
    ensures Encode(codec, events) != [] ==> Encode(codec, events)[|Encode(codec, events)| - 1] == NEWLINE
    ensures Encode(codec, events) == [] <==> events == []
  {
    if events != [] { EncodeEndsWithNewline(codec, events[1..]); }
  }

  lemma {:induction false} CommittedOf(committed: seq<Byte>, tail: seq<Byte>)
    requires NEWLINE !in tail
    requires committed != [] ==> committed[|committed| - 1] == NEWLINE
    ensures CommittedLength(committed + tail) == |committed|
  {
    var bytes := committed + tail;
    if tail != [] {
      assert bytes[..|bytes| - 1] == committed + tail[..|tail| - 1];
      CommittedOf(committed, tail[..|tail| - 1]);
    } else {
      assert bytes == committed;
    }
  }

  lemma {:induction false} CommittedPart(codec: Codec, bytes: seq<Byte>, events: Journal)
    requires ValidCodec(codec) && JournalFile(codec, Some(bytes), events)
    ensures |bytes| <= MAX_JOURNAL_BYTES
    ensures bytes[..CommittedLength(bytes)] == Encode(codec, events)
    ensures ParseLines(codec, Lines(bytes[..CommittedLength(bytes)], [])) == Events(events)
    ensures JournalFile(codec, Some(Encode(codec, events)), events)
  {
    var tail :| Holds(codec, bytes, events, tail);
    var committed := Encode(codec, events);
    EncodeEndsWithNewline(codec, events);
    CommittedOf(committed, tail);
    assert bytes[..|committed|] == committed;
    ParseEncoded(codec, events);
    assert Holds(codec, committed, events, []);
  }

  /** Whatever torn tail a crash left, reading gives the committed events and never calls them corrupt. */
  lemma {:induction false} ReadsCommitted(codec: Codec, file: Option<seq<Byte>>, events: Journal)
    requires ValidCodec(codec) && JournalFile(codec, file, events)
    ensures ReadEvents(codec, file) == Events(events)
  {
    if file.Some? { CommittedPart(codec, file.value, events); }
  }

  lemma {:induction false} EncodeSnoc(codec: Codec, events: Journal, e: Event)
    ensures Encode(codec, events + [e]) == Encode(codec, events) + Record(codec, e)
  {
    if events == [] {
      assert [] + [e] == [e] && [e][1..] == [];
      assert Record(codec, e) + [] == Record(codec, e) && [] + Record(codec, e) == Record(codec, e);
    } else {
      assert (events + [e])[1..] == events[1..] + [e];
      EncodeSnoc(codec, events[1..], e);
    }
  }

  // ---------- appending ----------

  /** Every content the file passes through while a record is appended after the committed part: as it was,
      cut back to the committed part, or with some of the record's bytes after it. */
  ghost predicate Midway(codec: Codec, before: seq<Byte>, events: Journal, e: Event, now: seq<Byte>) {
    now == before ||
    exists k :: 0 <= k <= |Record(codec, e)| && now == Encode(codec, events) + Record(codec, e)[..k]
  }

  /** A crash at any of those points leaves the old events, or the old events and the new one once the
      newline is down; in both cases the file is again a journal file. */
  lemma {:induction false} CrashSafe(codec: Codec, before: seq<Byte>, events: Journal, e: Event, now: seq<Byte>)
    requires ValidCodec(codec) && JournalFile(codec, Some(before), events) && Storable(codec, e)
    requires |Encode(codec, events)| + |Record(codec, e)| <= MAX_JOURNAL_BYTES
    requires Midway(codec, before, events, e, now)
    ensures JournalFile(codec, Some(now), events) || JournalFile(codec, Some(now), events + [e])
    ensures JournalFile(codec, Some(now), events + [e]) <==> now == Encode(codec, events) + Record(codec, e)
  {
    var committed, record := Encode(codec, events), Record(codec, e);
    if now == before {
      NotBoth(codec, now, events, e);
    } else {
      var k :| 0 <= k <= |record| && now == committed + record[..k];
      if k == |record| {
        assert record[..k] == record;
        EncodeSnoc(codec, events, e);
        assert Holds(codec, now, events + [e], []);
      } else {
        assert record[..k] == codec.serialize(e)[..k];
        forall b | b in record[..k] ensures b in codec.serialize(e) {}
        assert Holds(codec, now, events, record[..k]);
        NotBoth(codec, now, events, e);
      }
    }
  }

  lemma {:induction false} TailIsNotRecord(a: seq<Byte>, tail: seq<Byte>, record: seq<Byte>)
    requires NEWLINE !in tail && NEWLINE in record
    ensures a + tail != a + record
  {
    assert (a + tail)[|a|..] == tail;
    assert (a + record)[|a|..] == record;
  }

  lemma {:induction false} NotBoth(codec: Codec, now: seq<Byte>, events: Journal, e: Event)
    requires ValidCodec(codec) && JournalFile(codec, Some(now), events)
    ensures !JournalFile(codec, Some(now), events + [e])
    ensures now != Encode(codec, events) + Record(codec, e)
  {
    ReadsCommitted(codec, Some(now), events);
    assert |events| != |events + [e]|;
    if JournalFile(codec, Some(now), events + [e]) {
      ReadsCommitted(codec, Some(now), events + [e]);
    }
    var tail :| Holds(codec, now, events, tail);
    assert Record(codec, e)[|codec.serialize(e)|] == NEWLINE;
    TailIsNotRecord(Encode(codec, events), tail, Record(codec, e));
  }

  /** The event can be stored, and there is room for its record. */
  predicate Fits(codec: Codec, events: Journal, e: Event) {
    Storable(codec, e) && |Encode(codec, events)| + |Record(codec, e)| <= MAX_JOURNAL_BYTES
  }

  /** No write call takes nothing. */
  ghost predicate TakesAll(accepted: nat -> nat) { forall i :: accepted(i) >= 1 }

  datatype AppendResult = Written | InvalidEvent | EventTooLarge | JournalTooLarge | JournalCorrupt | ShortWrite | NotSynced | RecordNotSynced | Died

  class FileSchedulerJournal {
    const codec: Codec
    var file: Option<seq<Byte>>
    var fuse: nat        // changes of the file that still happen before the process dies

    constructor (codec: Codec, file: Option<seq<Byte>>, fuse: nat)
      ensures this.codec == codec && this.file == file && this.fuse == fuse
    {
      this.codec, this.file, this.fuse := codec, file, fuse;
    }

    /** Opens the file, creating it empty when it is missing. */
    method Open(ghost events: Journal) returns (alive: bool)
      requires JournalFile(codec, file, events)
      modifies this
      ensures JournalFile(codec, file, events) && (alive ==> file.Some?)
      ensures old(fuse) - 1 <= fuse <= old(fuse) && (!alive ==> old(fuse) == 0)
    {
      if file.Some? { return true; }
      if fuse == 0 { return false; }
      fuse := fuse - 1;
      file := Some([]);
      assert Holds(codec, [], [], []);
      return true;
    }

    /** Checks the committed part and cuts a torn tail off. `synced`: making the cut durable succeeds. */
    method Repair(synced: bool, ghost events: Journal) returns (r: AppendResult)
      requires ValidCodec(codec) && file.Some? && JournalFile(codec, file, events)
      modifies this
      ensures r == Written || r == Died || (r == NotSynced && !synced)
      ensures JournalFile(codec, file, events)
      ensures r == Written || r == NotSynced ==> file == Some(Encode(codec, events))
      ensures old(fuse) - 1 <= fuse <= old(fuse) && (r == Died ==> old(fuse) == 0)
    {
      var contents := file.value;
      CommittedPart(codec, contents, events);
      if |contents| > MAX_JOURNAL_BYTES { return JournalTooLarge; }
      var n := CommittedLength(contents);
      if !ParseLines(codec, Lines(contents[..n], [])).Events? { return JournalCorrupt; }
      if n != |contents| {
        if fuse == 0 { return Died; }
        fuse := fuse - 1;
        file := Some(contents[..n]);
        if !synced { return NotSynced; }
      }
      return Written;
    }

    /** `append`. `accepted(i)` is how many bytes the i-th write call takes; `cutSynced` and `recordSynced` whether the
        repaired and the extended file could be made durable. A record that could not is on file all the same. */
    method Append(e: Event, accepted: nat -> nat, cutSynced: bool, recordSynced: bool, ghost events: Journal)
      returns (r: AppendResult)
      requires ValidCodec(codec) && JournalFile(codec, file, events)
      modifies this
      ensures JournalFile(codec, file, events) || JournalFile(codec, file, events + [e])
      ensures r == Written ==> file == Some(Encode(codec, events + [e])) && JournalFile(codec, file, events + [e])
      ensures r == RecordNotSynced ==> !recordSynced && file == Some(Encode(codec, events + [e]))
      ensures r == Written ==> recordSynced
      ensures r != Written && r != RecordNotSynced ==> JournalFile(codec, file, events)
      ensures r != JournalCorrupt
      ensures r == InvalidEvent <==> |codec.serialize(e)| > MAX_EVENT_BYTES || codec.parse(codec.serialize(e)).None?
      ensures r == EventTooLarge ==> |codec.serialize(e)| + 1 > MAX_EVENT_BYTES
      ensures r == JournalTooLarge ==> |Encode(codec, events)| + |Record(codec, e)| > MAX_JOURNAL_BYTES
      ensures Fits(codec, events, e) && TakesAll(accepted) && cutSynced && recordSynced && |Record(codec, e)| + 2 <= old(fuse) ==>
                r == Written
    {
      var text := codec.serialize(e);
      if |text| > MAX_EVENT_BYTES || codec.parse(text).None? { return InvalidEvent; }
      var record := text + [NEWLINE];
      var alive := Open(events);
      if !alive { return Died; }
      if |record| > MAX_EVENT_BYTES { return EventTooLarge; }
      r := Repair(cutSynced, events);
      if r != Written { return; }
      if |file.value| + |record| > MAX_JOURNAL_BYTES { return JournalTooLarge; }
      r := WriteRecord(e, accepted, events);
      if r == Written && !recordSynced { return RecordNotSynced; }
    }

    /** The write loop: writes may be short, and the process may die between any two of them. */
    method WriteRecord(e: Event, accepted: nat -> nat, ghost events: Journal) returns (r: AppendResult)
      requires ValidCodec(codec) && Storable(codec, e)
      requires file == Some(Encode(codec, events)) && JournalFile(codec, file, events)
      requires |Encode(codec, events)| + |Record(codec, e)| <= MAX_JOURNAL_BYTES
      modifies this
      ensures r == Written || r == ShortWrite || r == Died
      ensures r == Written ==> file == Some(Encode(codec, events + [e])) && JournalFile(codec, file, events + [e])
      ensures r != Written ==> JournalFile(codec, file, events)
      ensures TakesAll(accepted) && old(fuse) >= |Record(codec, e)| ==> r == Written
    {
      ghost var before := file.value;
      var record := Record(codec, e);
      var written, calls := 0, 0;
      assert file.value == before + record[..0];
      while written < |record|
        invariant 0 <= written <= |record|
        invariant file == Some(before + record[..written])
        invariant old(fuse) - written <= fuse
        decreases |record| - written
      {
        var n := accepted(calls);
        calls := calls + 1;
        if fuse == 0 || n < 1 {
          CrashSafe(codec, before, events, e, file.value);
          assert (before + record[..written])[|before|..] == record[..written];
          assert (before + record)[|before|..] == record;
          return if fuse == 0 then Died else ShortWrite;
        }
        fuse := fuse - 1;
        var end := if n > |record| - written then |record| else written + n;
        assert record[..end] == record[..written] + record[written..end];
        assert before + record[..end] == before + record[..written] + record[written..end];
        file := Some(file.value + record[written..end]);
        written := end;
      }
      assert record[..written] == record;
      CrashSafe(codec, before, events, e, file.value);
      EncodeSnoc(codec, events, e);
      return Written;
    }
  }

  // ---------- a scheduler on the file ----------

  /** When an invocation dies inside one of its appends, the file reads back as the journal with a prefix of
      what the invocation appends: the histories of the scheduler are those of its file. */
  lemma {:induction false} CrashedInvocationOnFile(codec: Codec, j: Journal, inp: Inputs, k: nat, before: seq<Byte>, now: seq<Byte>)
    requires ValidCodec(codec) && k < |Appended(j, inp)|
    requires var events := j + Appended(j, inp)[..k]; var e := Appended(j, inp)[k];
      && JournalFile(codec, Some(before), events) && Storable(codec, e)
      && |Encode(codec, events)| + |Record(codec, e)| <= MAX_JOURNAL_BYTES
      && Midway(codec, before, events, e, now)
    ensures exists cut :: k <= cut <= k + 1 && ReadEvents(codec, Some(now)) == Events(j + Appended(j, inp)[..cut])
  {
    var all := Appended(j, inp);
    var events, e := j + all[..k], all[k];
    CrashSafe(codec, before, events, e, now);
    assert all[..k + 1] == all[..k] + [e];
    assert j + all[..k + 1] == events + [e];
    if JournalFile(codec, Some(now), events) {
      ReadsCommitted(codec, Some(now), events);
    } else {
      ReadsCommitted(codec, Some(now), events + [e]);
    }
  }
}
