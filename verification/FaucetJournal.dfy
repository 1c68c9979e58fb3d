/**
 The append-only journal: a hash chain over numbered entries, read back line by line.  The JSON
 encoding is a line size and an entry hash, both parameters.
 */
module FaucetJournal {
  import opened Basics
  import opened FaucetEvents

  datatype Entry = Entry(sequence: nat, event: Event, prevHash: string, hash: string)

  /** One line of the file: the entry it decodes to, or text that does not decode; and its length in bytes. */
  datatype Line = Record(entry: Entry, size: nat) | Garbled(size: nat)

  /** `entryHash` and the length of an entry's encoding. */
  datatype Codec = Codec(hashOf: (nat, Event, string) -> string, sizeOf: Entry -> nat)

  const GENESIS: string := "0000000000000000000000000000000000000000000000000000000000000000"

  /** The scanner's buffer holds a line with its newline. */
  const MAX_LINE: nat := 1024 * 1024

  // ---------------------------------------------------------------- chains

  function LastHash(lines: seq<Line>): string {
    if lines == [] || lines[|lines| - 1].Garbled? then GENESIS else lines[|lines| - 1].entry.hash
  }

  /** Line `i` continues the chain of the lines before it. */
  predicate Continues(codec: Codec, lines: seq<Line>, i: nat)
    requires i < |lines|
  {
    && lines[i].Record?
    && var e := lines[i].entry;
       e.prevHash == LastHash(lines[..i]) && e.sequence == i + 1
           && e.hash == codec.hashOf(e.sequence, e.event, e.prevHash)
  }

  predicate Whole(lines: seq<Line>) { forall i :: 0 <= i < |lines| ==> lines[i].Record? }

  predicate Chained(codec: Codec, lines: seq<Line>) {
    Whole(lines) && forall i :: 0 <= i < |lines| ==> Continues(codec, lines, i)
  }

  predicate Fits(line: Line) { line.size < MAX_LINE }

  predicate Readable(codec: Codec, lines: seq<Line>) {
    Chained(codec, lines) && forall i :: 0 <= i < |lines| ==> Fits(lines[i])
  }

  function Entries(lines: seq<Line>): (r: seq<Entry>)
    requires Whole(lines)
    ensures |r| == |lines| && forall i :: 0 <= i < |lines| ==> r[i] == lines[i].entry
  {
    seq(|lines|, i requires 0 <= i < |lines| => lines[i].entry)
  }

  function EventsOf(lines: seq<Line>): (r: seq<Event>)
    requires Whole(lines)
    ensures |r| == |lines| && forall i :: 0 <= i < |lines| ==> r[i] == lines[i].entry.event
  {
    seq(|lines|, i requires 0 <= i < |lines| => lines[i].entry.event)
  }

  // ---------------------------------------------------------------- reading

  datatype ReadError = TooLong | NotJson(line: nat) | BreaksChain(line: nat) | WrongSequence(line: nat)
      | WrongHash(line: nat)
  datatype ReadResult = Read(entries: seq<Entry>) | Rejected(error: ReadError)

  /** `ReadJournal`: accepts exactly the readable files, and stops at the first bad line. */
  method ReadJournal(codec: Codec, lines: seq<Line>) returns (r: ReadResult, ghost good: nat)
    ensures r.Read? <==> Readable(codec, lines)
    ensures r.Read? ==> r.entries == Entries(lines)
    ensures r.Rejected? ==> good < |lines| && Readable(codec, lines[..good]) && !Readable(codec, lines[..good + 1])
    ensures r.Rejected? ==> (r.error.TooLong? <==> !Fits(lines[good])) && (r.error.TooLong? || r.error.line == good + 1)
  {
    var entries: seq<Entry> := [];
    var prevHash := GENESIS;
    var n := 0;
    good := 0;
    while n < |lines|
      invariant 0 <= n <= |lines| && good == n
      invariant Readable(codec, lines[..n]) && prevHash == LastHash(lines[..n])
      invariant entries == Entries(lines[..n])
    {
      var line := lines[n];
      NextLine(codec, lines, n);
      if line.size >= MAX_LINE {
        return Rejected(TooLong), good;
      }
      if line.Garbled? {
        return Rejected(NotJson(n + 1)), good;
      }
      var entry := line.entry;
      if entry.prevHash != prevHash {
        return Rejected(BreaksChain(n + 1)), good;
      }
      if entry.sequence != n + 1 {
        return Rejected(WrongSequence(n + 1)), good;
      }
      if entry.hash != codec.hashOf(entry.sequence, entry.event, entry.prevHash) {
        return Rejected(WrongHash(n + 1)), good;
      }
      prevHash := entry.hash;
      entries := entries + [entry];
      n := n + 1;
      good := n;
    }
    assert lines[..n] == lines;
    return Read(entries), good;
  }

  /** One more line keeps a prefix readable exactly if it continues the chain and fits. */
  lemma NextLine(codec: Codec, lines: seq<Line>, n: nat)
    requires n < |lines| && Readable(codec, lines[..n])
    ensures Readable(codec, lines[..n + 1]) <==> Continues(codec, lines, n) && Fits(lines[n])
    ensures Readable(codec, lines) ==> Readable(codec, lines[..n + 1])
  {
    hide LastHash, Fits;
    var longer := lines[..n + 1];
    forall i | 0 <= i < n ensures Continues(codec, longer, i) && Fits(longer[i]) {
      assert Continues(codec, lines[..n], i) && Fits(lines[..n][i]);
      assert lines[..n][..i] == longer[..i];
    }
    assert longer[..n] == lines[..n];
    assert Continues(codec, longer, n) <==> Continues(codec, lines, n);
    if Readable(codec, lines) {
      assert Continues(codec, lines, n) && Fits(lines[n]);
    }
  }

  // ---------------------------------------------------------------- writing

  /**
   How the write and the sync of one line went.  A failed one may have put any number of bytes of the
   line and its newline into the file: none, a part, all but the newline, or everything.
   */
  datatype Write = Durable | Incomplete(bytes: nat)

  /** How many bytes of a line of the given size, newline included, reached the file. */
  function Reached(write: Write, size: nat): (n: nat)
    ensures n <= size + 1
  {
    if write.Durable? || write.bytes > size then size + 1 else write.bytes
  }

  /** Bytes go to the end of the file: onto the last line, if that lacks its newline. */
  function Glued(file: seq<Line>, terminated: bool, piece: Line): seq<Line> {
    if terminated || file == [] then file + [piece]
    else file[..|file| - 1] + [Garbled(file[|file| - 1].size + piece.size)]
  }

  /** A strict prefix of an entry's text does not decode; the whole text does, with or without a newline. */
  function Piece(line: Line, n: nat): Line { if n < line.size then Garbled(n) else line }

  function NewEntry(codec: Codec, lines: seq<Line>, event: Event): Entry {
    var prev := LastHash(lines);
    Entry(|lines| + 1, event, prev, codec.hashOf(|lines| + 1, event, prev))
  }

  function NewLine(codec: Codec, lines: seq<Line>, event: Event): Line {
    var entry := NewEntry(codec, lines, event);
    Record(entry, codec.sizeOf(entry))
  }

  lemma AppendedIsChained(codec: Codec, lines: seq<Line>, event: Event)
    requires Chained(codec, lines)
    ensures Chained(codec, lines + [NewLine(codec, lines, event)])
    ensures EventsOf(lines + [NewLine(codec, lines, event)]) == EventsOf(lines) + [event]
    ensures LastHash(lines + [NewLine(codec, lines, event)]) == NewEntry(codec, lines, event).hash
  {
    var longer := lines + [NewLine(codec, lines, event)];
    forall i | 0 <= i < |longer| ensures Continues(codec, longer, i) {
      assert longer[..i] == lines[..i];
      if i < |lines| {
        assert Continues(codec, lines, i);
      } else {
        assert lines[..i] == lines;
      }
    }
  }

  /** The file, whether its last line ends in a newline, and the chain's end in memory. */
  datatype Disk = Disk(file: seq<Line>, terminated: bool, sequence: nat, lastHash: string)
  {
    /** Memory agrees with the end of a chained file. */
    predicate Aligned(codec: Codec) { Chained(codec, file) && sequence == |file| && lastHash == LastHash(file) }

    /** And the next write starts a line of its own. */
    predicate InStep(codec: Codec) { Aligned(codec) && terminated }

    function Next(codec: Codec, event: Event): Entry {
      Entry(sequence + 1, event, lastHash, codec.hashOf(sequence + 1, event, lastHash))
    }

    /** One `Append`. */
    function After(codec: Codec, event: Event, write: Write): Disk {
      var entry := Next(codec, event);
      var line := Record(entry, codec.sizeOf(entry));
      var n := Reached(write, line.size);
      var written := if n == 0 then this
          else this.(file := Glued(file, terminated, Piece(line, n)), terminated := n > line.size);
      if write.Durable? then written.(sequence := entry.sequence, lastHash := entry.hash) else written
    }
  }

  class Journal {
    const codec: Codec
    /** The lines of the file on disk. */
    var file: seq<Line>
    var terminated: bool
    var sequence: nat
    var lastHash: string

    function Model(): Disk
      reads this
    {
      Disk(file, terminated, sequence, lastHash)
    }

    ghost predicate Aligned()
      reads this
    {
      Model().Aligned(codec)
    }

    ghost predicate InStep()
      reads this
    {
      Model().InStep(codec)
    }

    ghost function Events(): seq<Event>
      requires Aligned()
      reads this
    {
      EventsOf(file)
    }

    /** `OpenJournal` after the file was read. */
    constructor (codec: Codec, file: seq<Line>, terminated: bool, entries: seq<Entry>)
      requires Chained(codec, file) && entries == Entries(file)
      ensures this.codec == codec && this.file == file && this.terminated == terminated && Aligned()
    {
      this.codec, this.file, this.terminated := codec, file, terminated;
      this.sequence := if |entries| > 0 then entries[|entries| - 1].sequence else 0;
      this.lastHash := if |entries| > 0 then entries[|entries| - 1].hash else GENESIS;
      new;
      if |file| > 0 {
        assert Continues(codec, file, |file| - 1);
      }
    }

    /**
     `Append`: from a journal in step, a durable write extends the chain by the event; a failed one
     leaves memory alone, and the file too if no byte reached it.
     */
    method Append(event: Event, write: Write) returns (r: Result<Entry>)
      modifies this
      ensures Model() == old(Model()).After(codec, event, write)
      ensures r.Ok? <==> write.Durable?
      ensures r.Ok? ==> r.value.event == event
      ensures old(InStep()) && (write.Durable? || write == Incomplete(0)) ==>
        InStep() && Events() == old(Events()) + (if write.Durable? then [event] else [])
    {
      var hash := codec.hashOf(sequence + 1, event, lastHash);
      var entry := Entry(sequence + 1, event, lastHash, hash);
      var line := Record(entry, codec.sizeOf(entry));
      if InStep() {
        AppendedIsChained(codec, file, event);
      }
      var n := Reached(write, line.size);
      if n > 0 {
        file := Glued(file, terminated, Piece(line, n));
        terminated := n > line.size;
      }
      if write.Incomplete? {
        return Err("append journal entry");
      }
      sequence := entry.sequence;
      lastHash := entry.hash;
      return Ok(entry);
    }
  }

  /** `OpenJournal`: succeeds exactly on readable files and returns the entries it verified. */
  method OpenJournal(codec: Codec, file: seq<Line>, terminated: bool)
    returns (journal: Option<Journal>, entries: seq<Entry>)
    ensures journal.Some? <==> Readable(codec, file)
    ensures journal.Some? ==>
      && fresh(journal.value) && journal.value.codec == codec
      && journal.value.Model() == Disk(file, terminated, |file|, LastHash(file)) && journal.value.Aligned()
    ensures journal.Some? ==> entries == Entries(file)
  {
    var r, _ := ReadJournal(codec, file);
    if r.Rejected? {
      return None, [];
    }
    var j := new Journal(codec, file, terminated, r.entries);
    return Some(j), r.entries;
  }

  // ---------------------------------------------------------------- whole journals

  /** The file after a list of events was appended, across any number of reopenings. */
  function Written(codec: Codec, events: seq<Event>): seq<Line> {
    if events == [] then [] else
      var before := Written(codec, events[..|events| - 1]);
      before + [NewLine(codec, before, events[|events| - 1])]
  }

  /** What is read back is what was appended, exactly when every line fits the scanner's buffer. */
  lemma {:induction false} WrittenReadsBack(codec: Codec, events: seq<Event>)
    ensures Chained(codec, Written(codec, events)) && EventsOf(Written(codec, events)) == events
    ensures Readable(codec, Written(codec, events)) <==> forall line :: line in Written(codec, events) ==> Fits(line)
  {
    if events == [] {
    } else {
      var last := |events| - 1;
      WrittenReadsBack(codec, events[..last]);
      AppendedIsChained(codec, Written(codec, events[..last]), events[last]);
      assert events == events[..last] + [events[last]];
    }
    var lines := Written(codec, events);
    assert forall i :: 0 <= i < |lines| ==> lines[i] in lines;
  }

  /** A chained file is the file its events write: there is no other chain for them, up to line sizes. */
  ghost predicate Injective(codec: Codec) {
    && (forall n: nat, e, p, m: nat, f, q :: codec.hashOf(n, e, p) == codec.hashOf(m, f, q) ==>
         n == m && e == f && p == q)
    && (forall n: nat, e, p :: codec.hashOf(n, e, p) != GENESIS)
  }

  lemma GenesisIsEmpty(codec: Codec, lines: seq<Line>)
    requires Injective(codec) && Chained(codec, lines)
    ensures LastHash(lines) == GENESIS <==> lines == []
  {
    if lines != [] {
      assert Continues(codec, lines, |lines| - 1);
    }
  }

  /**
   Tamper evidence: with an injective hash, a journal whose last hash occurs at some point of another
   journal is that journal up to that point, entry by entry.
   */
  lemma {:induction false} LastHashFixesJournal(codec: Codec, a: seq<Line>, b: seq<Line>, k: nat)
    requires Injective(codec) && Chained(codec, a) && Chained(codec, b)
    requires k <= |b| && LastHash(a) == LastHash(b[..k])
    ensures |a| == k && Entries(a) == Entries(b)[..k]
  {
    ChainedPrefix(codec, b, k);
    GenesisIsEmpty(codec, a);
    GenesisIsEmpty(codec, b[..k]);
    if a == [] {
    } else {
      var last := |a| - 1;
      assert Continues(codec, a, last) && Continues(codec, b, k - 1);
      assert b[..k - 1] == b[..k][..k - 1];
      ChainedPrefix(codec, a, last);
      LastHashFixesJournal(codec, a[..last], b, k - 1);
      assert Entries(a) == Entries(a[..last]) + [a[last].entry];
      assert Entries(b)[..k] == Entries(b)[..k - 1] + [b[k - 1].entry];
    }
  }

  lemma ChainedPrefix(codec: Codec, lines: seq<Line>, n: nat)
    requires Chained(codec, lines) && n <= |lines|
    ensures Chained(codec, lines[..n])
  {
    forall i | 0 <= i < n ensures Continues(codec, lines[..n], i) {
      assert Continues(codec, lines, i);
      assert lines[..n][..i] == lines[..i];
    }
  }

  /** Two verified journals with one last hash are identical. */
  lemma SameLastHashSameJournal(codec: Codec, a: seq<Line>, b: seq<Line>)
    requires Injective(codec) && Chained(codec, a) && Chained(codec, b) && LastHash(a) == LastHash(b)
    ensures Entries(a) == Entries(b)
  {
    assert b[..|b|] == b;
    LastHashFixesJournal(codec, a, b, |b|);
    assert Entries(b)[..|b|] == Entries(b);
  }

  // ---------------------------------------------------------------- failed writes

  predicate AllFit(lines: seq<Line>) { forall i :: 0 <= i < |lines| ==> Fits(lines[i]) }

  datatype Action = Attempt(event: Event, write: Write) | Reopen

  /** A reopening that is refused leaves everything as it was. */
  function Acted(codec: Codec, d: Disk, action: Action): Disk {
    match action
    case Attempt(event, write) => d.After(codec, event, write)
    case Reopen => if Readable(codec, d.file) then d.(sequence := |d.file|, lastHash := LastHash(d.file)) else d
  }

  function ActedAll(codec: Codec, d: Disk, actions: seq<Action>): Disk {
    if actions == [] then d
    else Acted(codec, ActedAll(codec, d, actions[..|actions| - 1]), actions[|actions| - 1])
  }

  /**
   How a journal fares, judged by how each write went: in step; one line ahead of memory; ending in a
   whole line without its newline; or beyond repair.
   */
  datatype Phase = Clean | Ahead | Hanging | Ruined

  function NextPhase(codec: Codec, phase: Phase, d: Disk, action: Action): Phase {
    match action
    case Reopen => if phase == Ahead && AllFit(d.file) then Clean else phase
    case Attempt(event, write) =>
      var size := codec.sizeOf(d.Next(codec, event));
      var n := Reached(write, size);
      if n == 0 then phase
      else if phase != Clean || n < size then Ruined
      else if n == size then Hanging
      else if write.Durable? then Clean
      else Ahead
  }

  function PhaseAfter(codec: Codec, d: Disk, actions: seq<Action>): Phase {
    if actions == [] then Clean else
      var before := actions[..|actions| - 1];
      NextPhase(codec, PhaseAfter(codec, d, before), ActedAll(codec, d, before), actions[|actions| - 1])
  }

  /** What each phase means for the disk. */
  ghost predicate Tells(codec: Codec, phase: Phase, d: Disk) {
    match phase
    case Clean => d.InStep(codec)
    case Ahead => Chained(codec, d.file) && d.terminated && |d.file| == d.sequence + 1
    case Hanging => Chained(codec, d.file) && !d.terminated && d.file != []
    case Ruined => exists i :: 0 <= i < |d.file| && !Continues(codec, d.file, i)
  }

  /** A bad line stays bad, also when more is glued onto it. */
  lemma BadLineStays(codec: Codec, d: Disk, piece: Line, i: nat)
    requires i < |d.file| && !Continues(codec, d.file, i)
    ensures var longer := Glued(d.file, d.terminated, piece); i < |longer| && !Continues(codec, longer, i)
  {
    var longer := Glued(d.file, d.terminated, piece);
    assert longer[..i] == d.file[..i];
  }

  lemma AttemptTells(codec: Codec, phase: Phase, d: Disk, event: Event, write: Write)
    requires Tells(codec, phase, d)
    ensures Tells(codec, NextPhase(codec, phase, d, Attempt(event, write)), d.After(codec, event, write))
  {
    hide LastHash;
    var entry := d.Next(codec, event);
    var line := Record(entry, codec.sizeOf(entry));
    var n := Reached(write, line.size);
    var t := d.After(codec, event, write);
    if n > 0 {
      match phase
      case Clean =>
        if n < line.size {
          assert !Continues(codec, t.file, |d.file|);
        } else {
          AppendedIsChained(codec, d.file, event);
        }
      case Ahead => assert !Continues(codec, t.file, |d.file|);
      case Hanging => assert !Continues(codec, t.file, |d.file| - 1);
      case Ruined =>
        var i :| 0 <= i < |d.file| && !Continues(codec, d.file, i);
        BadLineStays(codec, d, Piece(line, n), i);
    }
  }

  lemma {:induction false} PhaseTells(codec: Codec, d: Disk, actions: seq<Action>)
    requires d.InStep(codec)
    ensures Tells(codec, PhaseAfter(codec, d, actions), ActedAll(codec, d, actions))
  {
    if actions == [] {
    } else {
      hide NextPhase, LastHash, Continues;
      var before, action := actions[..|actions| - 1], actions[|actions| - 1];
      PhaseTells(codec, d, before);
      var s, phase := ActedAll(codec, d, before), PhaseAfter(codec, d, before);
      if action.Attempt? {
        AttemptTells(codec, phase, s, action.event, action.write);
      } else {
        ReopenTells(codec, phase, s);
      }
    }
  }

  lemma ReopenTells(codec: Codec, phase: Phase, d: Disk)
    requires Tells(codec, phase, d)
    ensures Tells(codec, NextPhase(codec, phase, d, Reopen), Acted(codec, d, Reopen))
  {
    hide LastHash, Continues;
  }

  /**
   In every run of appends and reopenings the file can be opened again exactly when its writes did
   not ruin it and every line fits.  A write ruins it by leaving a part of a line, or by leaving
   anything at all after a whole line that memory does not know of or that lacks its newline.
   */
  lemma ReopensExactlyUnlessRuined(codec: Codec, d: Disk, actions: seq<Action>)
    requires d.InStep(codec)
    ensures Readable(codec, ActedAll(codec, d, actions).file) <==>
            PhaseAfter(codec, d, actions) != Ruined && AllFit(ActedAll(codec, d, actions).file)
  {
    hide PhaseAfter, ActedAll;
    PhaseTells(codec, d, actions);
  }

  /**
   A write that fails on its last byte, the newline, is counted as an entry by the next opening.  The
   first append after that succeeds, and destroys the journal.
   */
  lemma MissingNewlineIsFatalLater(codec: Codec, d: Disk, first: Event, second: Event)
    requires d.InStep(codec) && AllFit(d.file) && 0 < codec.sizeOf(d.Next(codec, first)) < MAX_LINE
    ensures var torn := Attempt(first, Incomplete(codec.sizeOf(d.Next(codec, first))));
            var reopened := ActedAll(codec, d, [torn, Reopen]);
            && Readable(codec, reopened.file) && reopened.Aligned(codec)
            && EventsOf(reopened.file) == EventsOf(d.file) + [first]
            && !Readable(codec, ActedAll(codec, d, [torn, Reopen, Attempt(second, Durable)]).file)
  {
    var torn := Attempt(first, Incomplete(codec.sizeOf(d.Next(codec, first))));
    var last := Attempt(second, Durable);
    assert [torn, Reopen, last][..2] == [torn, Reopen] && [torn, Reopen][..1] == [torn] && [torn][..0] == [];
    AppendedIsChained(codec, d.file, first);
    assert PhaseAfter(codec, d, [torn]) == Hanging;
    assert ActedAll(codec, d, [torn]).file == d.file + [NewLine(codec, d.file, first)];
    assert PhaseAfter(codec, d, [torn, Reopen]) == Hanging;
    assert PhaseAfter(codec, d, [torn, Reopen, last]) == Ruined;
    ReopensExactlyUnlessRuined(codec, d, [torn, Reopen]);
    ReopensExactlyUnlessRuined(codec, d, [torn, Reopen, last]);
  }
}
