/** The log reporter: lines wait in a queue until the log file opens, and the file rotates by size. */
module LogWriter {
  import opened Basics
  import opened LogRotation

  const NEWLINE: byte := 10
  const MAX_BUFFERED := 10000

  /**
   An open log's writer counts its bytes, and buffers: the last `unflushed` bytes of what it accepted have not
   reached the file yet.
   */
  datatype WriteState = Buffering(pending: seq<Bytes>) | Writing(bytesWritten: nat, unflushed: nat)

  /** While the log is open, file `0` is what is in the file and what its writer has accepted since. */
  datatype Log = Log(files: LogFiles, state: WriteState)

  datatype Limits = Limits(maxBytes: nat, maxRotated: nat)

  /**
   What happens around one line: whether half a second has passed since the last attempt to open the file,
   whether opening it and reading its length works, where the writes of the lines are cut short, how much is
   left unflushed, how much of that closing the file loses, how rotating goes, and whether opening the file
   again and reading its length works.
   */
  datatype Chance = Chance(
    due: bool, opens: bool, sized: bool, cut: nat -> Option<nat>, unflushed: nat, lost: nat,
    rotation: Luck, reopens: bool, resized: bool)

  function Line(text: Bytes): Bytes
  {
    text + [NEWLINE]
  }

  function Size(records: Records): nat
  {
    if records == [] then 0 else Size(records[..|records| - 1]) + |records[|records| - 1]|
  }

  function Min(a: nat, b: nat): nat
  {
    if a < b then a else b
  }

  /** What the writer accepts of a line whose write is cut short there, if it is. */
  function Accepted(line: Bytes, cut: Option<nat>): Bytes
  {
    if cut.Some? && cut.value < |line| then line[..cut.value] else line
  }

  function AllAccepted(texts: seq<Bytes>, cut: nat -> Option<nat>): Records
  {
    if texts == [] then []
    else
      var n := |texts| - 1;
      AllAccepted(texts[..n], cut) + [Accepted(Line(texts[n]), cut(n))]
  }

  function Opened(files: LogFiles): (r: LogFiles)
    ensures 0 in r
  {
    if 0 in files then files else files[0 := []]
  }

  function Written(files: LogFiles, records: Records): (r: LogFiles)
    requires 0 in files
    ensures 0 in r
  {
    files[0 := files[0] + records]
  }

  /** The records without their last `n` bytes. */
  function Truncated(records: Records, n: nat): Records
    decreases |records|
  {
    if n == 0 || records == [] then records
    else
      var last := records[|records| - 1];
      if |last| <= n then Truncated(records[..|records| - 1], n - |last|)
      else records[..|records| - 1] + [last[..|last| - n]]
  }

  function Closed(files: LogFiles, lost: nat): (r: LogFiles)
    requires 0 in files
    ensures 0 in r
  {
    files[0 := Truncated(files[0], lost)]
  }

  function Length(files: LogFiles, works: bool): nat
    requires 0 in files
  {
    if works then Size(files[0]) else 0
  }

  function RotatedIfNeeded(limits: Limits, files: LogFiles, bytesWritten: nat, unflushed: nat, chance: Chance): Log
    requires 0 in files
  {
    if bytesWritten < limits.maxBytes then Log(files, Writing(bytesWritten, unflushed))
    else
      var rotated := Rotated(Closed(files, Min(chance.lost, unflushed)), limits.maxRotated, chance.rotation);
      if chance.reopens then Log(Opened(rotated), Writing(Length(Opened(rotated), chance.resized), 0))
      else Log(rotated, Buffering([]))
  }

  function Queued(pending: seq<Bytes>, text: Bytes): seq<Bytes>
  {
    (if |pending| >= MAX_BUFFERED then pending[1..] else pending) + [text]
  }

  /** Everything there is to write to the file now, if it is open or opens. */
  function ToWrite(log: Log, text: Bytes): seq<Bytes>
  {
    if log.state.Buffering? then log.state.pending + [text] else [text]
  }

  predicate Writes(log: Log, chance: Chance)
  {
    log.state.Writing? || (chance.due && chance.opens)
  }

  /** The files once those lines are written, and the counter: it counts whole lines, written or not. */
  function AfterWriting(log: Log, text: Bytes, chance: Chance): (files: LogFiles)
    ensures 0 in files
  {
    Written(Opened(log.files), AllAccepted(ToWrite(log, text), chance.cut))
  }

  function Counter(log: Log, text: Bytes, chance: Chance): nat
  {
    (if log.state.Writing? then log.state.bytesWritten else Length(Opened(log.files), chance.sized))
    + Size(Map(ToWrite(log, text), Line))
  }

  function Unflushed(log: Log, text: Bytes, chance: Chance): nat
  {
    Min(chance.unflushed,
        (if log.state.Writing? then log.state.unflushed else 0) + Size(AllAccepted(ToWrite(log, text), chance.cut)))
  }

  /** The log after one more line. */
  function Emitted(limits: Limits, log: Log, text: Bytes, chance: Chance): Log
  {
    if Writes(log, chance) then
      RotatedIfNeeded(limits, AfterWriting(log, text, chance), Counter(log, text, chance),
                      Unflushed(log, text, chance), chance)
    else
      Log(log.files, Buffering(Queued(log.state.pending, text)))
  }

  /** An open log exists, and no more is unflushed than it holds. */
  predicate OpenExists(log: Log)
  {
    log.state.Writing? ==> 0 in log.files && log.state.unflushed <= Size(log.files[0])
  }

  lemma {:induction false} SizeAppend(a: Records, b: Records)
    ensures Size(a + b) == Size(a) + Size(b)
  {
    if b == [] {
      assert a + b == a;
    } else {
      assert (a + b)[..|a + b| - 1] == a + b[..|b| - 1];
      SizeAppend(a, b[..|b| - 1]);
    }
  }

  lemma SizeOne(record: Bytes)
    ensures Size([record]) == |record|
  {
    assert [record][..0] == [];
  }

  lemma WrittenNothing(files: LogFiles)
    requires 0 in files
    ensures Written(files, []) == files
  {
    assert files[0] + [] == files[0];
  }

  lemma WrittenTwice(files: LogFiles, a: Records, b: Records)
    requires 0 in files
    ensures Written(Written(files, a), b) == Written(files, a + b)
  {
    assert files[0] + a + b == files[0] + (a + b);
  }

  /** One more line of `texts`: what the writer accepts, and what it counts. */
  lemma NextLine(texts: seq<Bytes>, i: nat, cut: nat -> Option<nat>)
    requires i < |texts|
    ensures AllAccepted(texts[..i + 1], cut) == AllAccepted(texts[..i], cut) + [Accepted(Line(texts[i]), cut(i))]
    ensures Size(AllAccepted(texts[..i + 1], cut))
         == Size(AllAccepted(texts[..i], cut)) + |Accepted(Line(texts[i]), cut(i))|
    ensures Size(Map(texts[..i + 1], Line)) == Size(Map(texts[..i], Line)) + |texts[i]| + 1
  {
    hide Accepted, Map;
    assert texts[..i + 1][..i] == texts[..i];
    SizeAppend(AllAccepted(texts[..i], cut), [Accepted(Line(texts[i]), cut(i))]);
    SizeOne(Accepted(Line(texts[i]), cut(i)));
    MapSnoc(texts, i, Line);
    SizeAppend(Map(texts[..i], Line), [Line(texts[i])]);
    SizeOne(Line(texts[i]));
  }

  class BufferedFileReporter {
    const folder: LogFolder
    const limits: Limits
    var state: WriteState

    /** No line is pending and no file open; the folder may hold logs of earlier runs. */
    constructor (folder: LogFolder, limits: Limits)
      ensures this.folder == folder && this.limits == limits && state == Buffering([])
    {
      this.folder := folder;
      this.limits := limits;
      state := Buffering([]);
    }

    ghost function View(): Log
      reads this, folder
    {
      Log(folder.files, state)
    }

    method Emit(text: Bytes, chance: Chance)
      requires OpenExists(View())
      modifies this, folder
      ensures View() == Emitted(limits, old(View()), text, chance)
    {
      var current := state;
      state := Buffering([]);
      state := WriteLine(current, text, chance);
    }

    method WriteLine(current: WriteState, text: Bytes, chance: Chance) returns (next: WriteState)
      requires OpenExists(Log(folder.files, current))
      modifies folder
      ensures Log(folder.files, next) == Emitted(limits, Log(old(folder.files), current), text, chance)
    {
      hide Written, Size, Map, RotatedIfNeeded, Accepted, AllAccepted;
      match current {
        case Buffering(pending) =>
          if chance.due {
            var size := TryOpen(chance.opens, chance.sized);
            if size.Some? {
              ghost var texts := pending + [text];
              ghost var files := folder.files;
              var bytesWritten := size.value;
              var held := 0;
              NothingYet(files, texts, chance.cut);
              for i := 0 to |pending|
                invariant folder.files == Written(files, AllAccepted(texts[..i], chance.cut))
                invariant bytesWritten == size.value + Size(Map(texts[..i], Line))
                invariant held == Size(AllAccepted(texts[..i], chance.cut))
              {
                NextLine(texts, i, chance.cut);
                var count, accepted := WriteAndCount(pending[i], chance.cut(i));
                WrittenTwice(files, AllAccepted(texts[..i], chance.cut), [accepted]);
                bytesWritten, held := bytesWritten + count, held + |accepted|;
              }
              NextLine(texts, |pending|, chance.cut);
              var count, accepted := WriteAndCount(text, chance.cut(|pending|));
              WrittenTwice(files, AllAccepted(texts[..|pending|], chance.cut), [accepted]);
              assert texts[..|pending| + 1] == texts;
              bytesWritten, held := bytesWritten + count, held + |accepted|;
              next := RotateIfNeeded(bytesWritten, Min(chance.unflushed, held), chance);
              return;
            }
          }
          var queue := pending;
          if |queue| >= MAX_BUFFERED {
            queue := queue[1..];
          }
          next := Buffering(queue + [text]);
        case Writing(bytesWritten, unflushed) =>
          ghost var files := folder.files;
          NothingYet(files, [text], chance.cut);
          NextLine([text], 0, chance.cut);
          var count, accepted := WriteAndCount(text, chance.cut(0));
          WrittenTwice(files, [], [accepted]);
          assert [text][..1] == [text] && [] + [accepted] == [accepted];
          next := RotateIfNeeded(bytesWritten + count, Min(chance.unflushed, unflushed + |accepted|), chance);
      }
    }

    lemma NothingYet(files: LogFiles, texts: seq<Bytes>, cut: nat -> Option<nat>)
      requires 0 in files
      ensures AllAccepted(texts[..0], cut) == [] && Written(files, []) == files
      ensures Size(AllAccepted(texts[..0], cut)) == 0 && Size(Map(texts[..0], Line)) == 0
    {
      WrittenNothing(files);
      assert Map(texts[..0], Line) == [];
    }

    /** Whatever becomes of the write, the whole line is counted. */
    method WriteAndCount(text: Bytes, cut: Option<nat>) returns (count: nat, accepted: Bytes)
      requires 0 in folder.files
      modifies folder
      ensures 0 in folder.files && folder.files == Written(old(folder.files), [accepted])
      ensures accepted == Accepted(Line(text), cut) && count == |text| + 1
    {
      accepted := Line(text);
      if cut.Some? && cut.value < |accepted| {
        accepted := accepted[..cut.value];
      }
      folder.files := folder.files[0 := folder.files[0] + [accepted]];
      count := |text| + 1;
    }

    /** Closing the file flushes it once more, and drops what that leaves. */
    method RotateIfNeeded(bytesWritten: nat, unflushed: nat, chance: Chance) returns (next: WriteState)
      requires 0 in folder.files
      modifies folder
      ensures Log(folder.files, next)
           == RotatedIfNeeded(limits, old(folder.files), bytesWritten, unflushed, chance)
    {
      if bytesWritten < limits.maxBytes {
        return Writing(bytesWritten, unflushed);
      }
      folder.files := Closed(folder.files, Min(chance.lost, unflushed));
      folder.Rotate(limits.maxRotated, chance.rotation);
      var size := TryOpen(chance.reopens, chance.resized);
      next := if size.Some? then Writing(size.value, 0) else Buffering([]);
    }

    /** A file whose length cannot be read counts as empty. */
    method TryOpen(works: bool, sized: bool) returns (size: Option<nat>)
      modifies folder
      ensures size.Some? == works
      ensures works ==> folder.files == Opened(old(folder.files)) && size.value == Length(folder.files, sized)
      ensures !works ==> folder.files == old(folder.files)
    {
      if !works {
        return None;
      }
      if 0 !in folder.files {
        folder.files := folder.files[0 := []];
      }
      size := Some(if sized then Size(folder.files[0]) else 0);
    }
  }

  /** Rotated files from the oldest, then the log, then the queue. */
  function Everything(log: Log, top: nat): Records
  {
    Stream(log.files, top) + if log.state.Buffering? then Map(log.state.pending, Line) else []
  }

  lemma {:induction false} SizeTruncated(records: Records, n: nat)
    requires n <= Size(records)
    ensures Size(Truncated(records, n)) == Size(records) - n
    decreases |records|
  {
    if n > 0 && records != [] {
      var front, last := records[..|records| - 1], records[|records| - 1];
      if |last| <= n {
        SizeTruncated(front, n - |last|);
      } else {
        SizeAppend(front, [last[..|last| - n]]);
        SizeOne(last[..|last| - n]);
      }
    }
  }

  lemma {:induction false} TruncatedKept(records: Records, n: nat)
    ensures Kept(false, Truncated(records, n), records)
    decreases |records|
  {
    if n == 0 || records == [] {
      KeptReflexive(false, records);
    } else {
      var front, last := records[..|records| - 1], records[|records| - 1];
      assert records == front + [last];
      if |last| <= n {
        TruncatedKept(front, n - |last|);
      } else {
        KeptReflexive(false, front);
        KeptSnoc(false, front, last[..|last| - n], front, last);
      }
    }
  }

  /** Every write works, to the last flush. */
  ghost predicate WritesWork(chance: Chance)
  {
    chance.lost == 0 && forall i :: chance.cut(i).None?
  }

  lemma {:induction false} AcceptedKept(whole: bool, texts: seq<Bytes>, chance: Chance)
    requires whole ==> WritesWork(chance)
    ensures Kept(whole, AllAccepted(texts, chance.cut), Map(texts, Line))
  {
    if texts != [] {
      var n := |texts| - 1;
      AcceptedKept(whole, texts[..n], chance);
      MapSnoc(texts, n, Line);
      assert texts[..n + 1] == texts;
      KeptSnoc(whole, AllAccepted(texts[..n], chance.cut), Accepted(Line(texts[n]), chance.cut(n)),
               Map(texts[..n], Line), Line(texts[n]));
    }
  }

  lemma {:induction false} AllAreAccepted(texts: seq<Bytes>, chance: Chance)
    requires WritesWork(chance)
    ensures AllAccepted(texts, chance.cut) == Map(texts, Line)
  {
    if texts != [] {
      var n := |texts| - 1;
      AllAreAccepted(texts[..n], chance);
      MapSnoc(texts, n, Line);
      assert texts[..n + 1] == texts;
    }
  }

  lemma {:induction false} AcceptedIsShorter(texts: seq<Bytes>, cut: nat -> Option<nat>)
    ensures Size(AllAccepted(texts, cut)) <= Size(Map(texts, Line))
  {
    if texts != [] {
      var n := |texts| - 1;
      AcceptedIsShorter(texts[..n], cut);
      NextLine(texts, n, cut);
      assert texts[..n + 1] == texts;
    }
  }

  lemma {:induction false} StreamWritten(files: LogFiles, records: Records, top: nat)
    ensures Stream(Written(Opened(files), records), top) == Stream(files, top) + records
    decreases top
  {
    if top > 0 {
      StreamWritten(files, records, top - 1);
      assert Get(files, top) + (Stream(files, top - 1) + records) == Get(files, top) + Stream(files, top - 1) + records;
    }
  }

  lemma {:induction false} StreamOpened(files: LogFiles, top: nat)
    ensures Stream(Opened(files), top) == Stream(files, top)
    decreases top
  {
    if top > 0 {
      StreamOpened(files, top - 1);
    }
  }

  lemma {:induction false} ClosedKept(whole: bool, files: LogFiles, lost: nat, top: nat)
    requires 0 in files && (whole ==> lost == 0)
    ensures Kept(whole, Stream(Closed(files, lost), top), Stream(files, top))
    decreases top
  {
    if top == 0 {
      TruncatedKept(files[0], lost);
      KeptReflexive(whole, files[0]);
    } else {
      ClosedKept(whole, files, lost, top - 1);
      KeptReflexive(whole, Get(files, top));
      KeptAppend(whole, Get(files, top), Get(files, top),
                 Stream(Closed(files, lost), top - 1), Stream(files, top - 1));
    }
  }

  /** What is written is everything before and the line, as far as the writes work. */
  lemma WritingKeepsOrder(whole: bool, log: Log, text: Bytes, chance: Chance, top: nat)
    requires whole ==> WritesWork(chance)
    ensures Kept(whole, Stream(AfterWriting(log, text, chance), top), Everything(log, top) + [Line(text)])
    ensures WritesWork(chance) ==> Stream(AfterWriting(log, text, chance), top) == Everything(log, top) + [Line(text)]
  {
    hide Kept, Map, AllAccepted, Accepted, WritesWork, Stream, Written;
    var stream, texts := Stream(log.files, top), ToWrite(log, text);
    StreamWritten(log.files, AllAccepted(texts, chance.cut), top);
    AcceptedKept(whole, texts, chance);
    KeptReflexive(whole, stream);
    KeptAppend(whole, stream, stream, AllAccepted(texts, chance.cut), Map(texts, Line));
    if WritesWork(chance) { AllAreAccepted(texts, chance); }
    MapOne(text, Line);
    if log.state.Buffering? {
      MapAppend(log.state.pending, [text], Line);
      assert stream + (Map(log.state.pending, Line) + [Line(text)]) == Everything(log, top) + [Line(text)];
    } else {
      assert stream + [] == stream;
    }
  }

  lemma RotatedIfNeededEverything(
    limits: Limits, files: LogFiles, bytesWritten: nat, unflushed: nat, chance: Chance, top: nat)
    requires 0 in files
    ensures Everything(RotatedIfNeeded(limits, files, bytesWritten, unflushed, chance), top)
         == if bytesWritten < limits.maxBytes then Stream(files, top)
            else Stream(Rotated(Closed(files, Min(chance.lost, unflushed)), limits.maxRotated, chance.rotation), top)
  {
    StreamOpened(Rotated(Closed(files, Min(chance.lost, unflushed)), limits.maxRotated, chance.rotation), top);
  }

  predicate Covers(top: nat, limits: Limits)
  {
    1 <= top && limits.maxRotated <= top
  }

  /**
   One line never reorders what is there, whichever opens, writes, flushes, deletions and renames fail; and it
   cuts no record short unless a write or flush failed.
   */
  lemma EmitNeverReorders(whole: bool, limits: Limits, log: Log, text: Bytes, chance: Chance, top: nat)
    requires Covers(top, limits) && (whole ==> WritesWork(chance))
    ensures Kept(whole, Everything(Emitted(limits, log, text, chance), top), Everything(log, top) + [Line(text)])
  {
    hide Kept, Stream, Rotated, AfterWriting, Closed, Map, Queued;
    var all := Everything(log, top) + [Line(text)];
    if Writes(log, chance) {
      var files := AfterWriting(log, text, chance);
      WritingKeepsOrder(whole, log, text, chance, top);
      RotatedIfNeededEverything(
        limits, files, Counter(log, text, chance), Unflushed(log, text, chance), chance, top);
      if Counter(log, text, chance) >= limits.maxBytes {
        var closed := Closed(files, Min(chance.lost, Unflushed(log, text, chance)));
        ClosedKept(whole, files, Min(chance.lost, Unflushed(log, text, chance)), top);
        RotationKeepsOrder(closed, limits.maxRotated, chance.rotation, top);
        KeptAnyway(whole, Stream(Rotated(closed, limits.maxRotated, chance.rotation), top), Stream(closed, top));
        KeptTransitive(whole, Stream(Rotated(closed, limits.maxRotated, chance.rotation), top),
                       Stream(closed, top), Stream(files, top));
        KeptTransitive(whole, Stream(Rotated(closed, limits.maxRotated, chance.rotation), top),
                       Stream(files, top), all);
      }
    } else {
      QueueKeepsOrder(whole, log.state.pending, text);
      var stream, pending := Stream(log.files, top), Map(log.state.pending, Line);
      KeptReflexive(whole, stream);
      KeptAppend(whole, stream, stream, Map(Queued(log.state.pending, text), Line), pending + [Line(text)]);
      assert stream + (pending + [Line(text)]) == all;
    }
  }

  /** A full queue drops its front. */
  lemma QueueDropsTheFront(pending: seq<Bytes>, text: Bytes)
    ensures var dropped := if |pending| >= MAX_BUFFERED then [Line(pending[0])] else [];
            Map(pending, Line) + [Line(text)] == dropped + Map(Queued(pending, text), Line)
  {
    hide Map;
    MapOne(text, Line);
    if |pending| >= MAX_BUFFERED {
      MapAppend(pending[..1], pending[1..], Line);
      MapAppend(pending[1..], [text], Line);
      MapOne(pending[0], Line);
      assert pending == pending[..1] + pending[1..] && pending[..1] == [pending[0]];
    } else {
      MapAppend(pending, [text], Line);
    }
  }

  lemma QueueKeepsOrder(whole: bool, pending: seq<Bytes>, text: Bytes)
    ensures Kept(whole, Map(Queued(pending, text), Line), Map(pending, Line) + [Line(text)])
  {
    hide Kept, Map, Queued;
    var dropped := if |pending| >= MAX_BUFFERED then [Line(pending[0])] else [];
    var queued := Map(Queued(pending, text), Line);
    QueueDropsTheFront(pending, text);
    KeptReflexive(whole, queued);
    KeptEmpty(whole, dropped);
    KeptAppend(whole, [], dropped, queued, queued);
    assert [] + queued == queued;
  }

  /**
   What one line costs when writes, deletions and renames work: the front of a full queue, or the oldest file.
   */
  function Lost(limits: Limits, log: Log, text: Bytes, chance: Chance): Records
  {
    if Writes(log, chance) then
      if Counter(log, text, chance) < limits.maxBytes then [] else Get(log.files, Oldest(limits.maxRotated))
    else if |log.state.pending| >= MAX_BUFFERED then [Line(log.state.pending[0])] else []
  }

  lemma RotatingLosesExactly(limits: Limits, log: Log, text: Bytes, chance: Chance, top: nat)
    returns (before: Records, after: Records)
    requires Covers(top, limits) && Works(chance.rotation) && WritesWork(chance)
    ensures var files := AfterWriting(log, text, chance);
            var closed := Closed(files, Min(chance.lost, Unflushed(log, text, chance)));
            && Stream(files, top) == before + Get(log.files, Oldest(limits.maxRotated)) + after
            && Stream(Rotated(closed, limits.maxRotated, chance.rotation), top) == before + after
  {
    hide Stream, Rotated, Above, AllAccepted, ToWrite;
    var files, oldest := AfterWriting(log, text, chance), Oldest(limits.maxRotated);
    assert Closed(files, 0) == files;
    assert Get(files, oldest) == Get(log.files, oldest);
    RotationLosesTheOldest(files, limits.maxRotated, chance.rotation, top);
    before, after := Above(files, top, oldest), Stream(files, oldest - 1);
    assert before + (Get(files, oldest) + after) == before + Get(files, oldest) + after;
  }

  /** Exactly that much is lost, from one place, and nothing else. */
  lemma EmitLosesExactly(limits: Limits, log: Log, text: Bytes, chance: Chance, top: nat)
    returns (before: Records, after: Records)
    requires Covers(top, limits) && Works(chance.rotation) && WritesWork(chance)
    ensures Everything(log, top) + [Line(text)] == before + Lost(limits, log, text, chance) + after
    ensures Everything(Emitted(limits, log, text, chance), top) == before + after
  {
    hide Map, Stream, Queued, Rotated, Size, Above, AfterWriting, Closed, Kept, WritesWork;
    var all := Everything(log, top) + [Line(text)];
    before, after := all, [];
    if Writes(log, chance) {
      WritingKeepsOrder(true, log, text, chance, top);
      RotatedIfNeededEverything(limits, AfterWriting(log, text, chance), Counter(log, text, chance),
                                Unflushed(log, text, chance), chance, top);
      if Counter(log, text, chance) >= limits.maxBytes {
        before, after := RotatingLosesExactly(limits, log, text, chance, top);
      }
    } else {
      var pending := log.state.pending;
      QueueDropsTheFront(pending, text);
      if |pending| >= MAX_BUFFERED {
        before, after := Stream(log.files, top), Map(Queued(pending, text), Line);
      }
      assert all == Stream(log.files, top) + (Map(pending, Line) + [Line(text)]);
    }
  }

  lemma {:induction false} ShiftKeepsCurrent(files: LogFiles, n: nat, luck: Luck)
    ensures Get(Shifted(files, n, luck), 0) == Get(files, 0)
    decreases n
  {
    if n > 0 {
      ShiftKeepsCurrent(RenameUp(files, n, luck.renamed(n)), n - 1, luck);
    }
  }

  /** Rotation empties the log if and only if its own rename works; otherwise the log stays as it is. */
  lemma RotatedCurrent(files: LogFiles, maxRotated: nat, luck: Luck)
    ensures Get(Rotated(files, maxRotated, luck), 0) == if luck.renamed(0) then [] else Get(files, 0)
  {
    if maxRotated > 0 {
      ShiftKeepsCurrent(Removed(files, maxRotated, luck.removed), maxRotated - 1, luck);
    }
  }

  /** The open log after a line that rotated: empty, or, if it could not be renamed, what closing it left. */
  lemma ReopenedLog(limits: Limits, log: Log, text: Bytes, chance: Chance)
    requires OpenExists(log) && Counter(log, text, chance) >= limits.maxBytes
    requires Emitted(limits, log, text, chance).state.Writing?
    ensures var after := Emitted(limits, log, text, chance);
            var size := if chance.rotation.renamed(0) then 0 else Remaining(log, text, chance);
            && Size(after.files[0]) == size
            && after.state == Writing(if chance.resized then size else 0, 0)
  {
    hide Rotated, AllAccepted;
    var files, lost := AfterWriting(log, text, chance), Min(chance.lost, Unflushed(log, text, chance));
    HeldInLog(log, text, chance);
    RotatedCurrent(Closed(files, lost), limits.maxRotated, chance.rotation);
    SizeTruncated(files[0], lost);
  }

  /** How long the log is once it is closed. */
  function Remaining(log: Log, text: Bytes, chance: Chance): int
  {
    Size(AfterWriting(log, text, chance)[0]) - Min(chance.lost, Unflushed(log, text, chance))
  }

  lemma HeldInLog(log: Log, text: Bytes, chance: Chance)
    requires OpenExists(log)
    ensures Unflushed(log, text, chance) <= Size(AfterWriting(log, text, chance)[0])
    ensures Size(AfterWriting(log, text, chance)[0])
         == Size(Opened(log.files)[0]) + Size(AllAccepted(ToWrite(log, text), chance.cut))
  {
    SizeAppend(Opened(log.files)[0], AllAccepted(ToWrite(log, text), chance.cut));
  }

  /**
   An open log's counter is below its limit after a line exactly when the line fitted, or the log could be
   renamed, or its length could not be read, or closing it lost enough.
   */
  lemma EmitStaysBelowTheLimitExactlyWhen(limits: Limits, log: Log, text: Bytes, chance: Chance)
    requires OpenExists(log) && limits.maxBytes > 0
    requires Emitted(limits, log, text, chance).state.Writing?
    ensures Emitted(limits, log, text, chance).state.bytesWritten < limits.maxBytes
        <==> || Counter(log, text, chance) < limits.maxBytes || chance.rotation.renamed(0) || !chance.resized
             || Remaining(log, text, chance) < limits.maxBytes
  {
    hide AfterWriting, Size, Unflushed;
    if Counter(log, text, chance) >= limits.maxBytes {
      ReopenedLog(limits, log, text, chance);
    }
  }

  /**
   Where a line goes: it is queued exactly if the log was not open and was not opened for it, and otherwise
   nothing is left queued; and the log is open afterwards if it did not have to be rotated, or opened again.
   */
  lemma WhereALineGoes(limits: Limits, log: Log, text: Bytes, chance: Chance)
    ensures var open := log.state.Writing? || (chance.due && chance.opens);
            var after := Emitted(limits, log, text, chance);
            && (after.state.Writing? <==>
                 open && (Counter(log, text, chance) < limits.maxBytes || chance.reopens))
            && (after.state.Buffering? ==> (text in after.state.pending <==> !open))
            && (after.state.Buffering? && open ==> after.state.pending == [])
            && (!open ==> after.files == log.files)
  {}

  /** How much of an open log is in the file. */
  function Flushed(log: Log): int
    requires log.state.Writing? && 0 in log.files
  {
    Size(log.files[0]) - log.state.unflushed
  }

  /** Unless it is rotated, the file never shrinks, and it holds all but what the last flush left behind. */
  lemma WhatReachesTheFile(limits: Limits, log: Log, text: Bytes, chance: Chance)
    requires OpenExists(log) && (log.state.Writing? || (chance.due && chance.opens))
    requires Counter(log, text, chance) < limits.maxBytes
    ensures var before := if log.state.Writing? then Flushed(log) else Size(Get(log.files, 0));
            var after := Emitted(limits, log, text, chance);
            var behind := Size(after.files[0]) - chance.unflushed;
            && after.state.Writing? && 0 in after.files
            && Flushed(after) == (if before > behind then before else behind)
  {
    hide AllAccepted, Size, Map;
    HeldInLog(log, text, chance);
    NothingHeld();
  }

  lemma NothingHeld()
    ensures Size([]) == 0
  {}

  /** Opening the log writes the whole queue behind what is in the file, and then the line. */
  lemma OpeningWritesTheQueue(limits: Limits, log: Log, text: Bytes, chance: Chance)
    requires log.state.Buffering? && chance.due && chance.opens && WritesWork(chance)
    requires var found := if chance.sized then Size(Get(log.files, 0)) else 0;
             found + Size(Map(log.state.pending + [text], Line)) < limits.maxBytes
    ensures var after := Emitted(limits, log, text, chance);
            && after.state.Writing? && 0 in after.files
            && after.files[0] == Get(log.files, 0) + Map(log.state.pending + [text], Line)
            && after.files - {0} == log.files - {0}
  {
    hide Size, Map, AllAccepted;
    AllAreAccepted(log.state.pending + [text], chance);
    var after := Emitted(limits, log, text, chance);
    assert forall n :: n != 0 ==> (n in after.files <==> n in log.files);
    assert (after.files - {0}).Keys == (log.files - {0}).Keys;
  }

  /** The lengths of files that are opened can be read. */
  predicate LengthsRead(chance: Chance)
  {
    chance.sized && chance.resized
  }

  /** An open log is no longer than its counter says, and exactly as long if `exact`. */
  predicate Counted(exact: bool, log: Log)
  {
    && OpenExists(log)
    && (log.state.Writing? ==>
         && Size(log.files[0]) <= log.state.bytesWritten
         && (exact ==> Size(log.files[0]) == log.state.bytesWritten))
  }

  lemma EmitKeepsOpen(limits: Limits, log: Log, text: Bytes, chance: Chance)
    requires OpenExists(log)
    ensures OpenExists(Emitted(limits, log, text, chance))
  {
    hide Rotated, Size, AllAccepted;
    HeldInLog(log, text, chance);
  }

  lemma EmitKeepsCount(exact: bool, limits: Limits, log: Log, text: Bytes, chance: Chance)
    requires Counted(exact, log) && LengthsRead(chance) && (exact ==> WritesWork(chance))
    ensures Counted(exact, Emitted(limits, log, text, chance))
  {
    hide Rotated, AllAccepted, Size, Map;
    EmitKeepsOpen(limits, log, text, chance);
    HeldInLog(log, text, chance);
    AcceptedIsShorter(ToWrite(log, text), chance.cut);
    if exact { AllAreAccepted(ToWrite(log, text), chance); }
    if Emitted(limits, log, text, chance).state.Writing? && Counter(log, text, chance) >= limits.maxBytes {
      ReopenedLog(limits, log, text, chance);
    }
  }

  /** A line and what happens around it. */
  datatype Emission = Emission(text: Bytes, chance: Chance)

  function Run(limits: Limits, log: Log, emissions: seq<Emission>): Log
  {
    if emissions == [] then log
    else
      var last := emissions[|emissions| - 1];
      Emitted(limits, Run(limits, log, emissions[..|emissions| - 1]), last.text, last.chance)
  }

  function TextLine(e: Emission): Bytes
  {
    Line(e.text)
  }

  function TextOf(e: Emission): Bytes
  {
    e.text
  }

  function Latest<T>(xs: seq<T>, n: nat): seq<T>
  {
    if |xs| <= n then xs else xs[|xs| - n..]
  }

  /** As long as the log cannot be opened, the queue holds the latest 10,000 lines, and the files stay. */
  lemma {:induction false} QueueHoldsTheLatest(limits: Limits, log: Log, emissions: seq<Emission>)
    requires log.state.Buffering? && |log.state.pending| <= 10_000
    requires forall i :: 0 <= i < |emissions| ==> !(emissions[i].chance.due && emissions[i].chance.opens)
    ensures Run(limits, log, emissions)
         == Log(log.files, Buffering(Latest(log.state.pending + Map(emissions, TextOf), 10_000)))
  {
    var all := log.state.pending + Map(emissions, TextOf);
    if emissions == [] {
      assert all == log.state.pending;
    } else {
      var n := |emissions| - 1;
      var before := log.state.pending + Map(emissions[..n], TextOf);
      QueueHoldsTheLatest(limits, log, emissions[..n]);
      assert all == before + [emissions[n].text];
      LatestSnoc(before, emissions[n].text);
    }
  }

  lemma LatestSnoc(texts: seq<Bytes>, text: Bytes)
    ensures Queued(Latest(texts, 10_000), text) == Latest(texts + [text], 10_000)
  {}

  /** Whenever the log then opens, it gets those 10,000 lines and the next, each ended by a newline. */
  lemma OpeningWritesTheLatest(limits: Limits, log: Log, emissions: seq<Emission>, text: Bytes, chance: Chance)
    requires log.state.Buffering? && |log.state.pending| <= 10_000
    requires forall i :: 0 <= i < |emissions| ==> !(emissions[i].chance.due && emissions[i].chance.opens)
    requires chance.due && chance.opens && chance.sized && WritesWork(chance)
    requires var texts := Latest(log.state.pending + Map(emissions, TextOf), 10_000) + [text];
             Size(Get(log.files, 0)) + Size(Map(texts, Line)) < limits.maxBytes
    ensures var texts := Latest(log.state.pending + Map(emissions, TextOf), 10_000) + [text];
            var after := Emitted(limits, Run(limits, log, emissions), text, chance);
            after.state.Writing? && after.files[0] == Get(log.files, 0) + Map(texts, Line)
  {
    hide Run, Latest, Map, Size, Emitted;
    QueueHoldsTheLatest(limits, log, emissions);
    OpeningWritesTheQueue(limits, Run(limits, log, emissions), text, chance);
  }

  lemma {:induction false} ConcatCons(parts: seq<Bytes>)
    requires parts != []
    ensures Concat(parts) == parts[0] + Concat(parts[1..])
  {
    if |parts| > 1 {
      var n := |parts| - 1;
      ConcatCons(parts[..n]);
      assert parts[..n][1..] == parts[1..][..n - 1];
      assert parts[0] + Concat(parts[1..n]) + parts[n] == parts[0] + (Concat(parts[1..n]) + parts[n]);
    }
  }

  /** How long records are is how many bytes they hold. */
  lemma {:induction false} SizeIsLength(records: Records)
    ensures Size(records) == |Concat(records)|
  {
    if records != [] {
      SizeIsLength(records[..|records| - 1]);
    }
  }

  /** The bytes before the first newline. */
  function FirstText(bytes: Bytes): Bytes
  {
    if bytes == [] || bytes[0] == 10 then [] else [bytes[0]] + FirstText(bytes[1..])
  }

  /** The texts that newlines end in a file. */
  function ReadLines(bytes: Bytes): seq<Bytes>
    decreases |bytes|
  {
    var text := FirstText(bytes);
    if |text| >= |bytes| then [] else [text] + ReadLines(bytes[|text| + 1..])
  }

  lemma {:induction false} FirstTextEnds(text: Bytes, rest: Bytes)
    requires 10 !in text
    ensures FirstText(text + [10] + rest) == text
  {
    var bytes := text + [10] + rest;
    if text != [] {
      assert bytes[1..] == text[1..] + [10] + rest;
      FirstTextEnds(text[1..], rest);
    }
  }

  /** What is written as lines reads back as these lines, if none of them holds a newline. */
  lemma {:induction false} LinesReadBack(texts: seq<Bytes>)
    requires forall i :: 0 <= i < |texts| ==> 10 !in texts[i]
    ensures ReadLines(Concat(Map(texts, Line))) == texts
  {
    hide Map, FirstText, Concat;
    if texts == [] {
      assert Map<Bytes, Bytes>([], Line) == [];
      NothingToRead();
    } else {
      var lines := Map(texts, Line);
      var rest := Concat(lines[1..]);
      ConcatCons(lines);
      assert lines[1..] == Map(texts[1..], Line);
      assert Concat(lines) == texts[0] + [10] + rest;
      FirstTextEnds(texts[0], rest);
      assert Concat(lines)[|texts[0]| + 1..] == rest;
      LinesReadBack(texts[1..]);
      assert texts == [texts[0]] + texts[1..];
    }
  }

  lemma NothingToRead()
    ensures ReadLines(Concat<byte>([])) == []
  {}

  /**
   However many lines, and whatever fails: files, log and queue together are what was there at the start and
   the lines since, in order, with only deletions, and whole as long as the writes work.
   */
  lemma {:induction false} LogNeverReorders(
    whole: bool, limits: Limits, log: Log, emissions: seq<Emission>, top: nat)
    requires Covers(top, limits)
    requires whole ==> forall i :: 0 <= i < |emissions| ==> WritesWork(emissions[i].chance)
    ensures Kept(whole, Everything(Run(limits, log, emissions), top),
                 Everything(log, top) + Map(emissions, TextLine))
  {
    hide Everything, Emitted, Kept, WritesWork;
    var all := Everything(log, top);
    if emissions == [] {
      KeptReflexive(whole, all);
      assert all + Map(emissions, TextLine) == all;
    } else {
      var n := |emissions| - 1;
      var before, last := Run(limits, log, emissions[..n]), emissions[n];
      var line := [Line(last.text)];
      LogNeverReorders(whole, limits, log, emissions[..n], top);
      EmitNeverReorders(whole, limits, before, last.text, last.chance, top);
      KeptReflexive(whole, line);
      KeptAppend(whole, Everything(before, top), all + Map(emissions[..n], TextLine), line, line);
      assert all + Map(emissions[..n], TextLine) + line == all + Map(emissions, TextLine);
      KeptTransitive(whole, Everything(Run(limits, log, emissions), top), Everything(before, top) + line,
                     all + Map(emissions, TextLine));
    }
  }

  /**
   As long as lengths can be read, an open log's counter is never below its length, and is exactly its length
   as long as the writes work.
   */
  lemma {:induction false} CounterBoundsTheLog(
    exact: bool, limits: Limits, log: Log, emissions: seq<Emission>)
    requires Counted(exact, log) && forall i :: 0 <= i < |emissions| ==> LengthsRead(emissions[i].chance)
    requires exact ==> forall i :: 0 <= i < |emissions| ==> WritesWork(emissions[i].chance)
    ensures Counted(exact, Run(limits, log, emissions))
  {
    hide Counted, LengthsRead, WritesWork, Emitted;
    if emissions != [] {
      var n := |emissions| - 1;
      CounterBoundsTheLog(exact, limits, log, emissions[..n]);
      EmitKeepsCount(
        exact, limits, Run(limits, log, emissions[..n]), emissions[n].text, emissions[n].chance);
    }
  }

  /**
   With a positive limit, an open log stays below it as long as lengths can be read and the log itself can be
   renamed, whatever becomes of the writes.
   */
  lemma {:induction false} LogStaysBelowTheLimit(limits: Limits, log: Log, emissions: seq<Emission>)
    requires Counted(false, log) && limits.maxBytes > 0 && emissions != []
    requires forall i :: 0 <= i < |emissions| ==> LengthsRead(emissions[i].chance)
    requires forall i :: 0 <= i < |emissions| ==> emissions[i].chance.rotation.renamed(0)
    ensures var after := Run(limits, log, emissions);
            after.state.Writing? ==> Size(after.files[0]) <= after.state.bytesWritten < limits.maxBytes
  {
    hide Emitted;
    var n := |emissions| - 1;
    var before, last := Run(limits, log, emissions[..n]), emissions[n];
    CounterBoundsTheLog(false, limits, log, emissions);
    CounterBoundsTheLog(false, limits, log, emissions[..n]);
    if Run(limits, log, emissions).state.Writing? {
      EmitStaysBelowTheLimitExactlyWhen(limits, before, last.text, last.chance);
    }
  }
}
