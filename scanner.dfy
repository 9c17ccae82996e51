/**
 * The streaming scan. The content is read through a read buffer of fixed
 * capacity (BUFFER_SIZE), a read at a time, and the delimiter is searched for
 * with a cursor that counts bytes from the start of the content. An
 * occurrence that straddles the end of what has been read so far is found
 * after the next refill, which keeps the unexamined bytes and reads more
 * after them. The scanner records the byte range of every split; the splits
 * are those ranges of the original content. Whatever the capacity, and
 * however the reads are cut, the result is the pure Split.
 */
module Scanner {
  import opened Bytes
  import opened Matcher
  import opened Segmenting
  import opened ScanState

  /** A read returns at least one byte, no more than there is room for and no more than is left. */
  predicate ReadSize(count: nat, room: nat, left: nat)
  {
    1 <= count <= room && count <= left
  }

  class StreamSplitter {
    const source: seq<byte>
    const delimiter: Delimiter
    const keep: bool
    const position: Position
    const buffer: array<byte>
    /** The content offset of buffer[0]. */
    var winStart: nat
    /** The content has been read up to here; buffer[..winEnd - winStart] holds [winStart, winEnd). */
    var winEnd: nat
    /** The next content position the search examines. */
    var cursor: nat
    /** A run of delimiter bytes begun at runStart is still open at the cursor. */
    var inRun: bool
    var runStart: nat
    /** Where the pending split begins. */
    var segStart: nat
    /** The byte ranges of the splits recorded so far. */
    var segments: seq<Segment>
    var done: bool

    /** The splits of the whole content, as the pure model cuts it. */
    function Total(): (r: seq<Segment>)
      requires WellFormed(delimiter)
      ensures Ordered(r, 0, |source|)
    {
      Segments(|source|, Matches(source, delimiter, 0), keep, position, 0)
    }

    /** The buffer holds the content read and not yet discarded. */
    predicate Window()
      reads this`winStart, this`winEnd, buffer
    {
      winStart <= winEnd <= |source| && winEnd - winStart <= buffer.Length &&
      forall t :: 0 <= t < winEnd - winStart ==> buffer[t] == source[winStart + t]
    }

    /** How far the scan has come, as Status describes it. */
    predicate Progress()
      reads this`cursor, this`inRun, this`runStart, this`segStart, this`segments, this`done
    {
      Status(source, delimiter, keep, position, cursor, inRun, runStart, segStart, segments, done)
    }

    predicate Valid()
      reads this, buffer
    {
      buffer.Length >= 1 && (delimiter.Literal? ==> buffer.Length >= |delimiter.pattern|) &&
      Window() && winStart <= cursor <= winEnd && Progress()
    }

    constructor (source: seq<byte>, delimiter: Delimiter, keep: bool, position: Position, capacity: nat)
      requires WellFormed(delimiter) && capacity >= 1
      requires delimiter.Literal? ==> capacity >= |delimiter.pattern|
      ensures this.source == source && this.delimiter == delimiter
      ensures this.keep == keep && this.position == position
      ensures fresh(buffer) && buffer.Length == capacity
      ensures Valid() && !done && !inRun && cursor == 0 && segments == []
    {
      this.source := source;
      this.delimiter := delimiter;
      this.keep := keep;
      this.position := position;
      buffer := new byte[capacity];
      winStart, winEnd, cursor := 0, 0, 0;
      inRun, runStart := false, 0;
      segStart, segments, done := 0, [], false;
      new;
      ScanStart(source, delimiter, keep, position);
    }

    /**
     * Keeps the bytes from the cursor on at the front of the buffer and
     * reads more of the content after them. A read may return fewer bytes
     * than there is room for, but at least one before the end of the content.
     */
    method Refill()
      requires Window() && winStart <= cursor <= winEnd < |source| && winEnd - cursor < buffer.Length
      modifies this`winStart, this`winEnd, buffer
      ensures Window() && winStart == cursor && old(winEnd) < winEnd
    {
      var kept := winEnd - cursor;
      var offset := cursor - winStart;
      var j := 0;
      while j < kept
        invariant 0 <= j <= kept
        invariant cursor + kept == winEnd && winStart + offset == cursor
        modifies buffer
        invariant forall t :: 0 <= t < j ==> buffer[t] == source[cursor + t]
        invariant forall t :: j <= t < winEnd - winStart ==> buffer[t] == source[winStart + t]
      {
        buffer[j] := buffer[offset + j];
        j := j + 1;
      }
      assert ReadSize(1, buffer.Length - kept, |source| - winEnd);
      var count: nat :| ReadSize(count, buffer.Length - kept, |source| - winEnd);
      assert ReadSize(count, buffer.Length - kept, |source| - winEnd);
      assert 1 <= count;
      var i := 0;
      while i < count
        invariant 0 <= i <= count
        invariant cursor + kept == winEnd && kept + count <= buffer.Length && winEnd + count <= |source|
        modifies buffer
        invariant forall t :: 0 <= t < kept + i ==> buffer[t] == source[cursor + t]
      {
        buffer[kept + i] := source[winEnd + i];
        i := i + 1;
      }
      winStart, winEnd := cursor, winEnd + count;
    }

    /** Compares the pattern with the buffered bytes at the cursor. */
    method PatternHere() returns (found: bool)
      requires Window() && winStart <= cursor && delimiter.Literal? && cursor + |delimiter.pattern| <= winEnd
      ensures found <==> PatternAt(source, delimiter.pattern, cursor)
    {
      var p := delimiter.pattern;
      var offset := cursor - winStart;
      AgreeFromAll(source, p, cursor, 0);
      var j := 0;
      while j < |p|
        invariant 0 <= j <= |p|
        invariant forall t :: 0 <= t < j ==> source[cursor + t] == p[t]
      {
        if buffer[offset + j] != p[j] {
          return false;
        }
        j := j + 1;
      }
      return true;
    }

    /** The pattern occurs at the cursor: it is the next match, and cuts the pending split. */
    method LiteralCutHere()
      requires Progress() && !done && !inRun && delimiter.Literal?
      requires PatternAt(source, delimiter.pattern, cursor)
      modifies this`cursor, this`segStart, this`segments
      ensures Progress() && !done && !inRun && cursor == old(cursor) + |delimiter.pattern|
      ensures segments == old(segments) + NonEmpty(old(segStart), Cut(Match(old(cursor), cursor), keep, position).0)
      ensures segStart == Cut(Match(old(cursor), cursor), keep, position).1
    {
      var next := cursor + |delimiter.pattern|;
      var cut := Cut(Match(cursor, next), keep, position);
      LiteralHit(source, delimiter, cursor);
      ScanCut(source, delimiter, keep, position, cursor, inRun, runStart, segStart, segments, cursor, next);
      var recorded := segments + NonEmpty(segStart, cut.0);
      assert Status(source, delimiter, keep, position, next, false, runStart, cut.1, recorded, false);
      cursor, segStart, segments := next, cut.1, recorded;
    }

    /** No occurrence begins at the cursor: the search moves one byte on. */
    method SkipHere()
      requires Progress() && !done && !inRun && cursor < |source| && !StartsAt(source, delimiter, cursor)
      modifies this`cursor
      ensures Progress() && !done && !inRun && cursor == old(cursor) + 1
    {
      var next := cursor + 1;
      ScanSkip(source, delimiter, keep, position, cursor, inRun, runStart, segStart, segments);
      assert Status(source, delimiter, keep, position, next, inRun, runStart, segStart, segments, false);
      cursor := next;
    }

    /** Outside a run and with no match left: the bytes after the last cut make the last split. */
    method Finish()
      requires Progress() && !done && !inRun && Matches(source, delimiter, cursor) == []
      modifies this`segments, this`done
      ensures Progress() && done
    {
      var recorded := segments + NonEmpty(segStart, |source|);
      ScanEnd(source, delimiter, keep, position, cursor, inRun, runStart, segStart, segments);
      assert Status(source, delimiter, keep, position, cursor, inRun, runStart, segStart, recorded, true);
      segments, done := recorded, true;
    }

    /** One step of the literal search: a refill, or the position at the cursor examined. */
    method LiteralAdvance()
      requires Valid() && !done && !inRun && delimiter.Literal? && cursor + |delimiter.pattern| <= |source|
      modifies this, buffer
      ensures Valid() && !done && !inRun
      ensures old(cursor) < cursor || (old(cursor) == cursor && old(winEnd) < winEnd)
    {
      if winEnd < cursor + |delimiter.pattern| {
        Refill();
      } else {
        LiteralExamine();
      }
    }

    /** Compares the pattern with the buffered bytes at the cursor, and cuts or moves on. */
    method LiteralExamine()
      requires Valid() && !done && !inRun && delimiter.Literal? && cursor + |delimiter.pattern| <= winEnd
      modifies this`cursor, this`segStart, this`segments
      ensures Valid() && !done && !inRun && old(cursor) < cursor
    {
      var found := PatternHere();
      if found {
        LiteralCutHere();
      } else {
        LiteralMiss(source, delimiter, cursor);
        SkipHere();
      }
    }

    /** The literal search: one position at a time, refilling when the pattern runs past the buffer. */
    method ScanLiteral()
      requires Valid() && !done && delimiter.Literal?
      modifies this, buffer
      ensures Valid() && done
    {
      while cursor + |delimiter.pattern| <= |source|
        invariant Valid() && !done && !inRun
        decreases |source| - cursor, |source| - winEnd
      {
        LiteralAdvance();
      }
      LiteralExhausted(source, delimiter, cursor);
      Finish();
    }

    /** A delimiter byte at the cursor opens a run or extends the open one. */
    method RunByteHere()
      requires Progress() && !done && delimiter.Run? && cursor < |source| && source[cursor] in delimiter.members
      modifies this`cursor, this`inRun, this`runStart
      ensures Progress() && !done && inRun && cursor == old(cursor) + 1
      ensures runStart == if old(inRun) then old(runStart) else old(cursor)
    {
      var next, start := cursor + 1, if inRun then runStart else cursor;
      ScanRunByte(source, delimiter, keep, position, cursor, inRun, runStart, segStart, segments);
      assert Status(source, delimiter, keep, position, next, true, start, segStart, segments, false);
      cursor, inRun, runStart := next, true, start;
    }

    /** The open run [runStart, cursor) has ended: it is the next match, and cuts the pending split. */
    method CloseRun()
      requires Progress() && !done && inRun
      requires cursor == |source| || source[cursor] !in delimiter.members
      modifies this`inRun, this`segStart, this`segments
      ensures Progress() && !done && !inRun
      ensures segments == old(segments) + NonEmpty(old(segStart), Cut(Match(runStart, cursor), keep, position).0)
      ensures segStart == Cut(Match(runStart, cursor), keep, position).1
    {
      var cut := Cut(Match(runStart, cursor), keep, position);
      RunClosed(source, delimiter.members, runStart, cursor);
      ScanCut(source, delimiter, keep, position, cursor, inRun, runStart, segStart, segments, runStart, cursor);
      var recorded := segments + NonEmpty(segStart, cut.0);
      assert Status(source, delimiter, keep, position, cursor, false, runStart, cut.1, recorded, false);
      inRun, segStart, segments := false, cut.1, recorded;
    }

    /** One step of the run search: a refill, or the byte at the cursor examined. */
    method RunAdvance()
      requires Valid() && !done && delimiter.Run? && cursor < |source|
      modifies this, buffer
      ensures Valid() && !done
      ensures old(cursor) < cursor || (old(cursor) == cursor && old(winEnd) < winEnd) ||
              (old(cursor) == cursor && old(winEnd) == winEnd && old(inRun) && !inRun)
    {
      if winEnd == cursor {
        Refill();
      } else {
        RunExamine();
      }
    }

    /** Examines the buffered byte at the cursor. */
    method RunExamine()
      requires Valid() && !done && delimiter.Run? && cursor < winEnd
      modifies this`cursor, this`inRun, this`runStart, this`segStart, this`segments
      ensures Valid() && !done
      ensures old(cursor) < cursor || (old(cursor) == cursor && old(inRun) && !inRun)
    {
      var b := buffer[cursor - winStart];
      if b in delimiter.members {
        RunByteHere();
      } else if inRun {
        CloseRun();
      } else {
        SkipHere();
      }
    }

    /** The run search: one byte at a time, a run closing at the first byte outside the set. */
    method ScanRun()
      requires Valid() && !done && delimiter.Run?
      modifies this, buffer
      ensures Valid() && done
    {
      while cursor < |source|
        invariant Valid() && !done
        decreases |source| - cursor, |source| - winEnd, if inRun then 1 else 0
      {
        RunAdvance();
      }
      if inRun {
        CloseRun();
      }
      NoMatchAtEnd(source, delimiter);
      Finish();
    }

    /** Scans the whole content; the recorded splits are then those of the pure model. */
    method Scan()
      requires Valid() && !done
      modifies this, buffer
      ensures Valid() && done && segments == Total()
    {
      if delimiter.Literal? {
        ScanLiteral();
      } else {
        ScanRun();
      }
    }
  }

  /**
   * Splits content through a read buffer of the given capacity: the result
   * is the pure Split, for every capacity the delimiter fits in.
   */
  method SplitStreamed(content: seq<byte>, delimiter: Delimiter, keep: bool, position: Position, capacity: nat)
    returns (splits: seq<seq<byte>>)
    requires WellFormed(delimiter) && capacity >= 1
    requires delimiter.Literal? ==> capacity >= |delimiter.pattern|
    ensures splits == Split(content, delimiter, keep, position)
  {
    var scanner := new StreamSplitter(content, delimiter, keep, position, capacity);
    scanner.Scan();
    splits := Contents(content, scanner.segments);
  }
}
