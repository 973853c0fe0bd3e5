// The log buffer: lines are joined in a string and split again when flushed, while transports may
// write more log lines from inside a flush.
module LogBuffers {

  // The JSON text of a log object: it is not empty and has no raw newline.
  ghost predicate IsLine(s: string) { s != "" && '\n' !in s }

  ghost predicate AreLines(lines: seq<string>) { forall i :: 0 <= i < |lines| ==> IsLine(lines[i]) }

  // Lines joined the way the buffer joins them.
  function Join(lines: seq<string>): string {
    if lines == [] then "" else Join(lines[..|lines| - 1]) + lines[|lines| - 1] + "\n"
  }

  // The non-empty parts of a text between newlines, and the part after the last newline.
  function Parts(s: string): (seq<string>, string) {
    if s == "" then ([], "")
    else
      var (parts, last) := Parts(s[..|s| - 1]);
      var c := s[|s| - 1];
      if c == '\n' then (if last == "" then (parts, "") else (parts + [last], "")) else (parts, last + [c])
  }

  function Split(s: string): seq<string> {
    var (parts, last) := Parts(s);
    if last == "" then parts else parts + [last]
  }

  lemma {:induction false} PartsOfLine(s: string, line: string)
    requires '\n' !in line && Parts(s).1 == ""
    ensures Parts(s + line) == (Parts(s).0, line)
  {
    if line == "" {
      assert s + line == s;
    } else {
      var n := |line| - 1;
      PartsOfLine(s, line[..n]);
      assert (s + line)[..|s + line| - 1] == s + line[..n];
      assert line == line[..n] + [line[n]];
    }
  }

  // Splitting undoes joining.
  lemma {:induction false} SplitUndoesJoin(lines: seq<string>)
    requires AreLines(lines)
    ensures Parts(Join(lines)) == (lines, "") && Split(Join(lines)) == lines
  {
    if lines != [] {
      var rest, line := lines[..|lines| - 1], lines[|lines| - 1];
      SplitUndoesJoin(rest);
      PartsOfLine(Join(rest), line);
      var s := Join(rest) + line + "\n";
      assert s[..|s| - 1] == Join(rest) + line;
      assert lines == rest + [line];
    }
  }

  lemma JoinSnoc(lines: seq<string>, line: string)
    ensures Join(lines + [line]) == Join(lines) + line + "\n"
  {
    assert (lines + [line])[..|lines + [line]| - 1] == lines;
  }

  lemma {:induction false} JoinConcat(a: seq<string>, b: seq<string>)
    ensures Join(a + b) == Join(a) + Join(b)
  {
    if b == [] {
      assert a + b == a;
    } else {
      var b', last := b[..|b| - 1], b[|b| - 1];
      JoinConcat(a, b');
      assert (a + b)[..|a + b| - 1] == a + b';
      assert Join(a + b) == Join(a) + Join(b') + last + "\n";
    }
  }

  // A flush puts a warning about dropped lines, if any were, before the text of the lines.
  function FlushText(warning: string, dropped: nat, buffer: string): string {
    if dropped > 0 then warning + "\n" + buffer else buffer
  }

  lemma WarningFirst(warning: string, lines: seq<string>)
    requires AreLines(lines) && IsLine(warning)
    ensures Split(warning + "\n" + Join(lines)) == [warning] + lines
  {
    JoinConcat([warning], lines);
    JoinSnoc([], warning);
    assert [] + [warning] == [warning] && "" + warning == warning;
    SplitUndoesJoin([warning] + lines);
  }

  lemma FlushTextSplits(warning: string, dropped: nat, lines: seq<string>)
    requires AreLines(lines) && IsLine(warning)
    ensures Split(FlushText(warning, dropped, Join(lines))) == (if dropped > 0 then [warning] else []) + lines
  {
    if dropped > 0 {
      WarningFirst(warning, lines);
    } else {
      assert [] + lines == lines;
      SplitUndoesJoin(lines);
    }
  }

  // One finished flush: how many lines it reported as dropped, and the lines it delivered.
  datatype Batch = Batch(dropped: nat, lines: seq<string>)

  // What the transports got in these flushes.
  function Received(warning: nat -> string, flushes: seq<Batch>): seq<string> {
    if flushes == [] then []
    else
      var last := flushes[|flushes| - 1];
      Received(warning, flushes[..|flushes| - 1]) +
      ((if last.dropped > 0 then [warning(last.dropped)] else []) + last.lines)
  }

  function Drops(flushes: seq<Batch>): nat {
    if flushes == [] then 0 else Drops(flushes[..|flushes| - 1]) + flushes[|flushes| - 1].dropped
  }

  lemma FlushAdds(warning: nat -> string, flushes: seq<Batch>, batch: Batch, delivered: seq<string>)
    requires delivered == (if batch.dropped > 0 then [warning(batch.dropped)] else []) + batch.lines
    ensures Drops(flushes + [batch]) == Drops(flushes) + batch.dropped
    ensures Received(warning, flushes + [batch]) == Received(warning, flushes) + delivered
  {
    assert (flushes + [batch])[..|flushes|] == flushes;
  }

  class LogBuffer {
    const bufferSizeThreshold: nat
    const maxBufferSize: nat
    // The JSON text of the warning about a number of dropped lines.
    const warning: nat -> string
    var buffer: string
    var writing: bool
    var droppedCount: nat
    // What the transports have received, warnings included.
    var delivered: seq<string>
    // History: all writes, the accepted lines, those delivered or in the flush under way, and the
    // dropped counts reported by warnings.
    ghost var writes: nat
    ghost var accepted: seq<string>
    ghost var deliveredLines: seq<string>
    ghost var inFlight: seq<string>
    ghost var buffered: seq<string>
    ghost var reported: nat
    ghost var flushes: seq<Batch>

    // Accepted lines are those delivered, then those in the flush under way, then those buffered; every
    // write was accepted or dropped, and every drop is reported or still counted. Between flushes, the
    // transports have received the warnings and lines of all flushes, and the warnings tell of all reported drops.
    ghost predicate Conserved()
      reads this
    {
      && accepted == deliveredLines + inFlight + buffered
      && buffer == Join(buffered) && AreLines(buffered) && AreLines(inFlight)
      && writes == |accepted| + reported + droppedCount
      && |buffer| <= maxBufferSize
      && (!writing ==>
            inFlight == [] && delivered == Received(warning, flushes) && reported == Drops(flushes))
      && (forall n :: IsLine(warning(n)))
    }

    constructor (bufferSizeThreshold: nat, maxBufferSize: nat, warning: nat -> string)
      requires forall n :: IsLine(warning(n))
      ensures Conserved() && writes == 0 && accepted == [] && delivered == [] && !writing
      ensures this.bufferSizeThreshold == bufferSizeThreshold && this.maxBufferSize == maxBufferSize
      ensures this.warning == warning
    {
      this.bufferSizeThreshold, this.maxBufferSize, this.warning := bufferSizeThreshold, maxBufferSize, warning;
      buffer, writing, droppedCount, delivered := "", false, 0, [];
      writes, accepted, deliveredLines, inFlight, buffered, reported, flushes := 0, [], [], [], [], 0, [];
    }

    // Appends a line that fits.
    method Append(json: string)
      requires Conserved() && IsLine(json) && |buffer| + |json| + 1 <= maxBufferSize
      modifies this`buffer, this`accepted, this`buffered, this`writes
      ensures Conserved() && accepted == old(accepted) + [json] && writes == old(writes) + 1
      ensures buffer == old(buffer) + (json + "\n") && buffered == old(buffered) + [json]
    {
      JoinSnoc(buffered, json);
      buffer := buffer + (json + "\n");
      writes := writes + 1;
      accepted, buffered := accepted + [json], buffered + [json];
    }

    // Accepts the line, or counts it as dropped when it does not fit; may flush.
    method Write(json: string)
      requires Conserved() && IsLine(json)
      modifies this
      ensures Conserved() && writing == old(writing)
      ensures old(writing) ==> inFlight == old(inFlight) && delivered == old(delivered)
      ensures old(writing) ==>
        deliveredLines == old(deliveredLines) && reported == old(reported) && flushes == old(flushes)
      ensures writes >= old(writes) + 1 && old(accepted) <= accepted
      ensures |old(buffer)| + |json| + 1 > maxBufferSize ==>
        && accepted == old(accepted) && droppedCount == old(droppedCount) + 1
        && buffer == old(buffer) && delivered == old(delivered)
      ensures old(writing) && |old(buffer)| + |json| + 1 <= maxBufferSize ==>
        accepted == old(accepted) + [json] && delivered == old(delivered)
      ensures |old(buffer)| + |json| + 1 <= maxBufferSize && |old(buffer)| + |json| + 1 < bufferSizeThreshold ==>
        accepted == old(accepted) + [json] && delivered == old(delivered)
      ensures bufferSizeThreshold <= |old(buffer)| + |json| + 1 <= maxBufferSize && !old(writing) ==>
        && deliveredLines == old(accepted) + [json] && reported == old(reported) + old(droppedCount)
        && delivered == old(delivered) +
             ((if old(droppedCount) > 0 then [warning(old(droppedCount))] else []) + (old(buffered) + [json]))
      decreases if writing then 0 else 2, 2
    {
      if |buffer| + |json| + 1 > maxBufferSize {
        writes := writes + 1;
        droppedCount := droppedCount + 1;
        return;
      }
      Append(json);
      if |buffer| >= bufferSizeThreshold { Flush(); }
    }

    // Swaps the buffer for an empty one and puts a warning about dropped lines before its text.
    method BeginFlush() returns (data: string, dropped: nat)
      requires Conserved() && !writing
      modifies this`buffer, this`writing, this`droppedCount, this`inFlight, this`buffered, this`reported
      ensures Conserved() && writing && dropped == old(droppedCount)
      ensures inFlight == old(buffered) && buffered == [] && droppedCount == 0
      ensures reported == old(reported) + dropped
      ensures data == FlushText(warning(dropped), dropped, Join(inFlight))
    {
      dropped, droppedCount := droppedCount, 0;
      reported := reported + dropped;
      writing := true;
      data, buffer := FlushText(warning(dropped), dropped, buffer), "";
      inFlight, buffered := buffered, [];
    }

    // Delivers everything buffered, in order, unless a flush is under way.
    method Flush()
      requires Conserved()
      modifies this
      ensures Conserved() && writing == old(writing)
      ensures old(writing) ==> buffer == old(buffer) && accepted == old(accepted) && inFlight == old(inFlight)
      ensures old(writing) ==> delivered == old(delivered) && deliveredLines == old(deliveredLines)
      ensures old(writing) ==> reported == old(reported) && flushes == old(flushes)
      ensures !old(writing) ==> deliveredLines == old(accepted) && reported == old(reported) + old(droppedCount)
      ensures !old(writing) ==>
        delivered == old(delivered) +
          ((if old(droppedCount) > 0 then [warning(old(droppedCount))] else []) + old(buffered))
      ensures old(accepted) <= accepted && writes >= old(writes)
      decreases if writing then 0 else 2, 1
    {
      if writing { return; }
      if |buffer| == 0 && droppedCount == 0 {
        EmptyJoin(buffered);
        return;
      }
      FlushBuffer();
    }

    method FlushBuffer()
      requires Conserved() && !writing
      modifies this
      ensures Conserved() && !writing
      ensures deliveredLines == old(accepted) && reported == old(reported) + old(droppedCount)
      ensures delivered == old(delivered) +
        ((if old(droppedCount) > 0 then [warning(old(droppedCount))] else []) + old(buffered))
      ensures old(accepted) <= accepted && writes >= old(writes)
      decreases 2, 0
    {
      var data, dropped := BeginFlush();
      ghost var batch, lines := Batch(dropped, inFlight), Split(data);
      FlushTextSplits(warning(dropped), dropped, inFlight);
      FlushAdds(warning, flushes, batch, lines);
      DeliverAll(Split(data), if dropped > 0 then 1 else 0);
      EndFlush(batch);
    }

    method EndFlush(ghost batch: Batch)
      requires Conserved() && writing && inFlight == []
      requires delivered == Received(warning, flushes + [batch]) && reported == Drops(flushes + [batch])
      modifies this`writing, this`flushes
      ensures Conserved() && !writing && flushes == old(flushes) + [batch]
    {
      writing, flushes := false, flushes + [batch];
    }

    // Hands one line, a warning or the next line of the flush, to the transports.
    method Deliver(line: string, ghost isWarning: bool)
      requires Conserved() && writing && (isWarning || (inFlight != [] && inFlight[0] == line))
      modifies this`delivered, this`deliveredLines, this`inFlight
      ensures Conserved() && delivered == old(delivered) + [line]
      ensures inFlight == if isWarning then old(inFlight) else old(inFlight)[1..]
      ensures deliveredLines + inFlight == old(deliveredLines + inFlight)
    {
      delivered := delivered + [line];
      if !isWarning {
        deliveredLines, inFlight := deliveredLines + [line], inFlight[1..];
      }
    }

    // Hands the lines to the transports one by one; the first `warnings` of them are warnings.
    method DeliverAll(lines: seq<string>, ghost warnings: nat)
      requires Conserved() && writing && warnings <= 1 && warnings <= |lines| && lines[warnings..] == inFlight
      modifies this
      ensures Conserved() && writing && inFlight == [] && delivered == old(delivered) + lines
      ensures deliveredLines == old(deliveredLines + inFlight)
      ensures reported == old(reported) && flushes == old(flushes)
      ensures old(accepted) <= accepted && writes >= old(writes)
      decreases 1
    {
      for i := 0 to |lines|
        invariant Conserved() && writing && delivered == old(delivered) + lines[..i]
        invariant reported == old(reported) && flushes == old(flushes)
        invariant inFlight == if i <= warnings then old(inFlight) else lines[i..]
        invariant deliveredLines + inFlight == old(deliveredLines + inFlight)
        invariant old(accepted) <= accepted && writes >= old(writes)
      {
        Deliver(lines[i], i < warnings);
        TransportCallback();
      }
    }

    // A transport may log from inside its write, any number of lines.
    method TransportCallback()
      requires Conserved() && writing
      modifies this
      ensures Conserved() && writing && inFlight == old(inFlight) && delivered == old(delivered)
      ensures deliveredLines == old(deliveredLines) && reported == old(reported) && flushes == old(flushes)
      ensures old(accepted) <= accepted && writes >= old(writes)
      decreases 0, 3
    {
      var n: nat :| true;
      for i := 0 to n
        invariant Conserved() && writing && inFlight == old(inFlight) && delivered == old(delivered)
        invariant deliveredLines == old(deliveredLines) && reported == old(reported) && flushes == old(flushes)
        invariant old(accepted) <= accepted && writes >= old(writes)
      {
        var json: string :| true;
        if json != "" && '\n' !in json { Write(json); }
      }
    }
  }

  lemma EmptyJoin(lines: seq<string>)
    ensures Join(lines) == "" <==> lines == []
  {
  }
}
