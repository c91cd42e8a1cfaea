/** The incremental reader of process output: decoded chunks in, line records out. */
module StreamReader {
  import opened Wrappers

  const MAX_PARTIAL_LINE_CHARS := 1024 * 1024

  /** One emitted record: a line and the delimiter that ended it, empty at the end of the stream. */
  datatype Record = Record(text: string, ending: string)

  // ---------------------------------------------------------------------------
  // One-shot split
  // ---------------------------------------------------------------------------

  predicate IsNewline(c: char) {
    c == '\r' || c == '\n'
  }

  predicate Plain(text: string) {
    forall i :: 0 <= i < |text| ==> !IsNewline(text[i])
  }

  /** The length of the first line. */
  function LineEnd(text: string): (n: nat)
    ensures n <= |text| && (forall i :: 0 <= i < n ==> !IsNewline(text[i]))
    ensures n < |text| ==> IsNewline(text[n])
  {
    if text == "" || IsNewline(text[0]) then 0
    else
      var n := LineEnd(text[1..]) + 1;
      assert forall i :: 1 <= i < n ==> text[i] == text[1..][i - 1];
      n
  }

  lemma {:induction false} LineEndIs(text: string, n: nat)
    requires n <= |text| && (forall i :: 0 <= i < n ==> !IsNewline(text[i]))
    requires n < |text| ==> IsNewline(text[n])
    ensures LineEnd(text) == n
  {
    if n > 0 { LineEndIs(text[1..], n - 1); }
  }

  /** The end of the delimiter of the first line. */
  function DelimiterEnd(text: string): (n: nat)
    ensures LineEnd(text) <= n <= |text|
    ensures text != "" ==> n > 0
  {
    var n := LineEnd(text);
    if n == |text| then n
    else if text[n] == '\r' && n + 1 < |text| && text[n + 1] == '\n' then n + 2
    else n + 1
  }

  function FirstRecord(text: string): Record {
    Record(text[..LineEnd(text)], text[LineEnd(text)..DelimiterEnd(text)])
  }

  /** The whole text cut at CR, LF and CRLF. */
  function Split(text: string): seq<Record> {
    if text == "" then [] else [FirstRecord(text)] + Split(text[DelimiterEnd(text)..])
  }

  function Joined(records: seq<Record>): string {
    if records == [] then "" else records[0].text + records[0].ending + Joined(records[1..])
  }

  lemma {:induction false} JoinedAppend(a: seq<Record>, b: seq<Record>)
    ensures Joined(a + b) == Joined(a) + Joined(b)
  {
    if a == [] {
      assert a + b == b;
    } else {
      assert (a + b)[1..] == a[1..] + b;
      JoinedAppend(a[1..], b);
    }
  }

  lemma FirstRecordJoins(text: string)
    ensures FirstRecord(text).text + FirstRecord(text).ending == text[..DelimiterEnd(text)]
  {
  }

  /** Nothing is lost or added by the split. */
  lemma {:induction false} SplitJoins(text: string)
    ensures Joined(Split(text)) == text
  {
    if text != "" {
      var rest := text[DelimiterEnd(text)..];
      SplitJoins(rest);
      JoinedTail(FirstRecord(text), Split(rest));
      FirstRecordJoins(text);
    }
  }

  // ---------------------------------------------------------------------------
  // Incremental split
  // ---------------------------------------------------------------------------

  /** The first line is complete: its delimiter is known, which a CR at the very end is not yet. */
  predicate Complete(buffer: string) {
    var n := LineEnd(buffer);
    n < |buffer| && !(buffer[n] == '\r' && n + 1 == |buffer|)
  }

  /** What one pass over the buffer emits, what stays buffered, and how often a line was cut for its length. */
  datatype Drained = Drained(records: seq<Record>, rest: string, cuts: nat)

  function After(record: Record, cut: bool, tail: Drained): Drained {
    Drained([record] + tail.records, tail.rest, tail.cuts + if cut then 1 else 0)
  }

  function Drain(buffer: string, limit: nat): (d: Drained)
    requires limit > 0
    ensures !Complete(d.rest) && |d.rest| <= limit
    decreases |buffer|
  {
    if Complete(buffer) then After(FirstRecord(buffer), false, Drain(buffer[DelimiterEnd(buffer)..], limit))
    else if |buffer| > limit then After(Record(buffer[..limit], "\n"), true, Drain(buffer[limit..], limit))
    else Drained([], buffer, 0)
  }

  /** The same without a limit on the buffered line. */
  function Pending(buffer: string): (d: Drained)
    ensures !Complete(d.rest) && d.cuts == 0
    decreases |buffer|
  {
    if Complete(buffer) then After(FirstRecord(buffer), false, Pending(buffer[DelimiterEnd(buffer)..]))
    else Drained([], buffer, 0)
  }

  /** What is emitted for the buffer when the stream ends. */
  function Finished(rest: string): seq<Record> {
    if rest == "" then []
    else if rest[|rest| - 1] == '\r' then [Record(rest[..|rest| - 1], "\r")]
    else [Record(rest, "")]
  }

  lemma {:induction false} DrainWithinLimit(buffer: string, limit: nat)
    requires limit > 0
    ensures Drain(buffer, limit).cuts == 0 <==> |Pending(buffer).rest| <= limit
    ensures Drain(buffer, limit).cuts == 0 ==> Drain(buffer, limit) == Pending(buffer)
    decreases |buffer|
  {
    if Complete(buffer) {
      DrainWithinLimit(buffer[DelimiterEnd(buffer)..], limit);
    }
  }

  /** A complete first line is the same line whatever follows. */
  lemma CompleteStays(a: string, b: string)
    requires Complete(a)
    ensures Complete(a + b) && FirstRecord(a + b) == FirstRecord(a)
    ensures DelimiterEnd(a + b) == DelimiterEnd(a) && (a + b)[DelimiterEnd(a)..] == a[DelimiterEnd(a)..] + b
  {
    SameLineEnd(a, b);
    assert (a + b)[..LineEnd(a)] == a[..LineEnd(a)];
    assert (a + b)[LineEnd(a)..DelimiterEnd(a)] == a[LineEnd(a)..DelimiterEnd(a)];
  }

  lemma SameLineEnd(a: string, b: string)
    requires LineEnd(a) < |a|
    ensures LineEnd(a + b) == LineEnd(a)
  {
    LineEndIs(a + b, LineEnd(a));
  }

  lemma AssociativeRecords(a: seq<Record>, b: seq<Record>, c: seq<Record>)
    ensures a + (b + c) == (a + b) + c
  {
  }

  lemma {:induction false} PendingAppend(a: string, b: string)
    ensures
      var (first, second) := (Pending(a), Pending(Pending(a).rest + b));
      Pending(a + b) == Drained(first.records + second.records, second.rest, 0)
    decreases |a|
  {
    if Complete(a) {
      CompleteStays(a, b);
      var tail := a[DelimiterEnd(a)..];
      PendingAppend(tail, b);
      assert Pending(a + b) == After(FirstRecord(a), false, Pending(tail + b));
      var (first, second) := (Pending(tail), Pending(Pending(tail).rest + b));
      AssociativeRecords([FirstRecord(a)], first.records, second.records);
    } else {
      assert [] + Pending(a + b).records == Pending(a + b).records;
    }
  }

  /** An incomplete buffer holds at most one newline: a CR at its very end. */
  lemma FinishedIsSplit(rest: string)
    requires !Complete(rest)
    ensures Finished(rest) == Split(rest)
  {
    var n := LineEnd(rest);
    if n < |rest| {
      assert n + 1 == |rest| && DelimiterEnd(rest) == |rest|;
      assert rest[n..] == "\r" && rest[..|rest| - 1] == rest[..n] && rest[n..|rest|] == rest[n..];
      assert Split(rest) == [FirstRecord(rest)] + Split(rest[|rest|..]);
    } else if rest != "" {
      assert rest[..n] == rest && rest[n..n] == "";
      assert rest[|rest| - 1] == rest[..n][|rest| - 1];
    }
  }

  lemma {:induction false} SplitIsPending(text: string)
    ensures Split(text) == Pending(text).records + Finished(Pending(text).rest)
    decreases |text|
  {
    if Complete(text) {
      SplitIsPending(text[DelimiterEnd(text)..]);
      var tail := Pending(text[DelimiterEnd(text)..]);
      assert [FirstRecord(text)] + (tail.records + Finished(tail.rest)) == ([FirstRecord(text)] + tail.records) + Finished(tail.rest);
    } else {
      FinishedIsSplit(text);
      assert [] + Finished(text) == Finished(text);
    }
  }

  // ---------------------------------------------------------------------------
  // A whole stream
  // ---------------------------------------------------------------------------

  function Concat(chunks: seq<string>): string {
    if chunks == [] then "" else chunks[0] + Concat(chunks[1..])
  }

  /** Feeding the chunks one after the other into a reader that has buffered `rest`. */
  function Fed(rest: string, chunks: seq<string>, limit: nat): Drained
    requires limit > 0
    decreases |chunks|
  {
    if chunks == [] then Drained([], rest, 0)
    else
      var d := Drain(rest + chunks[0], limit);
      var tail := Fed(d.rest, chunks[1..], limit);
      Drained(d.records + tail.records, tail.rest, d.cuts + tail.cuts)
  }

  /** Everything the reader emits for a stream that arrives in these chunks. */
  function Emitted(chunks: seq<string>): seq<Record> {
    var d := Fed("", chunks, MAX_PARTIAL_LINE_CHARS);
    d.records + Finished(d.rest)
  }

  /** After no chunk is an unfinished line longer than the limit. */
  predicate WithinLimit(rest: string, chunks: seq<string>, limit: nat)
    decreases |chunks|
  {
    chunks == [] ||
    (var pending := Pending(rest + chunks[0]).rest;
     |pending| <= limit && WithinLimit(pending, chunks[1..], limit))
  }

  lemma {:induction false} FedWithinLimit(rest: string, chunks: seq<string>, limit: nat)
    requires limit > 0 && !Complete(rest)
    ensures Fed(rest, chunks, limit).cuts == 0 <==> WithinLimit(rest, chunks, limit)
    ensures WithinLimit(rest, chunks, limit) ==> Fed(rest, chunks, limit) == Pending(rest + Concat(chunks))
    decreases |chunks|
  {
    if chunks == [] {
      assert rest + Concat(chunks) == rest;
    } else {
      DrainWithinLimit(rest + chunks[0], limit);
      var d := Drain(rest + chunks[0], limit);
      if d.cuts == 0 {
        FedWithinLimit(d.rest, chunks[1..], limit);
        ConcatStep(rest, chunks);
      }
    }
  }

  lemma Associative(a: string, b: string, c: string)
    ensures a + (b + c) == (a + b) + c
  {
  }

  lemma ConcatStep(rest: string, chunks: seq<string>)
    requires chunks != []
    ensures
      var first := Pending(rest + chunks[0]);
      var second := Pending(first.rest + Concat(chunks[1..]));
      Pending(rest + Concat(chunks)) == Drained(first.records + second.records, second.rest, 0)
  {
    PendingAppend(rest + chunks[0], Concat(chunks[1..]));
    Associative(rest, chunks[0], Concat(chunks[1..]));
  }

  lemma {:induction false} DrainJoins(buffer: string, limit: nat)
    requires limit > 0
    ensures |Joined(Drain(buffer, limit).records)| + |Drain(buffer, limit).rest| == |buffer| + Drain(buffer, limit).cuts
    decreases |buffer|
  {
    if Complete(buffer) {
      DrainJoins(buffer[DelimiterEnd(buffer)..], limit);
      JoinedTail(FirstRecord(buffer), Drain(buffer[DelimiterEnd(buffer)..], limit).records);
    } else if |buffer| > limit {
      DrainJoins(buffer[limit..], limit);
      JoinedTail(Record(buffer[..limit], "\n"), Drain(buffer[limit..], limit).records);
    }
  }

  lemma JoinedTail(record: Record, records: seq<Record>)
    ensures Joined([record] + records) == record.text + record.ending + Joined(records)
  {
  }

  lemma {:induction false} FedJoins(rest: string, chunks: seq<string>, limit: nat)
    requires limit > 0
    ensures
      var d := Fed(rest, chunks, limit);
      |Joined(d.records)| + |d.rest| == |rest| + |Concat(chunks)| + d.cuts
    decreases |chunks|
  {
    if chunks != [] {
      var d := Drain(rest + chunks[0], limit);
      DrainJoins(rest + chunks[0], limit);
      FedJoins(d.rest, chunks[1..], limit);
      JoinedAppend(d.records, Fed(d.rest, chunks[1..], limit).records);
    }
  }

  /** How the output is chunked does not matter exactly when no chunk leaves an unfinished line beyond the
      limit; then the records are the one-shot split, and joined they are the output again. */
  lemma ChunkIndependence(chunks: seq<string>)
    ensures Emitted(chunks) == Split(Concat(chunks)) <==> WithinLimit("", chunks, MAX_PARTIAL_LINE_CHARS)
    ensures Joined(Emitted(chunks)) == Concat(chunks) <==> WithinLimit("", chunks, MAX_PARTIAL_LINE_CHARS)
  {
    var d := Fed("", chunks, MAX_PARTIAL_LINE_CHARS);
    FedWithinLimit("", chunks, MAX_PARTIAL_LINE_CHARS);
    assert "" + Concat(chunks) == Concat(chunks);
    SplitIsPending(Concat(chunks));
    SplitJoins(Concat(chunks));
    FedJoins("", chunks, MAX_PARTIAL_LINE_CHARS);
    JoinedAppend(d.records, Finished(d.rest));
    FinishedJoins(d.rest);
  }

  lemma FinishedJoins(rest: string)
    ensures Joined(Finished(rest)) == rest
  {
  }

  /** Every line longer than the limit adds one newline of the reader's own, and nothing is ever lost. */
  lemma EmittedLength(chunks: seq<string>)
    ensures |Joined(Emitted(chunks))| == |Concat(chunks)| + Fed("", chunks, MAX_PARTIAL_LINE_CHARS).cuts
  {
    var d := Fed("", chunks, MAX_PARTIAL_LINE_CHARS);
    FedJoins("", chunks, MAX_PARTIAL_LINE_CHARS);
    JoinedAppend(d.records, Finished(d.rest));
    FinishedJoins(d.rest);
  }

  // ---------------------------------------------------------------------------
  // A CRLF is never split
  // ---------------------------------------------------------------------------

  /** The text that follows does not begin with an LF. */
  predicate NotLf(text: string) {
    text != "" ==> text[0] != '\n'
  }

  /** No record that ends in a bare CR is followed, in the records or in `rest`, by an LF. */
  ghost predicate KeepsCrLf(records: seq<Record>, rest: string) {
    records == [] ||
    (&& Plain(records[0].text) && records[0].ending in {"\r", "\n", "\r\n"}
     && (records[0].ending == "\r" ==> Joined(records[1..]) + rest != "" && NotLf(Joined(records[1..]) + rest))
     && KeepsCrLf(records[1..], rest))
  }

  /** What the records and the rest begin with is what the buffer begins with. */
  lemma {:induction false} DrainBegins(buffer: string, limit: nat)
    requires limit > 0 && buffer != ""
    ensures
      var d := Drain(buffer, limit);
      Joined(d.records) + d.rest != "" && (Joined(d.records) + d.rest)[0] == buffer[0]
  {
    if Complete(buffer) {
      JoinedTail(FirstRecord(buffer), Drain(buffer[DelimiterEnd(buffer)..], limit).records);
    } else if |buffer| > limit {
      JoinedTail(Record(buffer[..limit], "\n"), Drain(buffer[limit..], limit).records);
    }
  }

  lemma {:induction false} DrainKeepsCrLf(buffer: string, limit: nat)
    requires limit > 0
    ensures KeepsCrLf(Drain(buffer, limit).records, Drain(buffer, limit).rest)
    decreases |buffer|
  {
    if Complete(buffer) {
      var rest := buffer[DelimiterEnd(buffer)..];
      DrainKeepsCrLf(rest, limit);
      CompleteEnding(buffer);
      if FirstRecord(buffer).ending == "\r" { DrainBegins(rest, limit); }
      assert Drain(buffer, limit).records[1..] == Drain(rest, limit).records;
    } else if |buffer| > limit {
      DrainKeepsCrLf(buffer[limit..], limit);
      assert Plain(buffer[..limit]) by {
        var n := LineEnd(buffer);
        assert forall i :: 0 <= i < limit ==> buffer[i] == buffer[..n][i];
      }
      assert Drain(buffer, limit).records[1..] == Drain(buffer[limit..], limit).records;
    }
  }

  lemma CompleteEnding(buffer: string)
    requires Complete(buffer)
    ensures FirstRecord(buffer).ending in {"\r", "\n", "\r\n"}
    ensures FirstRecord(buffer).ending == "\r" ==>
      DelimiterEnd(buffer) < |buffer| && buffer[DelimiterEnd(buffer)] != '\n'
  {
    var n := LineEnd(buffer);
    if DelimiterEnd(buffer) == n + 2 {
      assert FirstRecord(buffer).ending == "\r\n";
    } else {
      assert FirstRecord(buffer).ending == [buffer[n]];
    }
  }

  lemma {:induction false} KeepsCrLfAppend(a: seq<Record>, b: seq<Record>, middle: string, rest: string)
    requires KeepsCrLf(a, middle) && KeepsCrLf(b, rest)
    requires middle != "" ==> Joined(b) + rest != "" && (Joined(b) + rest)[0] == middle[0]
    ensures KeepsCrLf(a + b, rest)
  {
    if a == [] {
      assert a + b == b;
    } else {
      assert (a + b)[1..] == a[1..] + b;
      KeepsCrLfAppend(a[1..], b, middle, rest);
      JoinedAppend(a[1..], b);
    }
  }

  lemma {:induction false} FedKeepsCrLf(rest: string, chunks: seq<string>, limit: nat)
    requires limit > 0
    ensures
      var d := Fed(rest, chunks, limit);
      && KeepsCrLf(d.records, d.rest)
      && (rest != "" ==> Joined(d.records) + d.rest != "" && (Joined(d.records) + d.rest)[0] == rest[0])
    decreases |chunks|
  {
    if chunks != [] {
      var d := Drain(rest + chunks[0], limit);
      var tail := Fed(d.rest, chunks[1..], limit);
      DrainKeepsCrLf(rest + chunks[0], limit);
      FedKeepsCrLf(d.rest, chunks[1..], limit);
      KeepsCrLfAppend(d.records, tail.records, d.rest, tail.rest);
      JoinedAppend(d.records, tail.records);
      if rest != "" { DrainBegins(rest + chunks[0], limit); }
    }
  }

  /** The record begins with an LF of its own. */
  predicate BeginsWithLf(record: Record) {
    var whole := record.text + record.ending;
    whole != "" && whole[0] == '\n'
  }

  /** However the output is chunked, and however long its lines, no record boundary falls inside a CRLF. */
  lemma NoCrLfIsSplit(chunks: seq<string>, i: nat)
    requires i + 1 < |Emitted(chunks)| && Emitted(chunks)[i].ending == "\r"
    ensures !BeginsWithLf(Emitted(chunks)[i + 1])
  {
    var d := Fed("", chunks, MAX_PARTIAL_LINE_CHARS);
    FedKeepsCrLf("", chunks, MAX_PARTIAL_LINE_CHARS);
    FinishedJoins(d.rest);
    NeighboursKeepCrLf(d.records, Finished(d.rest), d.rest, i);
  }

  lemma {:induction false} NeighboursKeepCrLf(records: seq<Record>, last: seq<Record>, rest: string, i: nat)
    requires KeepsCrLf(records, rest) && |last| <= 1 && Joined(last) == rest && (last != [] ==> rest != "")
    requires i + 1 < |records + last| && (records + last)[i].ending == "\r"
    ensures !BeginsWithLf((records + last)[i + 1])
  {
    if i > 0 {
      assert (records + last)[1..] == records[1..] + last;
      NeighboursKeepCrLf(records[1..], last, rest, i - 1);
    } else {
      var following := records[1..] + last;
      assert (records + last)[1..] == following;
      JoinedAppend(records[1..], last);
      assert Joined(following) == Joined(records[1..]) + rest;
      assert Joined(following) == following[0].text + following[0].ending + Joined(following[1..]);
    }
  }

  // ---------------------------------------------------------------------------
  // The mutable reader
  // ---------------------------------------------------------------------------

  /** Where the first complete line ends and where its delimiter ends. */
  function NewlineIndex(text: string): (found: Option<(nat, nat)>)
    ensures found.Some? <==> Complete(text)
    ensures found.Some? ==> found.value == (LineEnd(text), DelimiterEnd(text))
  {
    var cr, lf := IndexOf(text, '\r'), IndexOf(text, '\n');
    if cr.None? && lf.None? then None
    else
      var lineEnd := if cr.None? then lf.value else if lf.None? then cr.value else if cr.value < lf.value then cr.value else lf.value;
      assert LineEnd(text) == lineEnd by { FirstNewline(text, lineEnd); }
      if text[lineEnd] == '\r' && lineEnd + 1 == |text| then None
      else if text[lineEnd] == '\r' && text[lineEnd + 1] == '\n' then Some((lineEnd, lineEnd + 2))
      else Some((lineEnd, lineEnd + 1))
  }

  function IndexOf(text: string, c: char): (found: Option<nat>)
    ensures found.Some? ==> found.value < |text| && text[found.value] == c && c !in text[..found.value]
    ensures found.None? ==> c !in text
  {
    if text == "" then None
    else if text[0] == c then Some(0)
    else
      var rest := IndexOf(text[1..], c);
      assert text == [text[0]] + text[1..];
      if rest.None? then None
      else
        assert text[..rest.value + 1] == [text[0]] + text[1..][..rest.value];
        Some(rest.value + 1)
  }

  lemma FirstNewline(text: string, at: nat)
    requires at < |text| && IsNewline(text[at]) && '\r' !in text[..at] && '\n' !in text[..at]
    ensures LineEnd(text) == at
  {
  }

  class LineReader {
    var partialLine: string

    constructor ()
      ensures partialLine == ""
    {
      partialLine := "";
    }

    method Feed(text: string) returns (records: seq<Record>)
      requires !Complete(partialLine) && |partialLine| <= MAX_PARTIAL_LINE_CHARS
      modifies this
      ensures
        var d := Drain(old(partialLine) + text, MAX_PARTIAL_LINE_CHARS);
        records == d.records && partialLine == d.rest
    {
      records := [];
      if text == "" {
        assert old(partialLine) + text == partialLine;
        return;
      }
      partialLine := partialLine + text;
      while partialLine != ""
        invariant
          var d := Drain(old(partialLine) + text, MAX_PARTIAL_LINE_CHARS);
          var left := Drain(partialLine, MAX_PARTIAL_LINE_CHARS);
          d.records == records + left.records && d.rest == left.rest
        decreases |partialLine|
      {
        var found := NewlineIndex(partialLine);
        if found.Some? {
          var (lineEnd, delimiterEnd) := found.value;
          records := records + [Record(partialLine[..lineEnd], partialLine[lineEnd..delimiterEnd])];
          partialLine := partialLine[delimiterEnd..];
          continue;
        }
        if |partialLine| > MAX_PARTIAL_LINE_CHARS {
          records := records + [Record(partialLine[..MAX_PARTIAL_LINE_CHARS], "\n")];
          partialLine := partialLine[MAX_PARTIAL_LINE_CHARS..];
          continue;
        }
        break;
      }
    }

    method Finish() returns (records: seq<Record>)
      modifies this
      ensures records == Finished(old(partialLine)) && partialLine == ""
    {
      records := [];
      if partialLine != "" && partialLine[|partialLine| - 1] == '\r' {
        records := [Record(partialLine[..|partialLine| - 1], "\r")];
        partialLine := "";
      }
      if partialLine != "" {
        records := records + [Record(partialLine, "")];
        partialLine := "";
      }
    }

    /** The reader over a whole stream. */
    method ReadAll(chunks: seq<string>) returns (records: seq<Record>)
      requires partialLine == ""
      modifies this
      ensures records == Emitted(chunks) && partialLine == ""
    {
      records := [];
      var i := 0;
      while i < |chunks|
        invariant 0 <= i <= |chunks|
        invariant !Complete(partialLine) && |partialLine| <= MAX_PARTIAL_LINE_CHARS
        invariant
          var left := Fed(partialLine, chunks[i..], MAX_PARTIAL_LINE_CHARS);
          var whole := Fed("", chunks, MAX_PARTIAL_LINE_CHARS);
          whole.records == records + left.records && whole.rest == left.rest
      {
        assert chunks[i..][0] == chunks[i] && chunks[i..][1..] == chunks[i + 1..];
        var more := Feed(chunks[i]);
        records := records + more;
        i := i + 1;
      }
      var last := Finish();
      records := records + last;
    }
  }
}
