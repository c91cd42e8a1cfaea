/** How the log pipeline reads text: which line and terminal calls a text makes on its source. */
module LogText {
  import opened Wrappers
  import StreamReader

  type Metadata = map<string, string>

  /** One call on the block machine: a finished line, a rewrite of the terminal line, or its end. */
  datatype Call = Line(text: string, metadata: Metadata) | Update(text: string, metadata: Metadata) | Finalize

  // ---------------------------------------------------------------------------
  // What a terminal shows of a line
  // ---------------------------------------------------------------------------

  /** The number of leading characters in the given range. */
  function Span(text: string, low: char, high: char): (n: nat)
    ensures n <= |text|
  {
    if text == "" || !(low <= text[0] <= high) then 0 else 1 + Span(text[1..], low, high)
  }

  /** The length of the ANSI control sequence the text begins with, or 0. */
  function AnsiLength(text: string): (n: nat)
    ensures n <= |text|
  {
    if |text| < 2 || text[0] != '\U{1B}' || text[1] != '[' then 0
    else
      var parameters := 2 + Span(text[2..], '0', '?');
      var middle := parameters + Span(text[parameters..], ' ', '/');
      if middle < |text| && '@' <= text[middle] <= '~' then middle + 1 else 0
  }

  function WithoutAnsi(text: string): string {
    if text == "" then ""
    else if AnsiLength(text) > 0 then WithoutAnsi(text[AnsiLength(text)..])
    else [text[0]] + WithoutAnsi(text[1..])
  }

  predicate Whitespace(c: char) {
    || '\t' <= c <= '\r' || '\U{1C}' <= c <= ' ' || c == '\U{85}' || c == '\U{A0}' || c == '\U{1680}'
    || '\U{2000}' <= c <= '\U{200A}' || c in {'\U{2028}', '\U{2029}', '\U{202F}', '\U{205F}', '\U{3000}'}
  }

  function LeftStripped(text: string): string {
    if text != "" && Whitespace(text[0]) then LeftStripped(text[1..]) else text
  }

  function RightStripped(text: string): string {
    if text != "" && Whitespace(text[|text| - 1]) then RightStripped(text[..|text| - 1]) else text
  }

  function Display(raw: string): string {
    RightStripped(LeftStripped(WithoutAnsi(raw)))
  }

  // ---------------------------------------------------------------------------
  // Scanning
  // ---------------------------------------------------------------------------

  predicate IsErase(c: char) {
    c == '\U{08}' || c == '\U{7F}'
  }

  /** No character of the text is a control the scanner acts on. */
  predicate Literal(text: string) {
    forall i :: 0 <= i < |text| ==> !StreamReader.IsNewline(text[i]) && !IsErase(text[i])
  }

  /** The line under way, whether the source has a terminal line, and the calls made. */
  datatype Scan = Scan(line: string, open: bool, calls: seq<Call>)

  function Calling(calls: seq<Call>, scan: Scan): Scan {
    scan.(calls := calls + scan.calls)
  }

  function Erased(line: string): string {
    if line == "" then "" else line[..|line| - 1]
  }

  predicate StartsCrLf(text: string) {
    |text| >= 2 && text[0] == '\r' && text[1] == '\n'
  }

  function ScanFrom(text: string, line: string, open: bool, metadata: Metadata): Scan
    decreases |text|
  {
    if text == "" then Scan(line, open, [])
    else if StartsCrLf(text) then Calling([Line(line, metadata)], ScanFrom(text[2..], "", open, metadata))
    else if text[0] == '\r' then
      Calling([Update(line, metadata)], ScanFrom(text[1..], "", open || Display(line) != "", metadata))
    else if text[0] == '\n' then
      Calling(LfCalls(line, open, metadata), ScanFrom(text[1..], "", false, metadata))
    else if IsErase(text[0]) then ScanFrom(text[1..], Erased(line), open, metadata)
    else ScanFrom(text[1..], line + [text[0]], open, metadata)
  }

  /** A bare LF ends the terminal line if there is one, and an ordinary line otherwise. */
  function LfCalls(line: string, open: bool, metadata: Metadata): seq<Call> {
    if !open then [Line(line, metadata)]
    else if line != "" then [Update(line, metadata), Finalize]
    else [Finalize]
  }

  /** What a source carries from one append to the next. */
  datatype Carry = Carry(partial: string, metadata: Metadata, open: bool)

  predicate CarryOk(carry: Carry) {
    Literal(carry.partial) && (carry.partial == "" ==> carry.metadata == map[])
  }

  /** The metadata all calls of one append get: the partial line's own, if it has any. */
  function LineMetadata(carry: Carry, incoming: Metadata): Metadata {
    if carry.partial != "" && carry.metadata != map[] then carry.metadata else incoming
  }

  function Carried(scan: Scan, metadata: Metadata): Carry {
    Carry(scan.line, if scan.line != "" then metadata else map[], scan.open)
  }

  function Append(carry: Carry, text: string, incoming: Metadata): (Carry, seq<Call>) {
    if text == "" then (carry, [])
    else
      var metadata := LineMetadata(carry, incoming);
      var scan := ScanFrom(carry.partial + text, "", carry.open, metadata);
      (Carried(scan, metadata), scan.calls)
  }

  // ---------------------------------------------------------------------------
  // Appending in pieces
  // ---------------------------------------------------------------------------

  lemma {:induction false} ScanLineLiteral(text: string, line: string, open: bool, metadata: Metadata)
    requires Literal(line)
    ensures Literal(ScanFrom(text, line, open, metadata).line)
    decreases |text|
  {
    if text != "" {
      if StartsCrLf(text) {
        ScanLineLiteral(text[2..], "", open, metadata);
      } else if text[0] == '\r' {
        ScanLineLiteral(text[1..], "", open || Display(line) != "", metadata);
      } else if text[0] == '\n' {
        ScanLineLiteral(text[1..], "", false, metadata);
      } else if IsErase(text[0]) {
        ScanLineLiteral(text[1..], Erased(line), open, metadata);
      } else {
        ScanLineLiteral(text[1..], line + [text[0]], open, metadata);
      }
    }
  }

  /** Scanning a literal text again only rebuilds the line. */
  lemma {:induction false} ScanLiteral(partial: string, text: string, line: string, open: bool, metadata: Metadata)
    requires Literal(partial)
    ensures ScanFrom(partial + text, line, open, metadata) == ScanFrom(text, line + partial, open, metadata)
    decreases |partial|
  {
    if partial == "" {
      assert partial + text == text && line + partial == line;
    } else {
      assert (partial + text)[1..] == partial[1..] + text && (partial + text)[0] == partial[0];
      ScanLiteral(partial[1..], text, line + [partial[0]], open, metadata);
      assert line + [partial[0]] + partial[1..] == line + partial;
    }
  }

  predicate EndsWithCr(text: string) {
    text != "" && text[|text| - 1] == '\r'
  }

  predicate BeginsWithLf(text: string) {
    text != "" && text[0] == '\n'
  }

  predicate SplitsCrLf(a: string, b: string) {
    EndsWithCr(a) && BeginsWithLf(b)
  }

  ghost function ScannedInTwo(a: string, b: string, line: string, open: bool, metadata: Metadata): Scan {
    var first := ScanFrom(a, line, open, metadata);
    Calling(first.calls, ScanFrom(b, first.line, first.open, metadata))
  }

  lemma CallingTwice(first: seq<Call>, second: seq<Call>, scan: Scan)
    ensures Calling(first, Calling(second, scan)) == Calling(first + second, scan)
  {
  }

  lemma CallingDiffers(first: seq<Call>, left: Scan, right: Scan)
    ensures Calling(first, left).calls == Calling(first, right).calls <==> left.calls == right.calls
  {
    assert Calling(first, left).calls[|first|..] == left.calls;
    assert Calling(first, right).calls[|first|..] == right.calls;
  }

  /** The parts after the first step of a scan. */
  function Rest(text: string): string
    requires text != ""
  {
    if StartsCrLf(text) then text[2..] else text[1..]
  }

  function NextLine(text: string, line: string): string
    requires text != ""
  {
    if StreamReader.IsNewline(text[0]) then "" else if IsErase(text[0]) then Erased(line) else line + [text[0]]
  }

  function NextOpen(text: string, line: string, open: bool): bool
    requires text != ""
  {
    if StartsCrLf(text) then open
    else if text[0] == '\r' then open || Display(line) != ""
    else if text[0] == '\n' then false
    else open
  }

  function FirstCalls(text: string, line: string, open: bool, metadata: Metadata): seq<Call>
    requires text != ""
  {
    if StartsCrLf(text) then [Line(line, metadata)]
    else if text[0] == '\r' then [Update(line, metadata)]
    else if text[0] == '\n' then LfCalls(line, open, metadata)
    else []
  }

  /** The first step over a text of two parts, when it stays in the first part. */
  lemma FirstStep(a: string, b: string, line: string, open: bool, metadata: Metadata)
    requires a != "" && !(a == "\r" && BeginsWithLf(b))
    ensures a + b != "" && Rest(a + b) == Rest(a) + b && NextLine(a + b, line) == NextLine(a, line)
    ensures NextOpen(a + b, line, open) == NextOpen(a, line, open)
    ensures FirstCalls(a + b, line, open, metadata) == FirstCalls(a, line, open, metadata)
    ensures SplitsCrLf(Rest(a), b) == SplitsCrLf(a, b)
  {
  }

  lemma ScanUnfolds(text: string, line: string, open: bool, metadata: Metadata)
    requires text != ""
    ensures ScanFrom(text, line, open, metadata) ==
      Calling(FirstCalls(text, line, open, metadata), ScanFrom(Rest(text), NextLine(text, line), NextOpen(text, line, open), metadata))
  {
  }

  lemma CutCrLfDiffers(a: string, b: string, line: string, open: bool, metadata: Metadata)
    requires a == "\r" && BeginsWithLf(b)
    ensures ScanFrom(a + b, line, open, metadata).calls != ScannedInTwo(a, b, line, open, metadata).calls
  {
    assert StartsCrLf(a + b);
    assert ScanFrom(a + b, line, open, metadata).calls[0] == Line(line, metadata);
    assert ScanFrom(a, line, open, metadata).calls == [Update(line, metadata)] + [];
    assert ScannedInTwo(a, b, line, open, metadata).calls[0] == Update(line, metadata);
  }

  /** Scanning in two pieces is scanning at once exactly when the cut is not inside a CRLF. */
  lemma {:induction false} ScanConcat(a: string, b: string, line: string, open: bool, metadata: Metadata)
    ensures !SplitsCrLf(a, b) ==> ScanFrom(a + b, line, open, metadata) == ScannedInTwo(a, b, line, open, metadata)
    ensures SplitsCrLf(a, b) ==> ScanFrom(a + b, line, open, metadata).calls != ScannedInTwo(a, b, line, open, metadata).calls
    decreases |a|
  {
    if a == "" {
      assert a + b == b;
      assert ScannedInTwo(a, b, line, open, metadata) == ScanFrom(b, line, open, metadata) by {
        assert [] + ScanFrom(b, line, open, metadata).calls == ScanFrom(b, line, open, metadata).calls;
      }
    } else if a == "\r" && BeginsWithLf(b) {
      CutCrLfDiffers(a, b, line, open, metadata);
    } else {
      FirstStep(a, b, line, open, metadata);
      var (rest, nextLine, nextOpen) := (Rest(a), NextLine(a, line), NextOpen(a, line, open));
      var calls := FirstCalls(a, line, open, metadata);
      ScanUnfolds(a, line, open, metadata);
      ScanUnfolds(a + b, line, open, metadata);
      ScanConcat(rest, b, nextLine, nextOpen, metadata);
      var first := ScanFrom(rest, nextLine, nextOpen, metadata);
      CallingTwice(calls, first.calls, ScanFrom(b, first.line, first.open, metadata));
      CallingDiffers(calls, ScanFrom(rest + b, nextLine, nextOpen, metadata), ScannedInTwo(rest, b, nextLine, nextOpen, metadata));
    }
  }

  /** Every append leaves a carry that the next one reads back as it was. */
  lemma AppendKeepsCarry(carry: Carry, text: string, incoming: Metadata)
    requires CarryOk(carry)
    ensures CarryOk(Append(carry, text, incoming).0)
  {
    ScanLineLiteral(carry.partial + text, "", carry.open, LineMetadata(carry, incoming));
  }

  /** The pending partial line was read with this metadata, or with none. */
  predicate SameMetadata(carry: Carry, metadata: Metadata) {
    carry.partial != "" ==> carry.metadata == metadata || carry.metadata == map[]
  }

  /** Appending in two pieces makes the calls of one append, and leaves the same carry, exactly when the cut
      is not inside a CRLF. */
  lemma AppendConcat(carry: Carry, a: string, b: string, metadata: Metadata)
    requires CarryOk(carry) && SameMetadata(carry, metadata)
    ensures
      var (middle, first) := Append(carry, a, metadata);
      var (last, second) := Append(middle, b, metadata);
      && SameMetadata(middle, metadata)
      && ((last, first + second) == Append(carry, a + b, metadata) <==> !SplitsCrLf(a, b))
  {
    var (middle, first) := Append(carry, a, metadata);
    if a == "" {
      assert a + b == b && [] + Append(carry, b, metadata).1 == Append(carry, b, metadata).1;
    } else if b == "" {
      assert a + b == a && first + [] == first;
    } else {
      var line := LineMetadata(carry, metadata);
      ScanLiteral(carry.partial, a, "", carry.open, line);
      ScanLiteral(carry.partial, a + b, "", carry.open, line);
      assert "" + carry.partial == carry.partial;
      ScanConcat(a, b, carry.partial, carry.open, line);
      ScanLineLiteral(a, carry.partial, carry.open, line);
      ScanLiteral(middle.partial, b, "", middle.open, line);
      assert "" + middle.partial == middle.partial;
      assert LineMetadata(middle, metadata) == line;
    }
  }

  /** The metadata of a pending partial line governs every line of the append that completes it. */
  lemma PartialMetadataGoverns(carry: Carry, text: string, incoming: Metadata, i: nat)
    requires CarryOk(carry) && i < |Append(carry, text, incoming).1|
    ensures
      var call := Append(carry, text, incoming).1[i];
      call.Finalize? || call.metadata == if carry.partial != "" && carry.metadata != map[] then carry.metadata else incoming
  {
    ScanMetadata(carry.partial + text, "", carry.open, LineMetadata(carry, incoming), i);
  }

  lemma {:induction false} ScanMetadata(text: string, line: string, open: bool, metadata: Metadata, i: nat)
    requires i < |ScanFrom(text, line, open, metadata).calls|
    ensures
      var call := ScanFrom(text, line, open, metadata).calls[i];
      call.Finalize? || call.metadata == metadata
    decreases |text|
  {
    ScanUnfolds(text, line, open, metadata);
    var calls := FirstCalls(text, line, open, metadata);
    if i >= |calls| {
      ScanMetadata(Rest(text), NextLine(text, line), NextOpen(text, line, open), metadata, i - |calls|);
    }
  }

  // ---------------------------------------------------------------------------
  // The scan, record by record
  // ---------------------------------------------------------------------------

  /** A line after typing a text without newlines onto it. */
  function Typed(line: string, text: string): string
    decreases |text|
  {
    if text == "" then line
    else Typed(if IsErase(text[0]) then Erased(line) else line + [text[0]], text[1..])
  }

  lemma {:induction false} ScanTypes(text: string, rest: string, line: string, open: bool, metadata: Metadata)
    requires StreamReader.Plain(text)
    ensures ScanFrom(text + rest, line, open, metadata) == ScanFrom(rest, Typed(line, text), open, metadata)
    decreases |text|
  {
    if text == "" {
      assert text + rest == rest;
    } else {
      assert (text + rest)[0] == text[0] && (text + rest)[1..] == text[1..] + rest;
      ScanTypes(text[1..], rest, if IsErase(text[0]) then Erased(line) else line + [text[0]], open, metadata);
    }
  }

  /** What the records of a text mean one by one: a CRLF ends a line, a CR rewrites the terminal line, an LF ends
      whichever of the two is under way, and a record without delimiter stays pending. */
  function ByRecords(records: seq<StreamReader.Record>, line: string, open: bool, metadata: Metadata): Scan
    decreases |records|
  {
    if records == [] then Scan(line, open, [])
    else
      var typed := Typed(line, records[0].text);
      if records[0].ending == "\r\n" then Calling([Line(typed, metadata)], ByRecords(records[1..], "", open, metadata))
      else if records[0].ending == "\r" then
        Calling([Update(typed, metadata)], ByRecords(records[1..], "", open || Display(typed) != "", metadata))
      else if records[0].ending == "\n" then
        Calling(LfCalls(typed, open, metadata), ByRecords(records[1..], "", false, metadata))
      else ByRecords(records[1..], typed, open, metadata)
  }

  /** The character scanner makes exactly the calls of the one-shot split of its text. */
  lemma {:induction false} ScanIsByRecords(text: string, line: string, open: bool, metadata: Metadata)
    ensures ScanFrom(text, line, open, metadata) == ByRecords(StreamReader.Split(text), line, open, metadata)
    decreases |text|
  {
    if text != "" {
      var (n, d) := (StreamReader.LineEnd(text), StreamReader.DelimiterEnd(text));
      var (head, tail, rest) := (text[..n], text[n..], text[d..]);
      assert text == head + tail;
      ScanTypes(head, tail, line, open, metadata);
      assert StreamReader.Split(text)[1..] == StreamReader.Split(rest);
      if tail != "" {
        var typed := Typed(line, head);
        ScanIsByRecords(rest, "", NextOpen(tail, typed, open), metadata);
        ByRecordsUnfolds(text, typed, line, open, metadata);
        ScanUnfolds(tail, typed, open, metadata);
      }
    }
  }

  /** The first record and the first step of the scan at its delimiter agree. */
  lemma ByRecordsUnfolds(text: string, typed: string, line: string, open: bool, metadata: Metadata)
    requires StreamReader.LineEnd(text) < |text| && typed == Typed(line, text[..StreamReader.LineEnd(text)])
    ensures
      var tail := text[StreamReader.LineEnd(text)..];
      && tail != "" && Rest(tail) == text[StreamReader.DelimiterEnd(text)..] && NextLine(tail, typed) == ""
      && ByRecords(StreamReader.Split(text), line, open, metadata) ==
           Calling(FirstCalls(tail, typed, open, metadata),
                   ByRecords(StreamReader.Split(text[StreamReader.DelimiterEnd(text)..]), "", NextOpen(tail, typed, open), metadata))
  {
    RecordStep(text);
    assert StreamReader.Split(text)[1..] == StreamReader.Split(text[StreamReader.DelimiterEnd(text)..]);
  }

  lemma SliceOfTail(text: string, n: nat, d: nat)
    requires n <= d <= |text|
    ensures text[n..][d - n..] == text[d..] && text[n..d] == text[n..][..d - n]
  {
  }

  lemma RecordStep(text: string)
    requires StreamReader.LineEnd(text) < |text|
    ensures
      var tail := text[StreamReader.LineEnd(text)..];
      var ending := StreamReader.FirstRecord(text).ending;
      && tail != "" && Rest(tail) == text[StreamReader.DelimiterEnd(text)..]
      && ending == (if StartsCrLf(tail) then "\r\n" else [tail[0]]) && StreamReader.IsNewline(tail[0])
  {
    var (n, d) := (StreamReader.LineEnd(text), StreamReader.DelimiterEnd(text));
    SliceOfTail(text, n, d);
    DelimiterOfTail(text[n..], text, n);
  }

  lemma DelimiterOfTail(tail: string, text: string, n: nat)
    requires n == StreamReader.LineEnd(text) && n < |text| && tail == text[n..]
    ensures StreamReader.IsNewline(tail[0])
    ensures StreamReader.DelimiterEnd(text) - n == if StartsCrLf(tail) then 2 else 1
    ensures tail[..StreamReader.DelimiterEnd(text) - n] == if StartsCrLf(tail) then "\r\n" else [tail[0]]
  {
  }

  // ---------------------------------------------------------------------------
  // Appending a sequence of texts
  // ---------------------------------------------------------------------------

  function AppendAll(carry: Carry, texts: seq<string>, metadata: Metadata): (Carry, seq<Call>)
    decreases |texts|
  {
    if texts == [] then (carry, [])
    else
      var (middle, first) := Append(carry, texts[0], metadata);
      var (last, rest) := AppendAll(middle, texts[1..], metadata);
      (last, first + rest)
  }

  /** No cut between two texts falls inside a CRLF. */
  predicate CutsKeepCrLf(texts: seq<string>) {
    texts == [] || (!SplitsCrLf(texts[0], StreamReader.Concat(texts[1..])) && CutsKeepCrLf(texts[1..]))
  }

  lemma {:induction false} AppendAllConcat(carry: Carry, texts: seq<string>, metadata: Metadata)
    requires CarryOk(carry) && SameMetadata(carry, metadata) && CutsKeepCrLf(texts)
    ensures AppendAll(carry, texts, metadata) == Append(carry, StreamReader.Concat(texts), metadata)
    decreases |texts|
  {
    if texts != [] {
      var rest := StreamReader.Concat(texts[1..]);
      AppendKeepsCarry(carry, texts[0], metadata);
      AppendConcat(carry, texts[0], rest, metadata);
      AppendAllConcat(Append(carry, texts[0], metadata).0, texts[1..], metadata);
    }
  }
}
