/** What of a line a terminal shows, and which calls its control characters make. */
module LogDisplay {
  import opened LogText
  import opened LogSession
  import opened Wrappers

  // ---------------------------------------------------------------------------
  // Control sequences
  // ---------------------------------------------------------------------------

  /** An escape, a bracket, parameter bytes up to `p`, intermediate bytes up to `q`, and a final byte at `q`. */
  predicate IsSequence(text: string, p: nat, q: nat) {
    && 2 <= p <= q < |text| && text[0] == '\U{1B}' && text[1] == '['
    && (forall i :: 2 <= i < p ==> '\U{30}' <= text[i] <= '\U{3F}')
    && (forall i :: p <= i < q ==> '\U{20}' <= text[i] <= '\U{2F}')
    && '\U{40}' <= text[q] <= '\U{7E}'
  }

  lemma {:induction false} SpanExactly(text: string, low: char, high: char)
    ensures
      var n := Span(text, low, high);
      (forall i :: 0 <= i < n ==> low <= text[i] <= high) && (n < |text| ==> !(low <= text[n] <= high))
    decreases |text|
  {
    if text != "" && low <= text[0] <= high { SpanExactly(text[1..], low, high); }
  }

  /** A text begins with a control sequence exactly if its bytes are those of one, and then its length is that of the one. */
  lemma AnsiExactly(text: string, p: nat, q: nat)
    ensures IsSequence(text, p, q) ==> AnsiLength(text) == q + 1
    ensures AnsiLength(text) > 0 ==> exists a: nat, b: nat :: IsSequence(text, a, b) && AnsiLength(text) == b + 1
  {
    if |text| >= 2 && text[0] == '\U{1B}' && text[1] == '[' {
      var a := 2 + Span(text[2..], '0', '?');
      SpanExactly(text[2..], '0', '?');
      var b := a + Span(text[a..], ' ', '/');
      SpanExactly(text[a..], ' ', '/');
      assert forall i :: 2 <= i < a ==> text[i] == text[2..][i - 2];
      assert forall i :: a <= i < b ==> text[i] == text[a..][i - a];
      assert a < |text| ==> text[a] == text[2..][a - 2];
      assert b < |text| ==> text[b] == text[a..][b - a];
      if AnsiLength(text) > 0 { assert IsSequence(text, a, b); }
      if IsSequence(text, p, q) { SameEnds(text, a, b, p, q); }
    }
  }

  /** The three kinds of bytes do not overlap, so there is only one way to read a sequence. */
  lemma SameEnds(text: string, a: nat, b: nat, p: nat, q: nat)
    requires IsSequence(text, p, q) && 2 <= a <= b <= |text|
    requires (forall i :: 2 <= i < a ==> '0' <= text[i] <= '?') && (a < |text| ==> !('0' <= text[a] <= '?'))
    requires (forall i :: a <= i < b ==> ' ' <= text[i] <= '/') && (b < |text| ==> !(' ' <= text[b] <= '/'))
    ensures a == p && b == q
  {
    assert p == q || '\U{20}' <= text[p] <= '\U{2F}';
    assert !(a < p) && !(p < a);
    assert !(b < q) && !(q < b);
  }

  // ---------------------------------------------------------------------------
  // White space
  // ---------------------------------------------------------------------------

  const SPACES := {'\U{9}', '\U{A}', '\U{B}', '\U{C}', '\U{D}', '\U{1C}', '\U{1D}', '\U{1E}', '\U{1F}', '\U{20}', '\U{85}', '\U{A0}',
                   '\U{1680}', '\U{2000}', '\U{2001}', '\U{2002}', '\U{2003}', '\U{2004}', '\U{2005}', '\U{2006}', '\U{2007}',
                   '\U{2008}', '\U{2009}', '\U{200A}', '\U{2028}', '\U{2029}', '\U{202F}', '\U{205F}', '\U{3000}'}

  /** What counts as white space, character by character. */
  lemma SpacesExactly(c: char)
    ensures Whitespace(c) <==> c in SPACES
  {
    var n := c as int;
    assert c == n as char;
  }

  predicate AllSpaces(text: string) {
    forall i :: 0 <= i < |text| ==> text[i] in SPACES
  }

  lemma {:induction false} LeftExactly(text: string) returns (spaces: string)
    ensures text == spaces + LeftStripped(text) && AllSpaces(spaces)
    ensures LeftStripped(text) != "" ==> LeftStripped(text)[0] !in SPACES
    decreases |text|
  {
    spaces := "";
    if text != "" {
      SpacesExactly(text[0]);
      if Whitespace(text[0]) {
        var rest := LeftExactly(text[1..]);
        spaces := [text[0]] + rest;
      }
    }
  }

  lemma {:induction false} RightExactly(text: string) returns (spaces: string)
    ensures text == RightStripped(text) + spaces && AllSpaces(spaces)
    ensures RightStripped(text) != "" ==> RightStripped(text)[|RightStripped(text)| - 1] !in SPACES
    decreases |text|
  {
    spaces := "";
    if text != "" {
      var n := |text| - 1;
      SpacesExactly(text[n]);
      if Whitespace(text[n]) {
        var rest := RightExactly(text[..n]);
        spaces := rest + [text[n]];
        assert text == text[..n] + [text[n]];
      }
    }
  }

  /** A terminal shows a line without its control sequences and without white space around it. */
  lemma DisplayExactly(raw: string) returns (before: string, after: string)
    ensures WithoutAnsi(raw) == before + Display(raw) + after && AllSpaces(before) && AllSpaces(after)
    ensures Display(raw) != "" ==> Display(raw)[0] !in SPACES && Display(raw)[|Display(raw)| - 1] !in SPACES
  {
    var left := LeftStripped(WithoutAnsi(raw));
    before := LeftExactly(WithoutAnsi(raw));
    after := RightExactly(left);
    if Display(raw) != "" { assert left[0] == Display(raw)[0]; }
  }

  /** Control sequences go wherever they stand, and nothing else does. */
  lemma WithoutAnsiExactly(text: string, p: nat, q: nat)
    ensures IsSequence(text, p, q) ==> WithoutAnsi(text) == WithoutAnsi(text[q + 1..])
    ensures text != "" && (forall a: nat, b: nat :: !IsSequence(text, a, b)) ==> WithoutAnsi(text) == [text[0]] + WithoutAnsi(text[1..])
    ensures WithoutAnsi("") == ""
  {
    AnsiExactly(text, p, q);
  }

  // ---------------------------------------------------------------------------
  // Control characters and calls
  // ---------------------------------------------------------------------------

  /** A backspace or a delete takes back the last character of the line, if it has one; CR, LF and CRLF end it. */
  lemma ControlsExactly(text: string, line: string, open: bool, metadata: Metadata)
    requires text != ""
    ensures text[0] in {'\U{8}', '\U{7F}'} ==>
      ScanFrom(text, line, open, metadata) == ScanFrom(text[1..], if line == "" then "" else line[..|line| - 1], open, metadata)
    ensures text[0] == '\U{D}' && |text| > 1 && text[1] == '\U{A}' ==>
      ScanFrom(text, line, open, metadata).calls == [Line(line, metadata)] + ScanFrom(text[2..], "", open, metadata).calls
    ensures text[0] == '\U{D}' && (|text| == 1 || text[1] != '\U{A}') ==>
      ScanFrom(text, line, open, metadata).calls == [Update(line, metadata)] + ScanFrom(text[1..], "", open || Display(line) != "", metadata).calls
    ensures text[0] == '\U{A}' ==>
      ScanFrom(text, line, open, metadata).calls ==
        (if !open then [Line(line, metadata)] else if line == "" then [Finalize] else [Update(line, metadata), Finalize])
        + ScanFrom(text[1..], "", false, metadata).calls
    ensures text[0] !in {'\U{8}', '\U{7F}', '\U{D}', '\U{A}'} ==>
      ScanFrom(text, line, open, metadata) == ScanFrom(text[1..], line + [text[0]], open, metadata)
  {
  }

  /** A flush makes what is pending a line, or the last state of the terminal line, which it ends. */
  lemma FlushExactly(carry: Carry)
    ensures FlushCalls(carry) ==
      if carry.open then (if carry.partial == "" then [Finalize] else [Update(carry.partial, carry.metadata), Finalize])
      else if carry.partial == "" then [] else [Line(carry.partial, carry.metadata)]
  {
  }

  /** No name and the name "output" stand for the standard output; every other source keeps its name. */
  lemma SourcesExactly(source: string)
    ensures NormalizeSource("") == NormalizeSource("output") == NormalizeSource("stdout") == "stdout"
    ensures source !in {"", "output"} ==> NormalizeSource(source) == source
  {
  }
}
