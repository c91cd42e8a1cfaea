/** Line patterns of the log templates: placeholders, compilation, and backtracking matching of a whole line. */
module Patterns {
  import opened Wrappers
  import LiveState
  import LogText

  datatype Kind = Text | Word | Int

  datatype Token = Char(c: char) | Hole(name: string, kind: Option<Kind>)

  // ---------------------------------------------------------------------------
  // Placeholders in a text
  // ---------------------------------------------------------------------------

  predicate NameStart(c: char) {
    'A' <= c <= 'Z' || 'a' <= c <= 'z' || c == '_'
  }

  predicate NamePart(c: char) {
    NameStart(c) || '0' <= c <= '9' || c == '.'
  }

  function NameSpan(text: string): (n: nat)
    ensures n <= |text|
  {
    if text == "" || !NamePart(text[0]) then 0 else 1 + NameSpan(text[1..])
  }

  function KindName(kind: Kind): string {
    match kind
    case Text => "text"
    case Word => "word"
    case Int => "int"
  }

  /** How a token is written. */
  function Spelled(token: Token): string {
    match token
    case Char(c) => [c]
    case Hole(name, kind) => "{" + name + KindSuffix(kind)
  }

  /** The placeholder the text begins with, if it does. */
  function HoleAt(text: string): (hole: Option<Token>)
    ensures hole.Some? ==> hole.value.Hole? && Spelled(hole.value) <= text
  {
    if |text| < 2 || text[0] != '{' || !NameStart(text[1]) then None
    else
      var end := 1 + NameSpan(text[1..]);
      var kind := KindAt(text[end..]);
      if kind.None? then None
      else
        var hole := Hole(text[1..end], kind.value);
        assert Spelled(hole) <= text by { HoleSpelled(text, end, hole); }
        Some(hole)
  }

  function KindSuffix(kind: Option<Kind>): string {
    (if kind.Some? then ":" + KindName(kind.value) else "") + "}"
  }

  /** The end of a placeholder: its kind, if one is given, and the closing brace. */
  function KindAt(rest: string): (kind: Option<Option<Kind>>)
    ensures kind.Some? ==> KindSuffix(kind.value) <= rest
  {
    if "}" <= rest then Some(None)
    else if ":text}" <= rest then Some(Some(Text))
    else if ":word}" <= rest then Some(Some(Word))
    else if ":int}" <= rest then Some(Some(Int))
    else None
  }

  lemma HoleSpelled(text: string, end: nat, hole: Token)
    requires 1 <= end <= |text| && text[0] == '{' && hole.Hole? && hole.name == text[1..end]
    requires KindSuffix(hole.kind) <= text[end..]
    ensures Spelled(hole) <= text
  {
  }

  function FirstToken(text: string): (token: Token)
    requires text != ""
    ensures Spelled(token) <= text && Spelled(token) != ""
  {
    if HoleAt(text).Some? then HoleAt(text).value else Char(text[0])
  }

  /** The text as literal characters and placeholders, leftmost first. */
  function Tokens(text: string): seq<Token> {
    if text == "" then [] else [FirstToken(text)] + Tokens(text[|Spelled(FirstToken(text))|..])
  }

  function SpelledAll(tokens: seq<Token>): string {
    if tokens == [] then "" else Spelled(tokens[0]) + SpelledAll(tokens[1..])
  }

  /** Nothing of the text is lost in its tokens. */
  lemma {:induction false} TokensSpell(text: string)
    ensures SpelledAll(Tokens(text)) == text
  {
    if text != "" {
      var rest := text[|Spelled(FirstToken(text))|..];
      TokensSpell(rest);
      assert Tokens(text)[1..] == Tokens(rest);
    }
  }

  function Names(tokens: seq<Token>): seq<string> {
    if tokens == [] then []
    else (if tokens[0].Hole? then [tokens[0].name] else []) + Names(tokens[1..])
  }

  // ---------------------------------------------------------------------------
  // Compilation
  // ---------------------------------------------------------------------------

  datatype PatternError = DottedName(name: string) | RepeatedName(name: string)

  predicate Repeats(names: seq<string>, i: nat) {
    i < |names| && names[i] in names[..i]
  }

  /** The first placeholder, in order, whose name has a dot or was used before. */
  function FirstError(names: seq<string>, from: nat): Option<PatternError>
    decreases |names| - from
  {
    if from >= |names| then None
    else if '.' in names[from] then Some(DottedName(names[from]))
    else if names[from] in names[..from] then Some(RepeatedName(names[from]))
    else FirstError(names, from + 1)
  }

  function Compile(source: string): Result<seq<Token>, PatternError> {
    var tokens := Tokens(source);
    var error := FirstError(Names(tokens), 0);
    if error.Some? then Err(error.value) else Ok(tokens)
  }

  lemma {:induction false} NoErrorFrom(names: seq<string>, from: nat)
    ensures FirstError(names, from).None? <==>
      (forall i :: from <= i < |names| ==> '.' !in names[i]) && (forall i :: from <= i < |names| ==> !Repeats(names, i))
    decreases |names| - from
  {
    if from < |names| {
      NoErrorFrom(names, from + 1);
      assert Repeats(names, from) <==> names[from] in names[..from];
    }
  }

  /** A pattern compiles exactly when its capture names are distinct and have no dots. */
  lemma CompilesExactly(source: string)
    ensures
      var names := Names(Tokens(source));
      Compile(source).Ok? <==> (forall i :: 0 <= i < |names| ==> '.' !in names[i]) && Distinct(names)
  {
    var names := Names(Tokens(source));
    NoErrorFrom(names, 0);
    NoRepeats(names);
  }

  predicate Distinct(names: seq<string>) {
    forall i, j :: 0 <= i < j < |names| ==> names[i] != names[j]
  }

  lemma NoRepeats(names: seq<string>)
    ensures (forall i :: 0 <= i < |names| ==> !Repeats(names, i)) <==> Distinct(names)
  {
    forall i, j | 0 <= i < j < |names| && names[i] == names[j] ensures Repeats(names, j) {
      assert names[..j][i] == names[j];
    }
    forall j | 0 <= j < |names| && Repeats(names, j) ensures exists i :: 0 <= i < j && names[i] == names[j] {
      var i :| 0 <= i < j && names[..j][i] == names[j];
      assert names[i] == names[j];
    }
  }

  method CompilePattern(source: string) returns (compiled: Result<seq<Token>, PatternError>)
    ensures compiled == Compile(source)
  {
    var tokens := Tokens(source);
    var names := Names(tokens);
    var captures: seq<string> := [];
    for i := 0 to |names|
      invariant captures == names[..i]
      invariant FirstError(names, 0) == FirstError(names, i)
    {
      if '.' in names[i] { return Err(DottedName(names[i])); }
      if names[i] in captures { return Err(RepeatedName(names[i])); }
      captures := captures + [names[i]];
    }
    return Ok(tokens);
  }

  // ---------------------------------------------------------------------------
  // Matching
  // ---------------------------------------------------------------------------

  /** The zeros of the other Unicode decimal digit ranges; each range holds the ten digits in order. */
  const DIGIT_ZEROS: seq<int> := [
    0x660, 0x6F0, 0x7C0, 0x966, 0x9E6, 0xA66, 0xAE6, 0xB66, 0xBE6, 0xC66, 0xCE6, 0xD66, 0xDE6, 0xE50, 0xED0,
    0xF20, 0x1040, 0x1090, 0x17E0, 0x1810, 0x1946, 0x19D0, 0x1A80, 0x1A90, 0x1B50, 0x1BB0, 0x1C40, 0x1C50, 0xA620,
    0xA8D0, 0xA900, 0xA9D0, 0xA9F0, 0xAA50, 0xABF0, 0xFF10, 0x104A0, 0x10D30, 0x11066, 0x110F0, 0x11136, 0x111D0,
    0x112F0, 0x11450, 0x114D0, 0x11650, 0x116C0, 0x11730, 0x118E0, 0x11950, 0x11C50, 0x11D50, 0x11DA0, 0x16A60,
    0x16AC0, 0x16B50, 0x1D7CE, 0x1D7D8, 0x1D7E2, 0x1D7EC, 0x1D7F6, 0x1E140, 0x1E2F0, 0x1E950, 0x1FBF0]

  function DigitAmong(c: char, zeros: seq<int>): (value: Option<nat>)
    ensures value.Some? ==> value.value < 10
  {
    if zeros == [] then None
    else if zeros[0] <= c as int < zeros[0] + 10 then Some(c as int - zeros[0])
    else DigitAmong(c, zeros[1..])
  }

  function Digit(c: char): (value: Option<nat>)
    ensures value.Some? ==> value.value < 10
  {
    if '0' <= c <= '9' then Some(c as int - '0' as int) else DigitAmong(c, DIGIT_ZEROS)
  }

  function KindOf(token: Token): Kind
    requires token.Hole?
  {
    if token.kind.Some? then token.kind.value else Text
  }

  /** What a token may stand for: itself, digits, a word, or anything on one line. */
  predicate Fits(token: Token, piece: string) {
    if token.Char? then piece == [token.c]
    else match KindOf(token)
      case Int => piece != "" && forall i :: 0 <= i < |piece| ==> Digit(piece[i]).Some?
      case Word => piece != "" && forall i :: 0 <= i < |piece| ==> !LogText.Whitespace(piece[i])
      case Text => forall i :: 0 <= i < |piece| ==> piece[i] != '\n'
  }

  /** The pieces, one per token, make up the whole line. */
  predicate Decomposes(tokens: seq<Token>, line: string, pieces: seq<string>)
    decreases |tokens|
  {
    if tokens == [] then line == "" && pieces == []
    else
      && pieces != [] && pieces[0] <= line && Fits(tokens[0], pieces[0])
      && Decomposes(tokens[1..], line[|pieces[0]|..], pieces[1..])
  }

  ghost predicate HasDecomposition(tokens: seq<Token>, line: string) {
    exists pieces :: Decomposes(tokens, line, pieces)
  }

  predicate HasHole(tokens: seq<Token>) {
    exists i :: 0 <= i < |tokens| && tokens[i].Hole?
  }

  /** A text placeholder takes as little as it can, unless it is the last placeholder of the pattern. */
  predicate Lazy(tokens: seq<Token>)
    requires tokens != []
  {
    tokens[0].Hole? && KindOf(tokens[0]) == Text && HasHole(tokens[1..])
  }

  function Match(tokens: seq<Token>, line: string): Option<seq<string>>
    decreases |tokens|, 1, 0
  {
    if tokens == [] then (if line == "" then Some([]) else None)
    else TryLengths(tokens, line, if Lazy(tokens) then 0 else |line|)
  }

  /** Tries this length for the first token, then the longer ones or the shorter ones. */
  function TryLengths(tokens: seq<Token>, line: string, k: nat): Option<seq<string>>
    requires tokens != [] && k <= |line|
    decreases |tokens|, 0, if Lazy(tokens) then |line| - k else k
  {
    var rest := if Fits(tokens[0], line[..k]) then Match(tokens[1..], line[k..]) else None;
    if rest.Some? then Some([line[..k]] + rest.value)
    else if Lazy(tokens) then (if k < |line| then TryLengths(tokens, line, k + 1) else None)
    else if k > 0 then TryLengths(tokens, line, k - 1)
    else None
  }

  /** Where two decompositions first differ, the better one has the shorter lazy piece or the longer greedy one. */
  predicate NoWorse(tokens: seq<Token>, best: seq<string>, other: seq<string>)
    requires |best| == |tokens| == |other|
    decreases |tokens|
  {
    tokens == [] ||
    if |best[0]| == |other[0]| then NoWorse(tokens[1..], best[1..], other[1..])
    else if Lazy(tokens) then |best[0]| < |other[0]|
    else |best[0]| > |other[0]|
  }

  lemma {:induction false} PiecesPerToken(tokens: seq<Token>, line: string, pieces: seq<string>)
    requires Decomposes(tokens, line, pieces)
    ensures |pieces| == |tokens|
    decreases |tokens|
  {
    if tokens != [] { PiecesPerToken(tokens[1..], line[|pieces[0]|..], pieces[1..]); }
  }

  lemma {:induction false} MatchDecomposes(tokens: seq<Token>, line: string)
    ensures Match(tokens, line).Some? ==> Decomposes(tokens, line, Match(tokens, line).value)
    decreases |tokens|, 1, 0
  {
    if tokens != [] { TryDecomposes(tokens, line, if Lazy(tokens) then 0 else |line|); }
  }

  lemma {:induction false} TryDecomposes(tokens: seq<Token>, line: string, k: nat)
    requires tokens != [] && k <= |line|
    ensures TryLengths(tokens, line, k).Some? ==> Decomposes(tokens, line, TryLengths(tokens, line, k).value)
    decreases |tokens|, 0, if Lazy(tokens) then |line| - k else k
  {
    MatchDecomposes(tokens[1..], line[k..]);
    var rest := if Fits(tokens[0], line[..k]) then Match(tokens[1..], line[k..]) else None;
    if rest.Some? {
      assert ([line[..k]] + rest.value)[1..] == rest.value;
    } else if Lazy(tokens) {
      if k < |line| { TryDecomposes(tokens, line, k + 1); }
    } else if k > 0 {
      TryDecomposes(tokens, line, k - 1);
    }
  }

  ghost predicate FoundNoWorse(tokens: seq<Token>, found: Option<seq<string>>, other: seq<string>) {
    found.Some? && |found.value| == |tokens| == |other| && NoWorse(tokens, found.value, other)
  }

  lemma {:induction false} MatchBest(tokens: seq<Token>, line: string, other: seq<string>)
    requires Decomposes(tokens, line, other)
    ensures FoundNoWorse(tokens, Match(tokens, line), other)
    decreases |tokens|, 1, 0
  {
    if tokens != [] { TryBest(tokens, line, if Lazy(tokens) then 0 else |line|, other); }
  }

  lemma {:induction false} TryBest(tokens: seq<Token>, line: string, k: nat, other: seq<string>)
    requires Decomposes(tokens, line, other) && tokens != [] && k <= |line|
    requires if Lazy(tokens) then k <= |other[0]| else |other[0]| <= k
    ensures FoundNoWorse(tokens, TryLengths(tokens, line, k), other)
    decreases |tokens|, 0, if Lazy(tokens) then |line| - k else k
  {
    PiecesPerToken(tokens, line, other);
    var rest := if Fits(tokens[0], line[..k]) then Match(tokens[1..], line[k..]) else None;
    if rest.Some? {
      MatchDecomposes(tokens[1..], line[k..]);
      PiecesPerToken(tokens[1..], line[k..], rest.value);
      var found := [line[..k]] + rest.value;
      assert found[1..] == rest.value;
      if k == |other[0]| { MatchBest(tokens[1..], line[k..], other[1..]); }
    } else {
      if k == |other[0]| {
        assert line[..k] == other[0];
        MatchBest(tokens[1..], line[k..], other[1..]);
      }
      if Lazy(tokens) { TryBest(tokens, line, k + 1, other); } else { TryBest(tokens, line, k - 1, other); }
    }
  }

  /** Matching succeeds exactly when the line decomposes into the literals and well-kinded captures of the
      pattern, and what it finds is the decomposition that no other one beats. */
  lemma MatchExactly(tokens: seq<Token>, line: string)
    ensures Match(tokens, line).Some? <==> HasDecomposition(tokens, line)
    ensures Match(tokens, line).Some? ==> Decomposes(tokens, line, Match(tokens, line).value)
    ensures forall other :: Decomposes(tokens, line, other) ==> FoundNoWorse(tokens, Match(tokens, line), other)
  {
    MatchDecomposes(tokens, line);
    if HasDecomposition(tokens, line) {
      var pieces :| Decomposes(tokens, line, pieces);
      MatchBest(tokens, line, pieces);
    }
    forall other | Decomposes(tokens, line, other) ensures FoundNoWorse(tokens, Match(tokens, line), other) {
      MatchBest(tokens, line, other);
    }
  }

  // ---------------------------------------------------------------------------
  // Captures and substitution
  // ---------------------------------------------------------------------------

  datatype Capture = Number(value: nat) | Words(text: string)

  function IntValue(text: string): nat {
    if text == "" then 0
    else
      var digit := Digit(text[|text| - 1]);
      10 * IntValue(text[..|text| - 1]) + if digit.Some? then digit.value else 0
  }

  function CaptureOf(token: Token, piece: string): Capture
    requires token.Hole?
  {
    if KindOf(token) == Int then Number(IntValue(piece)) else Words(piece)
  }

  function Captures(tokens: seq<Token>, pieces: seq<string>): map<string, Capture>
    requires |pieces| == |tokens|
  {
    map i | 0 <= i < |tokens| && tokens[i].Hole? && (forall j :: i < j < |tokens| && tokens[j].Hole? ==> tokens[j].name != tokens[i].name)
      :: tokens[i].name := CaptureOf(tokens[i], pieces[i])
  }

  function Shown(capture: Capture): string {
    match capture
    case Number(value) => LiveState.Decimal(value)
    case Words(text) => text
  }

  /** The pattern with every placeholder replaced by its capture. */
  function Substituted(tokens: seq<Token>, captures: map<string, Capture>): string {
    if tokens == [] then ""
    else
      (if tokens[0].Char? then [tokens[0].c]
       else if tokens[0].name in captures then Shown(captures[tokens[0].name])
       else Spelled(tokens[0]))
      + Substituted(tokens[1..], captures)
  }

  function ShownPiece(token: Token, piece: string): string {
    if token.Char? then [token.c] else Shown(CaptureOf(token, piece))
  }

  function ShownAll(tokens: seq<Token>, pieces: seq<string>): string
    requires |pieces| == |tokens|
  {
    if tokens == [] then "" else ShownPiece(tokens[0], pieces[0]) + ShownAll(tokens[1..], pieces[1..])
  }

  function Pow10(k: nat): nat {
    if k == 0 then 1 else 10 * Pow10(k - 1)
  }

  lemma {:induction false} IntValueBounded(text: string)
    ensures IntValue(text) < Pow10(|text|)
  {
    if text != "" { IntValueBounded(text[..|text| - 1]); }
  }

  lemma {:induction false} DecimalLength(n: nat, k: nat)
    requires n < Pow10(k) && k >= 1
    ensures |LiveState.Decimal(n)| <= k
  {
    if n >= 10 { DecimalLength(n / 10, k - 1); }
  }

  /** A number is never shown longer than it was written. */
  lemma ShownNoLonger(token: Token, piece: string)
    requires Fits(token, piece)
    ensures |ShownPiece(token, piece)| <= |piece|
  {
    if token.Hole? && KindOf(token) == Int {
      IntValueBounded(piece);
      DecimalLength(IntValue(piece), |piece|);
    }
  }

  /** Every integer of the line is written as it would be shown. */
  predicate Canonical(tokens: seq<Token>, pieces: seq<string>)
    requires |pieces| == |tokens|
  {
    forall i :: 0 <= i < |tokens| && tokens[i].Hole? && KindOf(tokens[i]) == Int ==>
      pieces[i] == LiveState.Decimal(IntValue(pieces[i]))
  }

  lemma {:induction false} ShownExactly(tokens: seq<Token>, line: string, pieces: seq<string>)
    requires Decomposes(tokens, line, pieces) && |pieces| == |tokens|
    ensures |ShownAll(tokens, pieces)| <= |line|
    ensures ShownAll(tokens, pieces) == line <==> Canonical(tokens, pieces)
    decreases |tokens|
  {
    if tokens != [] {
      var (piece, shown) := (pieces[0], ShownPiece(tokens[0], pieces[0]));
      var (rest, tail) := (line[|piece|..], ShownAll(tokens[1..], pieces[1..]));
      PiecesPerToken(tokens, line, pieces);
      ShownNoLonger(tokens[0], piece);
      ShownExactly(tokens[1..], rest, pieces[1..]);
      assert line == piece + rest;
      SplitEqual(shown, tail, piece, rest);
      CanonicalStep(tokens, pieces);
    }
  }

  lemma SplitEqual(a: string, b: string, c: string, d: string)
    requires |a| <= |c| && |b| <= |d|
    ensures a + b == c + d <==> a == c && b == d
  {
    if a + b == c + d {
      assert |a| == |c|;
      assert a == (a + b)[..|a|] && c == (c + d)[..|c|];
      assert b == (a + b)[|a|..] && d == (c + d)[|c|..];
    }
  }

  lemma CanonicalStep(tokens: seq<Token>, pieces: seq<string>)
    requires |pieces| == |tokens| && tokens != [] && Fits(tokens[0], pieces[0])
    ensures Canonical(tokens, pieces) <==> ShownPiece(tokens[0], pieces[0]) == pieces[0] && Canonical(tokens[1..], pieces[1..])
  {
  }

  predicate DistinctNames(tokens: seq<Token>) {
    forall i, j :: 0 <= i < j < |tokens| && tokens[i].Hole? && tokens[j].Hole? ==> tokens[i].name != tokens[j].name
  }

  lemma {:induction false} SubstitutedIs(tokens: seq<Token>, pieces: seq<string>, captures: map<string, Capture>)
    requires |pieces| == |tokens|
    requires forall i :: 0 <= i < |tokens| && tokens[i].Hole? ==> tokens[i].name in captures && captures[tokens[i].name] == CaptureOf(tokens[i], pieces[i])
    ensures Substituted(tokens, captures) == ShownAll(tokens, pieces)
  {
    if tokens != [] {
      assert forall i :: 0 <= i < |tokens[1..]| ==> tokens[1..][i] == tokens[i + 1] && pieces[1..][i] == pieces[i + 1];
      SubstitutedIs(tokens[1..], pieces[1..], captures);
    }
  }

  /** Putting the captures of a matched line back into the pattern gives the line, exactly if every integer in it
      is written in plain form; without integer captures it always does. */
  lemma SubstitutionReproducesLine(tokens: seq<Token>, line: string)
    requires Match(tokens, line).Some? && DistinctNames(tokens)
    ensures
      var pieces := Match(tokens, line).value;
      && |pieces| == |tokens|
      && (Substituted(tokens, Captures(tokens, pieces)) == line <==> Canonical(tokens, pieces))
      && ((forall i :: 0 <= i < |tokens| && tokens[i].Hole? ==> KindOf(tokens[i]) != Int) ==>
           Substituted(tokens, Captures(tokens, pieces)) == line)
  {
    var pieces := Match(tokens, line).value;
    MatchDecomposes(tokens, line);
    PiecesPerToken(tokens, line, pieces);
    var captures := Captures(tokens, pieces);
    SubstitutedIs(tokens, pieces, captures);
    ShownExactly(tokens, line, pieces);
  }

  /** A leading zero is lost on the way through an integer capture. */
  lemma LeadingZeroIsLost(name: string)
    ensures
      var tokens := [Hole(name, Some(Int))];
      Decomposes(tokens, "07", ["07"]) && !Canonical(tokens, ["07"])
  {
    assert Digit('0') == Some(0) && Digit('7') == Some(7);
    assert "07"[..1] == "0" && "0"[..0] == "" && IntValue("0") == 0 && IntValue("07") == 7;
    assert |LiveState.Decimal(7)| == 1;
    assert "07"[2..] == "";
    var tokens := [Hole(name, Some(Int))];
    assert tokens[0].Hole? && KindOf(tokens[0]) == Int;
  }
}
