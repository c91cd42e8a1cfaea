/** The alphabet of line patterns: what is a placeholder, what a capture may hold, and which digits there are. */
module PatternDetails {
  import opened Wrappers
  import opened Patterns
  import LogDisplay
  import LogText

  /** The ASCII letters and the underscore, by their codes. */
  predicate IsLetter(c: char) {
    65 <= c as int <= 90 || 97 <= c as int <= 122 || c as int == 95
  }

  predicate IsDigit(c: char) {
    48 <= c as int <= 57
  }

  lemma LettersExactly(c: char)
    ensures NameStart(c) <==> IsLetter(c)
    ensures NamePart(c) <==> IsLetter(c) || IsDigit(c) || c == '.'
  {
  }

  // ---------------------------------------------------------------------------
  // Placeholders
  // ---------------------------------------------------------------------------

  /** A name: a letter or an underscore, then letters, digits, underscores and dots. */
  predicate IsName(name: string) {
    && name != "" && IsLetter(name[0])
    && forall i :: 0 <= i < |name| ==> IsLetter(name[i]) || IsDigit(name[i]) || name[i] == '.'
  }

  /** A placeholder as it is written: its name in braces, with a colon and its kind if it has one. */
  function Written(hole: Token): string {
    match hole
    case Char(c) => [c]
    case Hole(name, None) => "{" + name + "}"
    case Hole(name, Some(Text)) => "{" + name + ":text}"
    case Hole(name, Some(Word)) => "{" + name + ":word}"
    case Hole(name, Some(Int)) => "{" + name + ":int}"
  }

  lemma {:induction false} SpanIs(text: string, n: nat)
    requires n <= |text| && (forall i :: 0 <= i < n ==> NamePart(text[i])) && (n < |text| ==> !NamePart(text[n]))
    ensures NameSpan(text) == n
    decreases |text|
  {
    if n > 0 { SpanIs(text[1..], n - 1); }
  }

  lemma {:induction false} SpanIsMaximal(text: string)
    ensures (forall i :: 0 <= i < NameSpan(text) ==> NamePart(text[i])) && (NameSpan(text) < |text| ==> !NamePart(text[NameSpan(text)]))
    decreases |text|
  {
    if text != "" && NamePart(text[0]) { SpanIsMaximal(text[1..]); }
  }

  lemma WrittenIsSpelled(hole: Token)
    ensures Written(hole) == Spelled(hole)
  {
    if hole.Hole? {
      assert KindSuffix(hole.kind) == match hole.kind
        case None => "}" case Some(Text) => ":text}" case Some(Word) => ":word}" case Some(Int) => ":int}";
    }
  }

  /** A text begins with a placeholder exactly if one is written there. */
  lemma HoleExactly(text: string, hole: Token)
    ensures HoleAt(text) == Some(hole) <==> hole.Hole? && IsName(hole.name) && Written(hole) <= text
  {
    WrittenIsSpelled(hole);
    if HoleAt(text) == Some(hole) {
      FoundHole(text, hole);
    }
    if hole.Hole? && IsName(hole.name) && Spelled(hole) <= text {
      WrittenHole(text, hole);
    }
  }

  lemma FoundHole(text: string, hole: Token)
    requires HoleAt(text) == Some(hole)
    ensures hole.Hole? && IsName(hole.name) && Spelled(hole) <= text
  {
    SpanIsMaximal(text[1..]);
    LettersExactly(text[1]);
    forall i | 0 <= i < |hole.name| ensures IsLetter(hole.name[i]) || IsDigit(hole.name[i]) || hole.name[i] == '.' {
      LettersExactly(hole.name[i]);
      assert hole.name[i] == text[1..][i];
    }
  }

  lemma WrittenHole(text: string, hole: Token)
    requires hole.Hole? && IsName(hole.name) && Spelled(hole) <= text
    ensures HoleAt(text) == Some(hole)
  {
    var n := |hole.name|;
    var suffix := KindSuffix(hole.kind);
    assert Spelled(hole) == "{" + hole.name + suffix;
    assert text[0] == '{' && text[1..n + 1] == hole.name && text[n + 1] == suffix[0];
    LettersExactly(text[1]);
    LettersExactly(text[n + 1]);
    forall i | 0 <= i < n ensures NamePart(text[1..][i]) {
      assert text[1..][i] == hole.name[i];
      LettersExactly(hole.name[i]);
    }
    SpanIs(text[1..], n);
    SuffixIs(text[n + 1..], hole.kind);
  }

  lemma SuffixIs(rest: string, kind: Option<Kind>)
    requires KindSuffix(kind) <= rest
    ensures KindAt(rest) == Some(kind)
  {
    var suffix := KindSuffix(kind);
    assert rest[0] == suffix[0] && (kind.Some? ==> rest[1] == suffix[1]);
  }

  // ---------------------------------------------------------------------------
  // What a capture may hold
  // ---------------------------------------------------------------------------

  /** A literal character stands for itself; a word for some characters none of which is white space; an integer for some
      digits; and a text, which is what a placeholder is by default, for anything without a line break. */
  lemma FitsExactly(token: Token, piece: string)
    ensures Fits(token, piece) <==>
      match token
      case Char(c) => piece == [c]
      case Hole(_, None) => '\n' !in piece
      case Hole(_, Some(Text)) => '\n' !in piece
      case Hole(_, Some(Word)) => piece != "" && forall c :: c in piece ==> c !in LogDisplay.SPACES
      case Hole(_, Some(Int)) => piece != "" && forall c :: c in piece ==> Digit(c).Some?
  {
    forall i | 0 <= i < |piece| ensures LogText.Whitespace(piece[i]) <==> piece[i] in LogDisplay.SPACES {
      LogDisplay.SpacesExactly(piece[i]);
    }
    assert forall i :: 0 <= i < |piece| ==> piece[i] in piece;
  }

  /** A text capture takes as little as it can exactly if another placeholder comes after it. */
  lemma LazyExactly(tokens: seq<Token>)
    requires tokens != []
    ensures Lazy(tokens) <==>
      && tokens[0].Hole? && tokens[0].kind in {None, Some(Text)}
      && exists i :: 1 <= i < |tokens| && tokens[i].Hole?
  {
    if HasHole(tokens[1..]) {
      var i :| 0 <= i < |tokens[1..]| && tokens[1..][i].Hole?;
      assert tokens[i + 1].Hole?;
    }
    if i :| 1 <= i < |tokens| && tokens[i].Hole? { assert tokens[1..][i - 1].Hole?; }
  }

  // ---------------------------------------------------------------------------
  // Digits
  // ---------------------------------------------------------------------------

  lemma {:induction false} AmongExactly(c: char, zeros: seq<int>)
    ensures DigitAmong(c, zeros).Some? <==> exists i :: 0 <= i < |zeros| && zeros[i] <= c as int <= zeros[i] + 9
    ensures DigitAmong(c, zeros).Some? ==> exists i :: 0 <= i < |zeros| && c as int == zeros[i] + DigitAmong(c, zeros).value
    decreases |zeros|
  {
    if zeros != [] {
      AmongExactly(c, zeros[1..]);
      assert forall i :: 1 <= i < |zeros| ==> zeros[i] == zeros[1..][i - 1];
      assert forall i :: 0 <= i < |zeros[1..]| ==> zeros[1..][i] == zeros[i + 1];
    }
  }

  /** The ASCII digits have their own values; every other digit stands so far behind the zero of its script. */
  lemma DigitExactly(c: char)
    ensures IsDigit(c) ==> Digit(c) == Some(c as int - 48)
    ensures !IsDigit(c) ==>
      && (Digit(c).Some? <==> exists i :: 0 <= i < |DIGIT_ZEROS| && DIGIT_ZEROS[i] <= c as int <= DIGIT_ZEROS[i] + 9)
      && (Digit(c).Some? ==> exists i :: 0 <= i < |DIGIT_ZEROS| && c as int == DIGIT_ZEROS[i] + Digit(c).value)
  {
    var zeros := DIGIT_ZEROS;
    AmongExactly(c, zeros);
    assert !IsDigit(c) ==> Digit(c) == DigitAmong(c, zeros);
  }
}
