/** The lexer of src.js: the first unrecognised character, or a second full
    stop inside one number, aborts the scan with an `UnexpectedCharacterError`. */
module StrictLexer {
  import opened Tokens
  import opened Numerals
  import opened Errors

  /** A token list, or the error that `make_tokens`/`make_number` return instead. */
  datatype Result<T> = Ok(value: T) | Err(error: Error)

  /** `ts` in front of a successful result; an error passes through unchanged. */
  function Concat(ts: seq<Token>, r: Result<seq<Token>>): Result<seq<Token>>
  {
    match r
    case Ok(us) => Ok(ts + us)
    case Err(e) => Err(e)
  }

  lemma ConcatNil(r: Result<seq<Token>>)
    ensures Concat([], r) == r
  {
    if r.Ok? {
      assert [] + r.value == r.value;
    }
  }

  lemma ConcatConcat(ts: seq<Token>, us: seq<Token>, r: Result<seq<Token>>)
    ensures Concat(ts, Concat(us, r)) == Concat(ts + us, r)
  {
    if r.Ok? {
      assert ts + (us + r.value) == (ts + us) + r.value;
    }
  }

  /** A token as `make_tokens` can produce it: a `Float` lexeme starts with a
      digit and holds exactly one full stop. */
  predicate WellFormed(t: Token)
  {
    t.Float? ==> |t.lexeme| > 0 && IsDigit(t.lexeme[0]) && AllNumberChars(t.lexeme) && Dots(t.lexeme) == 1
  }

  /** What `make_number` yields when started at index `i` of `s`: the token and
      the index after it, or the error at the second full stop of the run. */
  function ScanNumber(s: string, i: nat): (r: Result<(Token, nat)>)
    requires i <= |s|
    ensures r.Ok? <==> Dots(s[i..RunEnd(s, i)]) <= 1
    ensures r.Ok? ==> r.value.1 == RunEnd(s, i) && (r.value.0.Integer? <==> Dots(s[i..r.value.1]) == 0)
    ensures r.Err? ==> && r.error.text == s && r.error.character == '.'
                       && i < r.error.position < RunEnd(s, i) && s[r.error.position] == '.'
                       && Dots(s[i..r.error.position]) == 1
  {
    var j := RunEnd(s, i);
    var run := s[i..j];
    if Dots(run) <= 1 then Ok((NumberToken(run), j))
    else
      SecondDotAt(s, i, j);
      Err(UnexpectedCharacterError(s, i + DotIndex(run, 1), '.'))
  }

  /** A maximal run from `i` to `j` with at most one full stop is scanned whole. */
  lemma ScanWholeRun(s: string, i: nat, j: nat)
    requires i <= j <= |s|
    requires forall m :: i <= m < j ==> IsNumberChar(s[m])
    requires j == |s| || !IsNumberChar(s[j])
    requires Dots(s[i..j]) <= 1
    ensures ScanNumber(s, i) == Ok((NumberToken(s[i..j]), j))
  {
    RunEndUnique(s, i, j);
  }

  /** A run from a digit with at most one full stop makes a well-formed token. */
  lemma RunWellFormed(s: string, i: nat, j: nat)
    requires i < j <= |s| && IsDigit(s[i])
    requires forall k :: i <= k < j ==> IsNumberChar(s[k])
    requires Dots(s[i..j]) <= 1
    ensures WellFormed(NumberToken(s[i..j]))
  {
    var run := s[i..j];
    assert run[0] == s[i];
    forall k | 0 <= k < |run|
      ensures IsNumberChar(run[k])
    {
      assert run[k] == s[i + k];
    }
  }

  lemma ScanOkFacts(s: string, i: nat)
    requires i <= |s| && Dots(s[i..RunEnd(s, i)]) <= 1
    ensures ScanNumber(s, i) == Ok((NumberToken(s[i..RunEnd(s, i)]), RunEnd(s, i)))
    ensures i < |s| && IsDigit(s[i]) ==> WellFormed(NumberToken(s[i..RunEnd(s, i)]))
  {
    if i < |s| && IsDigit(s[i]) {
      RunWellFormed(s, i, RunEnd(s, i));
    }
  }

  lemma ScanErrFacts(s: string, i: nat)
    requires i <= |s| && Dots(s[i..RunEnd(s, i)]) > 1
    ensures ScanNumber(s, i).Err?
    ensures var e := ScanNumber(s, i).error;
            e.text == s && i < e.position < RunEnd(s, i) && e.character == '.' && s[e.position] == '.'
  {
    var run := s[i..RunEnd(s, i)];
    var k := DotIndex(run, 1);
    assert run[..0] == [];
    assert run[k] == s[i + k];
  }

  /** `make_number` consumes at least the character it starts on and exactly
      the run of digits and full stops, and reports only a full stop strictly
      inside the run. */
  lemma ScanNumberFacts(s: string, i: nat)
    requires i <= |s|
    ensures match ScanNumber(s, i)
            case Ok((t, j)) =>
              && j == RunEnd(s, i)
              && (i < |s| && IsNumberChar(s[i]) ==> i < j)
            case Err(e) =>
              e.text == s && i < e.position < RunEnd(s, i) && e.character == '.' && s[e.position] == '.'
  {
    if Dots(s[i..RunEnd(s, i)]) <= 1 {
      ScanOkFacts(s, i);
    } else {
      ScanErrFacts(s, i);
    }
  }

  /** A number scanned from a digit is well formed. */
  lemma ScanWellFormed(s: string, i: nat)
    requires i < |s| && IsDigit(s[i]) && ScanNumber(s, i).Ok?
    ensures WellFormed(ScanNumber(s, i).value.0)
  {
    ScanOkFacts(s, i);
  }

  /** A full stop inside a run, with exactly one full stop before it since `i`,
      is where `make_number` reports its error. */
  lemma SecondDotError(s: string, i: nat, k: nat)
    requires i <= k < |s| && s[k] == '.'
    requires forall m :: i <= m <= k ==> IsNumberChar(s[m])
    requires Dots(s[i..k]) == 1
    ensures ScanNumber(s, i) == Err(UnexpectedCharacterError(s, k, '.'))
  {
    var j := RunEnd(s, i);
    var run := s[i..j];
    assert run[..k - i] == s[i..k];
    DotIndexUnique(run, 1, k - i);
  }

  /** What `make_tokens` returns when the cursor is at index `i` of `s`. */
  function LexFrom(s: string, i: nat): (r: Result<seq<Token>>)
    requires i <= |s|
    ensures r.Ok? ==> |r.value| <= |s| - i
    ensures r.Err? ==> r.error.text == s && i <= r.error.position < |s|
    ensures r.Err? ==> r.error.character == s[r.error.position]
    decreases |s| - i
  {
    if i == |s| then Ok([])
    else if s[i] == ' ' then LexFrom(s, i + 1)
    else if IsDigit(s[i]) then
      ScanNumberFacts(s, i);
      match ScanNumber(s, i)
      case Err(e) => Err(e)
      case Ok((t, j)) => Concat([t], LexFrom(s, j))
    else if IsOperator(s[i]) then Concat([OperatorToken(s[i])], LexFrom(s, i + 1))
    else Err(UnexpectedCharacterError(s, i, s[i]))
  }

  /** Every token the lexer returns is well formed. */
  lemma {:induction false} LexWellFormed(s: string, i: nat)
    requires i <= |s| && LexFrom(s, i).Ok?
    ensures forall t :: t in LexFrom(s, i).value ==> WellFormed(t)
    decreases |s| - i
  {
    if i == |s| {
    } else if s[i] == ' ' {
      LexWellFormed(s, i + 1);
    } else if IsDigit(s[i]) {
      ScanNumberFacts(s, i);
      ScanWellFormed(s, i);
      var (t, j) := ScanNumber(s, i).value;
      LexWellFormed(s, j);
      assert LexFrom(s, i).value == [t] + LexFrom(s, j).value;
    } else {
      LexWellFormed(s, i + 1);
      assert LexFrom(s, i).value == [OperatorToken(s[i])] + LexFrom(s, i + 1).value;
    }
  }

  /** `new Lexer(s).make_tokens()`. */
  function Lex(s: string): (r: Result<seq<Token>>)
    ensures r.Ok? ==> |r.value| <= |s|
    ensures r.Err? ==> r.error.text == s && r.error.position < |s| && r.error.character == s[r.error.position]
  {
    LexFrom(s, 0)
  }

  /** The lexer object: the input, and the cursor `position` with the
      `character` under it. */
  class Lexer {
    const input: string
    var position: int
    var character: Option<char>

    /** The cursor lies on the input or just past it, and `character` is the
        character under it (`None` exactly at the end). */
    ghost predicate Valid()
      reads this
    {
      0 <= position <= |input| && character == At(input, position)
    }

    constructor (input: string)
      ensures this.input == input && position == 0 && Valid()
    {
      this.input := input;
      position := -1;
      character := None;
      new;
      Continue();
    }

    /** `continue()`: step the cursor one place to the right. */
    method Continue()
      modifies this
      ensures position == old(position) + 1
      ensures character == At(input, position)
      ensures -1 <= old(position) < |input| ==> (character == None <==> position == |input|)
      ensures -1 <= old(position) < |input| ==> Valid()
    {
      position := position + 1;
      if position == |input| {
        character := None;
      } else {
        character := At(input, position);
      }
    }

    /** `make_number()`: consume the run of digits and full stops under the
        cursor; a second full stop stops the scan with an error at it. */
    method MakeNumber() returns (r: Result<Token>)
      requires Valid()
      modifies this
      ensures Valid()
      ensures r.Ok? ==> ScanNumber(input, old(position)) == Ok((r.value, position))
      ensures r.Err? ==> ScanNumber(input, old(position)) == Err(r.error) && position == r.error.position
    {
      var start := position;
      var number: string := [];
      var fullStops := 0;
      while character.Some? && IsNumberChar(character.value)
        invariant Valid() && start <= position
        invariant number == input[start..position]
        invariant forall k :: start <= k < position ==> IsNumberChar(input[k])
        invariant fullStops == Dots(number) <= 1
        decreases |input| - position
      {
        var c := character.value;
        DotsSnoc(number, c);
        SliceSnoc(input, start, position);
        number := number + [c];
        if c == '.' {
          fullStops := fullStops + 1;
          if fullStops == 2 {
            SecondDotError(input, start, position);
            return Err(UnexpectedCharacterError(input, position, '.'));
          }
        }
        Continue();
      }
      ScanWholeRun(input, start, position);
      if fullStops == 0 {
        NoDotsAllDigits(number);
        return Ok(Integer(DecimalValue(number)));
      }
      return Ok(Float(number));
    }

    /** `make_tokens()`: scan the rest of the input left to right. */
    method MakeTokens() returns (r: Result<seq<Token>>)
      requires Valid()
      modifies this
      ensures Valid()
      ensures r == LexFrom(input, old(position))
      ensures r.Ok? ==> position == |input|
      ensures r.Err? ==> position == r.error.position
    {
      var tokens: seq<Token> := [];
      ConcatNil(LexFrom(input, position));
      while character != None
        invariant Valid() && old(position) <= position
        invariant LexFrom(input, old(position)) == Concat(tokens, LexFrom(input, position))
        decreases |input| - position
      {
        var c := character.value;
        ghost var here, before := position, tokens;
        if c == ' ' {
        } else if IsDigit(c) {
          var number := MakeNumber();
          if number.Err? {
            return Err(number.error);
          }
          ConcatConcat(tokens, [number.value], LexFrom(input, position));
          tokens := tokens + [number.value];
          continue;
        } else if c == '+' {
          tokens := tokens + [Add];
        } else if c == '-' {
          tokens := tokens + [Minus];
        } else if c == '*' {
          tokens := tokens + [Multiply];
        } else if c == '/' {
          tokens := tokens + [Divide];
        } else if c == '(' {
          tokens := tokens + [LeftBracket];
        } else if c == ')' {
          tokens := tokens + [RightBracket];
        } else {
          return Err(UnexpectedCharacterError(input, position, c));
        }
        if c != ' ' {
          ConcatConcat(before, [tokens[|tokens| - 1]], LexFrom(input, here + 1));
        }
        Continue();
      }
      assert tokens + [] == tokens;
      return Ok(tokens);
    }
  }

  // ---------------------------------------------------------------------
  // Properties of the specification

  /** A maximal run of digits scans as an `Integer` holding its decimal value. */
  lemma ScanInteger(s: string, i: nat, j: nat)
    requires i < j <= |s| && AllDigits(s[i..j])
    requires j == |s| || !IsNumberChar(s[j])
    ensures ScanNumber(s, i) == Ok((Integer(DecimalValue(s[i..j])), j))
  {
    DigitsInSlice(s, i, j);
    DotsZero(s[i..j]);
    ScanWholeRun(s, i, j);
  }

  /** Digits, one full stop and digits, up to the end of the run, scan as a
      `Float` keeping that lexeme. */
  lemma ScanFloat(s: string, i: nat, m: nat, j: nat)
    requires i <= m < j <= |s| && AllDigits(s[i..m]) && s[m] == '.' && AllDigits(s[m + 1..j])
    requires j == |s| || !IsNumberChar(s[j])
    ensures ScanNumber(s, i) == Ok((Float(s[i..j]), j))
  {
    assert s[i..j] == s[i..m] + [s[m]] + s[m + 1..j];
    DotsAppend(s[i..m] + [s[m]], s[m + 1..j]);
    DotsSnoc(s[i..m], s[m]);
    DigitsInSlice(s, i, m);
    DigitsInSlice(s, m + 1, j);
    DotsZero(s[i..m]);
    DotsZero(s[m + 1..j]);
    ScanWholeRun(s, i, j);
  }

  /** Once a run has had digits, a full stop and digits, a second full stop is
      reported at its own index, whatever follows it. */
  lemma ScanSecondDot(s: string, i: nat, m: nat, k: nat)
    requires i <= m < k < |s| && AllDigits(s[i..m]) && s[m] == '.' && AllDigits(s[m + 1..k]) && s[k] == '.'
    ensures ScanNumber(s, i) == Err(UnexpectedCharacterError(s, k, '.'))
  {
    assert s[i..k] == s[i..m] + [s[m]] + s[m + 1..k];
    DotsAppend(s[i..m] + [s[m]], s[m + 1..k]);
    DotsSnoc(s[i..m], s[m]);
    DigitsInSlice(s, i, m);
    DigitsInSlice(s, m + 1, k);
    DotsZero(s[i..m]);
    DotsZero(s[m + 1..k]);
    SecondDotError(s, i, k);
  }

  /** An error names either a full stop or a character the lexer does not
      recognise, and every character before it was recognised. */
  lemma {:induction false} ErrorCharacter(s: string, i: nat)
    requires i <= |s| && LexFrom(s, i).Err?
    ensures var e := LexFrom(s, i).error;
            e.character == '.' || !Recognised(e.character)
    ensures forall k :: i <= k < LexFrom(s, i).error.position ==> Recognised(s[k])
    decreases |s| - i
  {
    if s[i] == ' ' {
      ErrorCharacter(s, i + 1);
    } else if IsDigit(s[i]) {
      ScanNumberFacts(s, i);
      match ScanNumber(s, i)
      case Err(e) =>
      case Ok((t, j)) =>
        ErrorCharacter(s, j);
    } else if IsOperator(s[i]) {
      ErrorCharacter(s, i + 1);
    }
  }

  /** An unrecognised character anywhere ahead means no token list: the scan
      fails at that character or earlier. */
  lemma {:induction false} UnrecognisedFails(s: string, i: nat, k: nat)
    requires i <= k < |s| && !Recognised(s[k])
    ensures LexFrom(s, i).Err? && LexFrom(s, i).error.position <= k
    decreases |s| - i
  {
    if s[i] == ' ' {
      UnrecognisedFails(s, i + 1, k);
    } else if IsDigit(s[i]) {
      ScanNumberFacts(s, i);
      match ScanNumber(s, i)
      case Err(e) =>
      case Ok((t, j)) =>
        UnrecognisedFails(s, j, k);
    } else if IsOperator(s[i]) {
      UnrecognisedFails(s, i + 1, k);
    }
  }

  /** A full stop that does not continue a run of digits and full stops,
      a leading one for instance, means no token list either. */
  lemma {:induction false} StrayFullStopFails(s: string, i: nat, k: nat)
    requires i <= k < |s| && s[k] == '.' && (k == i || !IsNumberChar(s[k - 1]))
    ensures LexFrom(s, i).Err? && LexFrom(s, i).error.position <= k
    decreases |s| - i
  {
    if i < k {
      if s[i] == ' ' {
        StrayFullStopFails(s, i + 1, k);
      } else if IsDigit(s[i]) {
        ScanNumberFacts(s, i);
        match ScanNumber(s, i)
        case Err(e) =>
        case Ok((t, j)) =>
          StrayFullStopFails(s, j, k);
      } else if IsOperator(s[i]) {
        StrayFullStopFails(s, i + 1, k);
      }
    }
  }

  predicate OperatorsAndSpaces(cs: string)
  {
    forall k :: 0 <= k < |cs| ==> cs[k] == ' ' || IsOperator(cs[k])
  }

  /** Each operator character as its token, spaces dropped, in order. */
  function OperatorTokens(cs: string): seq<Token>
    requires OperatorsAndSpaces(cs)
  {
    if cs == [] then []
    else (if cs[0] == ' ' then [] else [OperatorToken(cs[0])]) + OperatorTokens(cs[1..])
  }

  /** Text made of operators, brackets and spaces lexes to one token per
      non-space character, in source order. */
  lemma {:induction false} OnlyOperators(s: string, i: nat)
    requires i <= |s| && OperatorsAndSpaces(s[i..])
    ensures LexFrom(s, i) == Ok(OperatorTokens(s[i..]))
    decreases |s| - i
  {
    if i < |s| {
      assert s[i..][1..] == s[i + 1..];
      assert s[i..][0] == s[i];
      var rest := s[i + 1..];
      assert OperatorsAndSpaces(rest) by {
        forall k | 0 <= k < |rest|
          ensures rest[k] == ' ' || IsOperator(rest[k])
        {
          assert rest[k] == s[i..][k + 1];
        }
      }
      OnlyOperators(s, i + 1);
      var head := if s[i] == ' ' then [] else [OperatorToken(s[i])];
      assert OperatorTokens(s[i..]) == head + OperatorTokens(s[i + 1..]);
      assert [] + OperatorTokens(s[i + 1..]) == OperatorTokens(s[i + 1..]);
    } else {
      assert s[i..] == [];
    }
  }

  /** The canonical spelling of a token. */
  function Spelling(t: Token): string
  {
    match t
    case Integer(v) => DecimalDigits(v)
    case Float(l) => l
    case _ => [Symbol(t)]
  }

  /** Tokens spelt out, each after the number of spaces `gaps` gives for it. */
  function Render(ts: seq<Token>, gaps: seq<nat>): string
    requires |gaps| == |ts|
  {
    if ts == [] then "" else Spaces(gaps[0]) + Spelling(ts[0]) + Render(ts[1..], gaps[1..])
  }

  /** Rendering distributes over concatenation. */
  lemma {:induction false} RenderAppend(ts: seq<Token>, gs: seq<nat>, us: seq<Token>, hs: seq<nat>)
    requires |gs| == |ts| && |hs| == |us|
    ensures Render(ts + us, gs + hs) == Render(ts, gs) + Render(us, hs)
    decreases ts
  {
    if ts == [] {
      assert ts + us == us && gs + hs == hs;
    } else {
      assert (ts + us)[1..] == ts[1..] + us && (gs + hs)[1..] == gs[1..] + hs;
      RenderAppend(ts[1..], gs[1..], us, hs);
    }
  }

  /** Two numbers in a row have at least one space between them; an operator
      or a bracket may touch its neighbours. */
  predicate Separated(ts: seq<Token>, gaps: seq<nat>)
    requires |gaps| == |ts|
  {
    forall k {:trigger gaps[k]} :: 0 < k < |ts| && !IsSymbolToken(ts[k - 1]) && !IsSymbolToken(ts[k]) ==> gaps[k] > 0
  }

  /** `t` is spelt at index `i` of `s`, and a number's spelling is not
      followed by a further digit or full stop. */
  predicate SpeltAt(s: string, i: nat, t: Token)
  {
    var n := i + |Spelling(t)|;
    && n <= |s| && s[i..n] == Spelling(t)
    && (IsSymbolToken(t) || n == |s| || !IsNumberChar(s[n]))
  }

  /** Digits, a full stop and digits make a well-formed `Float` lexeme. */
  lemma FloatLexeme(a: string, b: string)
    requires |a| > 0 && AllDigits(a) && AllDigits(b)
    ensures WellFormed(Float(a + "." + b))
  {
    var l := a + "." + b;
    DotsZero(a);
    DotsZero(b);
    DotsSnoc(a, '.');
    DotsAppend(a + ".", b);
    assert forall k :: 0 <= k < |l| ==> l[k] == if k < |a| then a[k] else if k == |a| then '.' else b[k - |a| - 1];
  }

  /** A well-formed token spelt at `i`, followed by text that lexes to the
      remaining tokens, lexes to all of them. */
  lemma TokenAt(s: string, i: nat, ts: seq<Token>)
    requires ts != [] && WellFormed(ts[0]) && SpeltAt(s, i, ts[0])
    requires LexFrom(s, i + |Spelling(ts[0])|) == Ok(ts[1..])
    ensures LexFrom(s, i) == Ok(ts)
  {
    var t := ts[0];
    var n := i + |Spelling(t)|;
    assert [t] + ts[1..] == ts;
    assert s[i] == Spelling(t)[0] by { assert s[i..n][0] == s[i]; }
    if IsSymbolToken(t) {
      SymbolRoundTrip(t);
    } else {
      SpeltNumber(s, i, t);
    }
  }

  lemma SpeltNumber(s: string, i: nat, t: Token)
    requires WellFormed(t) && (t.Integer? || t.Float?) && SpeltAt(s, i, t)
    ensures ScanNumber(s, i) == Ok((t, i + |Spelling(t)|))
  {
    var sp := Spelling(t);
    var n := i + |sp|;
    if t.Integer? {
      DecimalRoundTrip(t.value);
      ScanInteger(s, i, n);
    } else {
      forall m | i <= m < n
        ensures IsNumberChar(s[m])
      {
        assert s[m] == s[i..n][m - i];
      }
      ScanWholeRun(s, i, n);
    }
  }

  /** Spaces from `i` on are skipped. */
  lemma {:induction false} SkipSpaces(s: string, i: nat, g: nat)
    requires i + g <= |s|
    requires forall q :: i <= q < i + g ==> s[q] == ' '
    ensures LexFrom(s, i) == LexFrom(s, i + g)
    decreases g
  {
    if g > 0 {
      SkipSpaces(s, i + 1, g - 1);
    }
  }

  /** A well-formed token is spelt with at least one character; a symbol's
      first character is not part of a number. */
  lemma SpellingStart(t: Token)
    requires WellFormed(t)
    ensures |Spelling(t)| > 0
    ensures IsSymbolToken(t) ==> !IsNumberChar(Spelling(t)[0])
  {
  }

  /** Where the three parts of a text that ends `s` sit in `s`. */
  lemma ThreeParts(s: string, i: nat, j: nat, k: nat, a: string, b: string, c: string)
    requires i <= |s| && s[i..] == a + b + c
    requires j == i + |a| && k == j + |b|
    ensures k <= |s| && s[i..j] == a && s[j..k] == b && s[k..] == c
  {
    assert s[i..j] == s[i..][..|a|];
    assert s[j..k] == s[i..][|a|..|a| + |b|];
    assert s[k..] == s[i..][|a| + |b|..];
  }

  /** A slice that reads as spaces holds a space at each of its indices. */
  lemma SpacesAt(s: string, i: nat, g: nat)
    requires i + g <= |s| && s[i..i + g] == Spaces(g)
    ensures forall q :: i <= q < i + g ==> s[q] == ' '
  {
    forall q | i <= q < i + g
      ensures s[q] == ' '
    {
      assert s[q] == s[i..i + g][q - i];
    }
  }

  /** A non-empty rendering is the first token's spaces and spelling, then the rest. */
  lemma RenderCons(ts: seq<Token>, gaps: seq<nat>)
    requires |gaps| == |ts| && ts != []
    ensures Render(ts, gaps) == Spaces(gaps[0]) + Spelling(ts[0]) + Render(ts[1..], gaps[1..])
  {
  }

  /** Where spaces, a spelling and the text after it sit in `s`. */
  lemma SpacedAt(s: string, i: nat, g: nat, sp: string, rest: string)
    requires i <= |s| && s[i..] == Spaces(g) + sp + rest
    ensures i + g + |sp| <= |s|
    ensures forall q :: i <= q < i + g ==> s[q] == ' '
    ensures s[i + g..i + g + |sp|] == sp && s[i + g + |sp|..] == rest
  {
    ThreeParts(s, i, i + g, i + g + |sp|, Spaces(g), sp, rest);
    SpacesAt(s, i, g);
  }

  /** Where a rendered token sits in the text, and what follows it. */
  lemma RenderSplit(s: string, i: nat, ts: seq<Token>, gaps: seq<nat>)
    requires |gaps| == |ts| && ts != []
    requires i <= |s| && s[i..] == Render(ts, gaps)
    ensures i + gaps[0] + |Spelling(ts[0])| <= |s|
    ensures forall q :: i <= q < i + gaps[0] ==> s[q] == ' '
    ensures s[i + gaps[0]..i + gaps[0] + |Spelling(ts[0])|] == Spelling(ts[0])
    ensures s[i + gaps[0] + |Spelling(ts[0])|..] == Render(ts[1..], gaps[1..])
  {
    RenderCons(ts, gaps);
    SpacedAt(s, i, gaps[0], Spelling(ts[0]), Render(ts[1..], gaps[1..]));
  }

  /** The first character of a non-empty rendering. */
  lemma RenderFirst(ts: seq<Token>, gaps: seq<nat>)
    requires |gaps| == |ts| && ts != [] && WellFormed(ts[0])
    ensures |Render(ts, gaps)| > 0
    ensures Render(ts, gaps)[0] == if gaps[0] > 0 then ' ' else Spelling(ts[0])[0]
  {
    SpellingStart(ts[0]);
    assert Render(ts, gaps) == Spaces(gaps[0]) + Spelling(ts[0]) + Render(ts[1..], gaps[1..]);
  }

  /** The first token of a rendering is spelt after its spaces, and the
      text after it renders the rest, which is still separated. */
  lemma RenderedToken(s: string, i: nat, ts: seq<Token>, gaps: seq<nat>)
    requires |gaps| == |ts| && ts != [] && Separated(ts, gaps)
    requires i <= |s| && s[i..] == Render(ts, gaps)
    requires forall t :: t in ts ==> WellFormed(t)
    ensures i + gaps[0] + |Spelling(ts[0])| <= |s|
    ensures forall q :: i <= q < i + gaps[0] ==> s[q] == ' '
    ensures SpeltAt(s, i + gaps[0], ts[0])
    ensures s[i + gaps[0] + |Spelling(ts[0])|..] == Render(ts[1..], gaps[1..])
    ensures Separated(ts[1..], gaps[1..])
  {
    var t, rest, gs := ts[0], ts[1..], gaps[1..];
    var n := i + gaps[0] + |Spelling(t)|;
    RenderSplit(s, i, ts, gaps);
    forall k | 0 < k < |rest| && !IsSymbolToken(rest[k - 1]) && !IsSymbolToken(rest[k])
      ensures gs[k] > 0
    {
      assert rest[k - 1] == ts[k] && rest[k] == ts[k + 1] && gs[k] == gaps[k + 1];
    }
    if n < |s| && !IsSymbolToken(t) {
      assert ts[1] in ts;
      RenderFirst(rest, gs);
      assert s[n] == s[n..][0];
      if gs[0] == 0 {
        assert IsSymbolToken(rest[0]) by { assert ts[1] == rest[0] && gaps[1] == gs[0]; }
        SpellingStart(rest[0]);
      }
    }
  }

  /** Spaces, a spelt token, then text that lexes to the remaining tokens:
      the whole lexes to all of them. */
  lemma SpacesThenToken(s: string, i: nat, g: nat, ts: seq<Token>)
    requires ts != [] && i + g <= |s| && forall q :: i <= q < i + g ==> s[q] == ' '
    requires WellFormed(ts[0]) && SpeltAt(s, i + g, ts[0])
    requires LexFrom(s, i + g + |Spelling(ts[0])|) == Ok(ts[1..])
    ensures LexFrom(s, i) == Ok(ts)
  {
    SkipSpaces(s, i, g);
    TokenAt(s, i + g, ts);
  }

  /** From `i` on, `s` holds exactly the tokens `ts`, each after the
      number of spaces `gaps` gives for it. */
  predicate Spelt(s: string, i: nat, ts: seq<Token>, gaps: seq<nat>)
    requires |gaps| == |ts|
    decreases ts
  {
    if ts == [] then i == |s|
    else
      var m := i + gaps[0];
      && m <= |s| && (forall q :: i <= q < m ==> s[q] == ' ')
      && WellFormed(ts[0]) && SpeltAt(s, m, ts[0])
      && Spelt(s, m + |Spelling(ts[0])|, ts[1..], gaps[1..])
  }

  /** The first spelt token, then whatever the rest lexes to. */
  lemma SpeltStep(s: string, i: nat, ts: seq<Token>, gaps: seq<nat>)
    requires |gaps| == |ts| && ts != []
    ensures Spelt(s, i, ts, gaps) && LexFrom(s, i + gaps[0] + |Spelling(ts[0])|) == Ok(ts[1..]) ==>
              LexFrom(s, i) == Ok(ts)
  {
    if Spelt(s, i, ts, gaps) && LexFrom(s, i + gaps[0] + |Spelling(ts[0])|) == Ok(ts[1..]) {
      SpacesThenToken(s, i, gaps[0], ts);
    }
  }

  /** Text that spells tokens lexes to those tokens. */
  lemma {:induction false} SpeltLexes(s: string, i: nat, ts: seq<Token>, gaps: seq<nat>)
    requires |gaps| == |ts|
    ensures Spelt(s, i, ts, gaps) ==> i <= |s| && LexFrom(s, i) == Ok(ts)
    decreases ts
  {
    if ts != [] {
      SpeltLexes(s, i + gaps[0] + |Spelling(ts[0])|, ts[1..], gaps[1..]);
      SpeltStep(s, i, ts, gaps);
    }
  }

  /** From `i` on, `s` is a rendering of well-formed, separated tokens. */
  predicate Rendered(s: string, i: nat, ts: seq<Token>, gaps: seq<nat>)
    requires |gaps| == |ts|
  {
    && Separated(ts, gaps) && i <= |s| && s[i..] == Render(ts, gaps)
    && forall t :: t in ts ==> WellFormed(t)
  }

  /** The first rendered token is spelt after its spaces, and the rest of
      the text renders the rest of the tokens. */
  lemma RenderedHead(s: string, i: nat, ts: seq<Token>, gaps: seq<nat>)
    requires |gaps| == |ts| && ts != []
    ensures Rendered(s, i, ts, gaps) ==>
      && i + gaps[0] <= |s| && (forall q :: i <= q < i + gaps[0] ==> s[q] == ' ')
      && WellFormed(ts[0]) && SpeltAt(s, i + gaps[0], ts[0])
      && i + gaps[0] + |Spelling(ts[0])| <= |s|
      && Rendered(s, i + gaps[0] + |Spelling(ts[0])|, ts[1..], gaps[1..])
  {
    if Rendered(s, i, ts, gaps) {
      RenderedToken(s, i, ts, gaps);
      assert forall u :: u in ts[1..] ==> u in ts;
      assert ts[0] in ts;
    }
  }

  /** A spelt first token in front of a spelt rest. */
  lemma SpeltCons(s: string, i: nat, ts: seq<Token>, gaps: seq<nat>)
    requires |gaps| == |ts| && ts != []
    ensures (&& i + gaps[0] <= |s| && (forall q :: i <= q < i + gaps[0] ==> s[q] == ' ')
             && WellFormed(ts[0]) && SpeltAt(s, i + gaps[0], ts[0])
             && Spelt(s, i + gaps[0] + |Spelling(ts[0])|, ts[1..], gaps[1..])) ==> Spelt(s, i, ts, gaps)
  {
  }

  /** A rendering of well-formed, separated tokens spells them. */
  lemma {:induction false} RenderSpelt(s: string, i: nat, ts: seq<Token>, gaps: seq<nat>)
    requires |gaps| == |ts|
    ensures Rendered(s, i, ts, gaps) ==> Spelt(s, i, ts, gaps)
    decreases ts
  {
    if ts == [] {
      if Rendered(s, i, ts, gaps) {
        assert |s[i..]| == 0;
      }
    } else {
      RenderedHead(s, i, ts, gaps);
      RenderSpelt(s, i + gaps[0] + |Spelling(ts[0])|, ts[1..], gaps[1..]);
      SpeltCons(s, i, ts, gaps);
    }
  }

  /** Round trip: well-formed tokens, spelt with any spacing that keeps
      adjacent numbers apart, lex back to exactly those tokens. */
  lemma LexRender(ts: seq<Token>, gaps: seq<nat>)
    requires |gaps| == |ts| && Separated(ts, gaps)
    requires forall t :: t in ts ==> WellFormed(t)
    ensures Lex(Render(ts, gaps)) == Ok(ts)
  {
    var s := Render(ts, gaps);
    assert s[0..] == s;
    RenderSpelt(s, 0, ts, gaps);
    SpeltLexes(s, 0, ts, gaps);
  }

  /** One space before every token. */
  function SingleGaps(n: nat): (gaps: seq<nat>)
    ensures |gaps| == n && forall k :: 0 <= k < n ==> gaps[k] == 1
  {
    if n == 0 then [] else SingleGaps(n - 1) + [1]
  }

  /** Whatever text lexes successfully has a canonical spelling, one space
      before each token, that lexes to the same tokens. */
  lemma CanonicalSpelling(s: string)
    requires Lex(s).Ok?
    ensures Lex(Render(Lex(s).value, SingleGaps(|Lex(s).value|))) == Lex(s)
  {
    var ts := Lex(s).value;
    LexWellFormed(s, 0);
    LexRender(ts, SingleGaps(|ts|));
  }

  /** A second full stop in one number: the scan stops there with no tokens. */
  lemma SecondDotExample()
    ensures Lex("1.2.3") == Err(UnexpectedCharacterError("1.2.3", 3, '.'))
  {
    ScanSecondDot("1.2.3", 0, 1, 3);
  }
}
