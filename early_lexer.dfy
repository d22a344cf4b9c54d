/** The earlier lexer of testing.js. It never fails: an unrecognised character
    is reported on the console and skipped, and a number with a second full
    stop ends just after that full stop and leaves an empty entry (JavaScript's
    `undefined`, here `None`) in the token list. */
module EarlyLexer {
  import opened Tokens
  import opened Numerals
  import StrictLexer

  /** What this `make_number` yields when started at index `i` of `s`: the
      token, or nothing after a second full stop, and the index after the
      characters it consumed. */
  function ScanNumber(s: string, i: nat): (Option<Token>, nat)
    requires i <= |s|
  {
    var j := RunEnd(s, i);
    var run := s[i..j];
    if Dots(run) <= 1 then (Some(NumberToken(run)), j)
    else (None, i + DotIndex(run, 1) + 1)
  }

  /** The scan yields a token exactly when the maximal run holds at most one
      full stop, and then stops at the run's end; otherwise it yields nothing
      and stops just after the full stop with exactly one full stop before it. */
  lemma ScanNumberFacts(s: string, i: nat)
    requires i <= |s|
    ensures var (t, j) := ScanNumber(s, i);
            && (t.Some? <==> Dots(s[i..RunEnd(s, i)]) <= 1)
            && (t.Some? ==> j == RunEnd(s, i) && (t.value.Integer? <==> Dots(s[i..j]) == 0))
            && (t.None? ==> i + 1 < j <= RunEnd(s, i) && s[j - 1] == '.' && Dots(s[i..j - 1]) == 1)
  {
    if Dots(s[i..RunEnd(s, i)]) > 1 {
      SecondDotAt(s, i, RunEnd(s, i));
    }
  }

  /** Where the strict scanner succeeds, this one yields the same token and
      stops at the same place; where the strict one reports a second full stop,
      this one consumes that full stop and yields nothing. */
  lemma ScanAgreesWithStrict(s: string, i: nat)
    requires i <= |s|
    ensures match StrictLexer.ScanNumber(s, i)
            case Ok((t, j)) => ScanNumber(s, i) == (Some(t), j)
            case Err(e) => ScanNumber(s, i) == (None, e.position + 1)
  {
  }

  /** The scan consumes at least one character from a number character and
      never runs past the input. */
  lemma ScanProgress(s: string, i: nat)
    requires i < |s| && IsNumberChar(s[i])
    ensures i < ScanNumber(s, i).1 <= |s|
  {
    ScanAgreesWithStrict(s, i);
    StrictLexer.ScanNumberFacts(s, i);
  }

  /** What this `make_tokens` returns when the cursor is at index `i` of `s`. */
  function LexFrom(s: string, i: nat): (r: seq<Option<Token>>)
    requires i <= |s|
    ensures |r| <= |s| - i
    decreases |s| - i
  {
    if i == |s| then []
    else if s[i] == ' ' then LexFrom(s, i + 1)
    else if IsDigit(s[i]) then
      ScanProgress(s, i);
      var (t, j) := ScanNumber(s, i);
      [t] + LexFrom(s, j)
    else if IsOperator(s[i]) then [Some(OperatorToken(s[i]))] + LexFrom(s, i + 1)
    else LexFrom(s, i + 1)
  }

  /** `new Lexer(s).make_tokens()`. */
  function Lex(s: string): (r: seq<Option<Token>>)
    ensures |r| <= |s|
    ensures (exists k :: 0 <= k < |s| && IsDigit(s[k])) ==> r != []
  {
    DigitGivesEntry(s, 0);
    LexFrom(s, 0)
  }

  /** A digit ahead of the cursor always leaves an entry in the list. */
  lemma {:induction false} DigitGivesEntry(s: string, i: nat)
    requires i <= |s|
    ensures (exists k :: i <= k < |s| && IsDigit(s[k])) ==> LexFrom(s, i) != []
    decreases |s| - i
  {
    if exists k :: i <= k < |s| && IsDigit(s[k]) {
      var k :| i <= k < |s| && IsDigit(s[k]);
      if !IsDigit(s[i]) && !IsOperator(s[i]) {
        assert i + 1 <= k;
        DigitGivesEntry(s, i + 1);
      }
    }
  }

  /** The lexer object: the input, and the cursor `position` with the
      `character` under it. */
  class Lexer {
    const input: string
    var position: int
    var character: Option<char>

    /** The cursor lies on the input or just past it, and `character` is the
        character under it (`None` exactly at the end). */
    ghost predicate Valid()
      reads this
    {
      0 <= position <= |input| && character == At(input, position)
    }

    constructor (input: string)
      ensures this.input == input && position == 0 && Valid()
    {
      this.input := input;
      position := -1;
      character := None;
      new;
      Continue();
    }

    /** `continue()`: step the cursor one place to the right. */
    method Continue()
      modifies this
      ensures position == old(position) + 1
      ensures character == At(input, position)
      ensures -1 <= old(position) < |input| ==> (character == None <==> position == |input|)
      ensures -1 <= old(position) < |input| ==> Valid()
    {
      position := position + 1;
      if position == |input| {
        character := None;
      } else {
        character := At(input, position);
      }
    }

    /** `make_number()`: consume digits and full stops while at most one full
        stop has been seen; a second full stop is consumed and nothing is
        returned. */
    method MakeNumber() returns (r: Option<Token>)
      requires Valid()
      modifies this
      ensures Valid()
      ensures ScanNumber(input, old(position)) == (r, position)
    {
      var start := position;
      var number: string := [];
      var fullStops := 0;
      while character.Some? && IsNumberChar(character.value) && fullStops <= 1
        invariant Valid() && start <= position
        invariant number == input[start..position]
        invariant forall k :: start <= k < position ==> IsNumberChar(input[k])
        invariant fullStops == Dots(number) <= 2
        invariant fullStops == 2 ==> start < position && input[position - 1] == '.'
        decreases |input| - position
      {
        var c := character.value;
        DotsSnoc(number, c);
        SliceSnoc(input, start, position);
        number := number + [c];
        if c == '.' {
          fullStops := fullStops + 1;
        }
        Continue();
      }
      ScanEnds(input, start, position);
      match fullStops
      case 0 =>
        NoDotsAllDigits(number);
        r := Some(Integer(DecimalValue(number)));
      case 1 =>
        r := Some(Float(number));
      case _ =>
        r := None;
    }

    /** `make_tokens()`: scan the rest of the input left to right; nothing
        stops the scan. */
    method MakeTokens() returns (tokens: seq<Option<Token>>)
      requires Valid()
      modifies this
      ensures Valid() && position == |input|
      ensures tokens == LexFrom(input, old(position))
    {
      tokens := [];
      while character != None
        invariant Valid() && old(position) <= position
        invariant LexFrom(input, old(position)) == tokens + LexFrom(input, position)
        decreases |input| - position
      {
        var c := character.value;
        ghost var here, before := position, tokens;
        if c == ' ' {
        } else if IsDigit(c) {
          var number := MakeNumber();
          assert LexFrom(input, here) == [number] + LexFrom(input, position);
          Regroup(before, [number], LexFrom(input, position));
          tokens := tokens + [number];
          continue;
        } else if c == '+' {
          tokens := tokens + [Some(Add)];
        } else if c == '-' {
          tokens := tokens + [Some(Minus)];
        } else if c == '*' {
          tokens := tokens + [Some(Multiply)];
        } else if c == '/' {
          tokens := tokens + [Some(Divide)];
        } else if c == '(' {
          tokens := tokens + [Some(LeftBracket)];
        } else if c == ')' {
          tokens := tokens + [Some(RightBracket)];
        } else {
          // Reported on the console and skipped.
        }
        assert tokens == before + Step(input, here);
        OtherStep(input, here);
        Regroup(before, Step(input, here), LexFrom(input, here + 1));
        Continue();
      }
      assert tokens + [] == tokens;
    }
  }

  /** Appending is associative. */
  lemma Regroup<T>(a: seq<T>, b: seq<T>, c: seq<T>)
    ensures a + (b + c) == (a + b) + c
  {
  }

  /** A maximal run from `i` to `j` with at most one full stop is scanned
      whole, as the strict scanner scans it. */
  lemma ScanWholeRun(s: string, i: nat, j: nat)
    requires i <= j <= |s|
    requires forall m :: i <= m < j ==> IsNumberChar(s[m])
    requires j == |s| || !IsNumberChar(s[j])
    requires Dots(s[i..j]) <= 1
    ensures ScanNumber(s, i) == (Some(NumberToken(s[i..j])), j)
  {
    ScanAgreesWithStrict(s, i);
    StrictLexer.ScanWholeRun(s, i, j);
  }

  /** A second full stop at `k`, after number characters from `i` holding one
      full stop, ends the scan just after it with nothing to show. */
  lemma ScanSecondDot(s: string, i: nat, k: nat)
    requires i <= k < |s| && s[k] == '.'
    requires forall m :: i <= m <= k ==> IsNumberChar(s[m])
    requires Dots(s[i..k]) == 1
    ensures ScanNumber(s, i) == (None, k + 1)
  {
    StrictLexer.SecondDotError(s, i, k);
    ScanAgreesWithStrict(s, i);
  }

  /** Where the scan loop of `make_number` stops, `ScanNumber` stops too, with
      the token for the run or, after a second full stop, with nothing. */
  lemma ScanEnds(s: string, i: nat, j: nat)
    requires i <= j <= |s| && forall k :: i <= k < j ==> IsNumberChar(s[k])
    requires Dots(s[i..j]) <= 1 ==> j == |s| || !IsNumberChar(s[j])
    requires Dots(s[i..j]) == 2 ==> i < j && s[j - 1] == '.'
    ensures Dots(s[i..j]) <= 1 ==> ScanNumber(s, i) == (Some(NumberToken(s[i..j])), j)
    ensures Dots(s[i..j]) == 2 ==> ScanNumber(s, i) == (None, j)
  {
    if Dots(s[i..j]) <= 1 {
      ScanWholeRun(s, i, j);
    } else if Dots(s[i..j]) == 2 {
      SliceSnoc(s, i, j - 1);
      DotsSnoc(s[i..j - 1], '.');
      ScanSecondDot(s, i, j - 1);
    }
  }

  // ---------------------------------------------------------------------
  // Properties of the specification

  /** Each token as a present entry. */
  function Present(ts: seq<Token>): (r: seq<Option<Token>>)
    ensures |r| == |ts|
    ensures forall k :: 0 <= k < |ts| ==> r[k] == Some(ts[k])
  {
    if ts == [] then [] else [Some(ts[0])] + Present(ts[1..])
  }

  /** Wherever the strict lexer of src.js returns a token list, this lexer
      returns the same tokens, with no empty entry. */
  lemma {:induction false} AgreesWithStrict(s: string, i: nat)
    requires i <= |s| && StrictLexer.LexFrom(s, i).Ok?
    ensures LexFrom(s, i) == Present(StrictLexer.LexFrom(s, i).value)
    decreases |s| - i
  {
    if i == |s| {
    } else if s[i] == ' ' {
      AgreesWithStrict(s, i + 1);
    } else if IsDigit(s[i]) {
      StrictLexer.ScanNumberFacts(s, i);
      ScanAgreesWithStrict(s, i);
      match StrictLexer.ScanNumber(s, i)
      case Ok((t, j)) =>
        AgreesWithStrict(s, j);
        var us := StrictLexer.LexFrom(s, j).value;
        assert StrictLexer.LexFrom(s, i).value == [t] + us;
        assert ([t] + us)[1..] == us;
    } else if IsOperator(s[i]) {
      AgreesWithStrict(s, i + 1);
      var us := StrictLexer.LexFrom(s, i + 1).value;
      assert ([OperatorToken(s[i])] + us)[1..] == us;
    }
  }

  /** Replacing an unrecognised character by a space changes no scan that
      starts at `i` or later: both end a number run, and both are skipped. */
  lemma ScanIgnoresUnrecognised(s: string, k: nat, i: nat)
    requires k < |s| && !Recognised(s[k]) && i <= |s|
    ensures ScanNumber(s[k := ' '], i) == ScanNumber(s, i)
  {
    var s' := s[k := ' '];
    var j := RunEnd(s, i);
    assert forall m :: i <= m < j ==> s'[m] == s[m];
    RunEndUnique(s', i, j);
    assert s'[i..j] == s[i..j];
  }

  /** An unrecognised character is skipped exactly as a space is: the token
      list is the one the text gives with a space in its place. */
  lemma {:induction false} UnrecognisedActsAsSpace(s: string, k: nat, i: nat)
    requires k < |s| && !Recognised(s[k]) && i <= |s|
    ensures LexFrom(s[k := ' '], i) == LexFrom(s, i)
    decreases |s| - i
  {
    var s' := s[k := ' '];
    if i < |s| {
      if i == k {
        assert s'[i] == ' ';
        assert LexFrom(s, i) == LexFrom(s, i + 1);
        UnrecognisedActsAsSpace(s, k, i + 1);
      } else {
        assert s'[i] == s[i];
        if IsDigit(s[i]) {
          ScanIgnoresUnrecognised(s, k, i);
          ScanProgress(s, i);
          var (t, j) := ScanNumber(s, i);
          assert LexFrom(s, i) == [t] + LexFrom(s, j);
          assert LexFrom(s', i) == [t] + LexFrom(s', j);
          UnrecognisedActsAsSpace(s, k, j);
        } else {
          assert LexFrom(s, i) == Step(s, i) + LexFrom(s, i + 1);
          assert LexFrom(s', i) == Step(s, i) + LexFrom(s', i + 1);
          UnrecognisedActsAsSpace(s, k, i + 1);
        }
      }
    }
  }

  /** What a character other than a digit adds to the list. */
  function Step(s: string, i: nat): (r: seq<Option<Token>>)
    requires i < |s|
    ensures |r| <= 1 && (r != [] <==> IsOperator(s[i]))
    ensures r != [] ==> r[0].Some? && IsSymbolToken(r[0].value) && Symbol(r[0].value) == s[i]
  {
    if IsOperator(s[i]) then [Some(OperatorToken(s[i]))] else []
  }

  /** A character other than a digit adds what `Step` says and the scan
      goes on with the next one. */
  lemma OtherStep(s: string, i: nat)
    requires i < |s| && !IsDigit(s[i])
    ensures LexFrom(s, i) == Step(s, i) + LexFrom(s, i + 1)
  {
    if !IsOperator(s[i]) {
      assert [] + LexFrom(s, i + 1) == LexFrom(s, i + 1);
    }
  }

  /** Digits, a full stop, digits and a second full stop: the number ends just
      after the second full stop, leaves an empty entry, and the scan resumes
      there. */
  lemma TwoDots(s: string, i: nat, m: nat, k: nat)
    requires i < m < k < |s| && AllDigits(s[i..m]) && s[m] == '.' && AllDigits(s[m + 1..k]) && s[k] == '.'
    ensures LexFrom(s, i) == [None] + LexFrom(s, k + 1)
  {
    StrictLexer.ScanSecondDot(s, i, m, k);
    ScanAgreesWithStrict(s, i);
    assert IsDigit(s[i]) by { assert s[i] == s[i..m][0]; }
    assert ScanNumber(s, i) == (None, k + 1);
  }

  /** `1.2.3`: the scan takes `1.2.` as one empty entry and `3` as an `Integer`. */
  lemma TwoDotsExample()
    ensures Lex("1.2.3") == [None, Some(Integer(3))]
  {
    var s := "1.2.3";
    TwoDots(s, 0, 1, 3);
    StrictLexer.ScanInteger(s, 4, 5);
    assert s[4..5] == "3";
  }

  /** The text of the first run at the end of testing.js, rendered from its
      tokens with no spaces. */
  lemma SumText()
    ensures StrictLexer.Render([Integer(2), Add, Integer(3), Minus, Integer(4)], [0, 0, 0, 0, 0]) == "2+3-4"
  {
  }

  /** The tokens of the first run are well formed, and operators keep its
      numbers apart. */
  lemma SumTokens(ts: seq<Token>, gaps: seq<nat>)
    requires ts == [Integer(2), Add, Integer(3), Minus, Integer(4)]
    requires gaps == [0, 0, 0, 0, 0]
    ensures forall t :: t in ts ==> StrictLexer.WellFormed(t)
    ensures StrictLexer.Separated(ts, gaps)
  {
    forall k | 0 < k < |ts| && gaps[k] == 0
      ensures IsSymbolToken(ts[k - 1]) || IsSymbolToken(ts[k])
    {
      assert k == 1 || k == 2 || k == 3 || k == 4;
    }
  }

  lemma SumPresent(ts: seq<Token>)
    requires ts == [Integer(2), Add, Integer(3), Minus, Integer(4)]
    ensures Present(ts) == [Some(Integer(2)), Some(Add), Some(Integer(3)), Some(Minus), Some(Integer(4))]
  {
  }

  /** The first run at the end of testing.js: `2+3-4`. */
  lemma SumExample(s: string)
    requires s == "2+3-4"
    ensures Lex(s) == [Some(Integer(2)), Some(Add), Some(Integer(3)), Some(Minus), Some(Integer(4))]
  {
    var ts := [Integer(2), Add, Integer(3), Minus, Integer(4)];
    var gaps := [0, 0, 0, 0, 0];
    SumText();
    SumTokens(ts, gaps);
    StrictLexer.LexRender(ts, gaps);
    AgreesWithStrict(s, 0);
    SumPresent(ts);
  }

  /** The text of the second run, in six parts. */
  lemma MixedPart1()
    ensures StrictLexer.Render([Float("5.75"), Multiply], [0, 1]) == "5.75 *"
  {
  }

  lemma MixedPart2()
    ensures StrictLexer.Render([Float("6.234"), Add], [1, 1]) == " 6.234 +"
  {
  }

  lemma MixedPart3()
    ensures StrictLexer.Render([Integer(4), Divide], [1, 1]) == " 4 /"
  {
  }

  lemma MixedPart4()
    ensures StrictLexer.Render([Integer(79), Multiply, LeftBracket], [1, 1, 1]) == " 79 * ("
  {
  }

  lemma MixedPart5()
    ensures StrictLexer.Render([Float("3.14"), Add], [0, 1]) == "3.14 +"
  {
  }

  lemma MixedPart6()
    ensures StrictLexer.Render([Float("2.17"), RightBracket], [1, 0]) == " 2.17)"
  {
  }

  /** The tokens, the gaps and the text of the second run, each joined from six parts. */
  lemma MixedTokenParts()
    ensures [Float("5.75"), Multiply, Float("6.234"), Add, Integer(4), Divide, Integer(79), Multiply, LeftBracket, Float("3.14"), Add, Float("2.17"), RightBracket]
         == [Float("5.75"), Multiply] + ([Float("6.234"), Add] + ([Integer(4), Divide] + ([Integer(79), Multiply, LeftBracket] + ([Float("3.14"), Add] + [Float("2.17"), RightBracket]))))
  {
  }

  lemma MixedGapParts()
    ensures [0, 1, 1, 1, 1, 1, 1, 1, 1, 0, 1, 1, 0] == [0, 1] + ([1, 1] + ([1, 1] + ([1, 1, 1] + ([0, 1] + [1, 0]))))
  {
  }

  lemma MixedTextParts()
    ensures "5.75 *" + (" 6.234 +" + (" 4 /" + (" 79 * (" + ("3.14 +" + " 2.17)")))) == "5.75 * 6.234 + 4 / 79 * (3.14 + 2.17)"
  {
  }

  /** The text of the second run at the end of testing.js, rendered from its
      tokens part by part. */
  lemma MixedText(ts: seq<Token>, gaps: seq<nat>)
    requires ts == [Float("5.75"), Multiply, Float("6.234"), Add, Integer(4), Divide, Integer(79), Multiply, LeftBracket, Float("3.14"), Add, Float("2.17"), RightBracket]
    requires gaps == [0, 1, 1, 1, 1, 1, 1, 1, 1, 0, 1, 1, 0]
    ensures StrictLexer.Render(ts, gaps) == "5.75 * 6.234 + 4 / 79 * (3.14 + 2.17)"
  {
    var t1, t2, t3 := [Float("5.75"), Multiply], [Float("6.234"), Add], [Integer(4), Divide];
    var t4, t5, t6 := [Integer(79), Multiply, LeftBracket], [Float("3.14"), Add], [Float("2.17"), RightBracket];
    var g1, g2, g3, g4, g5, g6 := [0, 1], [1, 1], [1, 1], [1, 1, 1], [0, 1], [1, 0];
    MixedTokenParts();
    MixedGapParts();
    MixedTextParts();
    MixedPart1();
    MixedPart2();
    MixedPart3();
    MixedPart4();
    MixedPart5();
    MixedPart6();
    StrictLexer.RenderAppend(t5, g5, t6, g6);
    StrictLexer.RenderAppend(t4, g4, t5 + t6, g5 + g6);
    StrictLexer.RenderAppend(t3, g3, t4 + (t5 + t6), g4 + (g5 + g6));
    StrictLexer.RenderAppend(t2, g2, t3 + (t4 + (t5 + t6)), g3 + (g4 + (g5 + g6)));
    StrictLexer.RenderAppend(t1, g1, t2 + (t3 + (t4 + (t5 + t6))), g2 + (g3 + (g4 + (g5 + g6))));
  }

  /** The tokens of the second run are well formed and keep adjacent
      numbers apart. */
  lemma MixedTokens(ts: seq<Token>, gaps: seq<nat>)
    requires ts == [Float("5.75"), Multiply, Float("6.234"), Add, Integer(4), Divide, Integer(79), Multiply, LeftBracket, Float("3.14"), Add, Float("2.17"), RightBracket]
    requires gaps == [0, 1, 1, 1, 1, 1, 1, 1, 1, 0, 1, 1, 0]
    ensures forall t :: t in ts ==> StrictLexer.WellFormed(t)
    ensures StrictLexer.Separated(ts, gaps)
  {
    StrictLexer.FloatLexeme("5", "75");
    assert "5" + "." + "75" == "5.75";
    StrictLexer.FloatLexeme("6", "234");
    assert "6" + "." + "234" == "6.234";
    StrictLexer.FloatLexeme("3", "14");
    assert "3" + "." + "14" == "3.14";
    StrictLexer.FloatLexeme("2", "17");
    assert "2" + "." + "17" == "2.17";
    forall k | 0 < k < |ts| && gaps[k] == 0
      ensures IsSymbolToken(ts[k - 1]) || IsSymbolToken(ts[k])
    {
      assert k == 9 || k == 12;
    }
  }

  lemma MixedPresent(ts: seq<Token>)
    requires ts == [Float("5.75"), Multiply, Float("6.234"), Add, Integer(4), Divide, Integer(79), Multiply, LeftBracket, Float("3.14"), Add, Float("2.17"), RightBracket]
    ensures Present(ts) == [Some(Float("5.75")), Some(Multiply), Some(Float("6.234")), Some(Add), Some(Integer(4)), Some(Divide), Some(Integer(79)), Some(Multiply), Some(LeftBracket), Some(Float("3.14")), Some(Add), Some(Float("2.17")), Some(RightBracket)]
  {
  }

  /** The second run at the end of testing.js: thirteen tokens, four of them
      `Float`s that keep their lexemes. */
  lemma MixedExample(s: string)
    requires s == "5.75 * 6.234 + 4 / 79 * (3.14 + 2.17)"
    ensures Lex(s) == [Some(Float("5.75")), Some(Multiply), Some(Float("6.234")), Some(Add), Some(Integer(4)), Some(Divide), Some(Integer(79)), Some(Multiply), Some(LeftBracket), Some(Float("3.14")), Some(Add), Some(Float("2.17")), Some(RightBracket)]
  {
    var ts := [Float("5.75"), Multiply, Float("6.234"), Add, Integer(4), Divide, Integer(79), Multiply, LeftBracket, Float("3.14"), Add, Float("2.17"), RightBracket];
    var gaps := [0, 1, 1, 1, 1, 1, 1, 1, 1, 0, 1, 1, 0];
    MixedText(ts, gaps);
    MixedTokens(ts, gaps);
    StrictLexer.LexRender(ts, gaps);
    AgreesWithStrict(s, 0);
    MixedPresent(ts);
  }
}
