/** The literal classifier of `include/evaluator.h`: raw cell text is dispatched on its
    first non-blank character to the formula evaluator, the timestamp/duration/number
    chain, the boolean recogniser or plain text. */
module Evaluator {
  import opened Wrappers
  import opened TextRanges
  import opened Foreign

  /** `result_t`: the value a classified literal carries. */
  datatype Literal =
    | LitString(s: string)
    | LitNumber(n: BigNum)
    | LitTimestamp(t: Timestamp)
    | LitDuration(d: Duration)
    | LitBool(b: bool)

  /** What `evaluator` does with a cell's text: hand the text after `=` to the
      formula evaluator `eval_func`, or classify it as a literal. */
  datatype Dispatch = Formula(body: string) | Value(value: Literal)

  /** `c | 0b00100000`: the character code with bit 5 set. */
  function FoldCase(c: char): (r: int)
    ensures (r / 32) % 2 == 1
    ensures r / 64 == (c as int) / 64 && r % 32 == (c as int) % 32
  {
    var n := c as int;
    if (n / 32) % 2 == 1 then n else n + 32
  }

  /** `is_equal_nc`: `std::equal` over both ranges with the case-folding comparison. */
  function IsEqualNc(a: string, b: string): (r: bool)
    ensures r <==> |a| == |b| && forall i :: 0 <= i < |a| ==> FoldCase(a[i]) == FoldCase(b[i])
  {
    if a == [] || b == [] then |a| == |b|
    else FoldCase(a[0]) == FoldCase(b[0]) && IsEqualNc(a[1..], b[1..])
  }

  lemma IsEqualNcReflexive(a: string)
    ensures IsEqualNc(a, a)
  {
  }

  lemma IsEqualNcSymmetric(a: string, b: string)
    ensures IsEqualNc(a, b) == IsEqualNc(b, a)
  {
  }

  /** Folding only sets bit 5, so letters match across case, and so do the
      non-letters that differ in that bit alone. */
  lemma IsEqualNcExamples()
    ensures IsEqualNc("T", "t") && IsEqualNc("tRuE", "TRUE")
    ensures IsEqualNc("@", "`") && IsEqualNc("[", "{")
    ensures !IsEqualNc("true", "tru") && !IsEqualNc("a", "b")
  {
    assert FoldCase('T') == FoldCase('t') == 116;
    assert FoldCase('R') == FoldCase('r') == 114;
    assert FoldCase('U') == FoldCase('u') == 117;
    assert FoldCase('E') == FoldCase('e') == 101;
    assert FoldCase('@') == FoldCase('`') == 96;
    assert FoldCase('[') == FoldCase('{') == 123;
    assert FoldCase('a') == 97 && FoldCase('b') == 98;
  }

  /** `eval_string`: the range, verbatim, as text. */
  function EvalString(s: string): Literal {
    LitString(s)
  }

  /** `eval_bool` as written: the second comparison overwrites the flag, so a
      successful match always yields `true`. */
  function EvalBoolAsWritten(s: string): (r: Result<Literal, ParseFailure>)
    ensures r.Ok? <==> IsEqualNc(TrimRight(s), "true") || IsEqualNc(TrimRight(s), "false")
    ensures r.Err? ==> r.error == ParserError
  {
    var rng := TrimRight(s);
    var result := IsEqualNc(rng, "true");
    var result := if !result then IsEqualNc(rng, "false") else result;
    if !result then Err(ParserError) else Ok(LitBool(result))
  }

  /** The flag bug: as written, `eval_bool` never yields `false`, and turns "false" into `true`. */
  lemma EvalBoolAsWrittenNeverFalse(s: string)
    ensures EvalBoolAsWritten(s).Ok? ==> EvalBoolAsWritten(s).value == LitBool(true)
    ensures EvalBoolAsWritten("false") == Ok(LitBool(true))
  {
  }

  /** `eval_bool` as intended: right-trimmed text that matches "true" or "false" up to
      case yields that boolean; anything else raises `ParserError`. */
  function EvalBool(s: string): (r: Result<Literal, ParseFailure>)
    ensures r.Ok? <==> IsEqualNc(TrimRight(s), "true") || IsEqualNc(TrimRight(s), "false")
    ensures r.Ok? ==> r.value == LitBool(IsEqualNc(TrimRight(s), "true"))
    ensures r.Err? ==> r.error == ParserError
  {
    var rng := TrimRight(s);
    if IsEqualNc(rng, "true") then Ok(LitBool(true))
    else if IsEqualNc(rng, "false") then Ok(LitBool(false))
    else Err(ParserError)
  }

  /** The written and the intended recogniser accept the same texts and differ exactly
      on the texts that spell "false". */
  lemma EvalBoolAsWrittenVersusIntended(s: string)
    ensures EvalBoolAsWritten(s).Ok? == EvalBool(s).Ok?
    ensures EvalBoolAsWritten(s) != EvalBool(s) <==> EvalBool(s) == Ok(LitBool(false))
  {
  }

  /** No text matches both "true" and "false", whatever its case: the first letters differ. */
  lemma TrueFalseExclusive(s: string)
    ensures !(IsEqualNc(s, "true") && IsEqualNc(s, "false"))
  {
    assert FoldCase('t') != FoldCase('f');
  }

  /** Trailing blanks are ignored and case does not matter. */
  lemma EvalBoolUpperTrue()
    ensures EvalBool("TRUE  ") == Ok(LitBool(true))
  {
    assert "TRUE  " == "TRUE" + "  ";
    TrimRightAppended("TRUE", "  ");
    assert IsEqualNc("TRUE", "true");
  }

  lemma EvalBoolMixedFalse()
    ensures EvalBool("False") == Ok(LitBool(false))
  {
    TrimRightUnblank("False");
    assert IsEqualNc("False", "false");
  }

  /** Other words, and leading blanks, are not booleans. */
  lemma EvalBoolRejects()
    ensures EvalBool("tomato") == Err(ParserError)
    ensures EvalBool(" true") == Err(ParserError)
  {
    TrimRightUnblank("tomato");
    TrimRightUnblank(" true");
    assert !IsEqualNc(" true", "true");
  }

  /** `eval_timestamp`: the trimmed range as an ISO 8601 timestamp, or `ParserException`. */
  function EvalTimestamp(lib: Library, s: string): Result<Literal, ParseFailure>
  {
    match lib.fromIsoString(Trim(s))
    case Some(t) => Ok(LitTimestamp(t))
    case None => Err(ParserException)
  }

  /** `eval_duration`: the range as a duration, or `ParserException`. */
  function EvalDuration(lib: Library, s: string): Result<Literal, ParseFailure>
  {
    match lib.evalDuration(s)
    case Some(d) => Ok(LitDuration(d))
    case None => Err(ParserException)
  }

  /** `eval_number`: the range as a `big_num_t`, or `ParserException`. */
  function EvalNumber(lib: Library, s: string): Result<Literal, ParseFailure>
  {
    match lib.bigNum(s)
    case Some(n) => Ok(LitNumber(n))
    case None => Err(ParserException)
  }

  /** Only the text between the blanks matters to `eval_timestamp`: it trims both ends. */
  lemma EvalTimestampIgnoresOuterBlanks(lib: Library, b1: string, s: string, b2: string)
    requires AllBlank(b1) && AllBlank(b2)
    ensures EvalTimestamp(lib, b1 + s + b2) == EvalTimestamp(lib, s)
  {
    TrimOuterBlanks(b1, s, b2);
  }

  /** `eval_number_timestamp_or_duration`: the first of timestamp, duration and number
      that accepts the range wins; when none does the range is text. No exception escapes. */
  function EvalNumberTimestampOrDuration(lib: Library, s: string): (r: Literal)
    ensures r.LitTimestamp? <==> lib.fromIsoString(Trim(s)).Some?
    ensures r.LitTimestamp? ==> lib.fromIsoString(Trim(s)) == Some(r.t)
    ensures r.LitDuration? <==> lib.fromIsoString(Trim(s)).None? && lib.evalDuration(s).Some?
    ensures r.LitDuration? ==> lib.evalDuration(s) == Some(r.d)
    ensures r.LitNumber? <==>
      lib.fromIsoString(Trim(s)).None? && lib.evalDuration(s).None? && lib.bigNum(s).Some?
    ensures r.LitNumber? ==> lib.bigNum(s) == Some(r.n)
    ensures r.LitString? <==>
      lib.fromIsoString(Trim(s)).None? && lib.evalDuration(s).None? && lib.bigNum(s).None?
    ensures r.LitString? ==> r.s == s
    ensures !r.LitBool?
  {
    match EvalTimestamp(lib, s)
    case Ok(timestamp) => timestamp
    case Err(_) =>
      match EvalDuration(lib, s)
      case Ok(duration) => duration
      case Err(_) =>
        match EvalNumber(lib, s)
        case Ok(number) => number
        case Err(_) => EvalString(s)
  }

  /** A first character that `evaluator` sends to the boolean recogniser. */
  predicate IsBoolStart(c: char) {
    c == 't' || c == 'T' || c == 'f' || c == 'F'
  }

  /** The dispatch of `evaluator` on the left-trimmed text, with the boolean
      recogniser it calls as a parameter. A `ParserError` from the recogniser falls
      back to the left-trimmed text. The source reads the first character
      unconditionally, so the text must not be all blank. */
  function DispatchWith(lib: Library, s: string, recogniseBool: string -> Result<Literal, ParseFailure>): Dispatch
    requires TrimLeft(s) != []
  {
    var rng := TrimLeft(s);
    var c := rng[0];
    if c == '=' then Formula(rng[1..])
    else if IsDigit(c) then Value(EvalNumberTimestampOrDuration(lib, rng))
    else if IsBoolStart(c) then BoolOutcome(recogniseBool(rng), rng)
    else Value(EvalString(rng))
  }

  /** The boolean branch of `evaluator`: the recognised value, or the text on a
      `ParserError`. */
  function BoolOutcome(res: Result<Literal, ParseFailure>, rng: string): Dispatch {
    match res
    case Ok(v) => Value(v)
    case Err(_) => Value(EvalString(rng))
  }

  /** Two dispatches that differ only in their boolean recogniser agree outside the
      boolean branch. */
  lemma DispatchWithBoolOnly(lib: Library, s: string, f: string -> Result<Literal, ParseFailure>,
                             g: string -> Result<Literal, ParseFailure>)
    requires TrimLeft(s) != []
    ensures !IsBoolStart(TrimLeft(s)[0]) ==> DispatchWith(lib, s, f) == DispatchWith(lib, s, g)
    ensures IsBoolStart(TrimLeft(s)[0]) ==> DispatchWith(lib, s, f) == BoolOutcome(f(TrimLeft(s)), TrimLeft(s))
  {
  }

  /** `evaluator` with the intended boolean recogniser: left-trim, then dispatch on
      the first character. */
  function Evaluate(lib: Library, s: string): (r: Dispatch)
    requires TrimLeft(s) != []
    ensures r.Formula? <==> TrimLeft(s)[0] == '='
    ensures r.Formula? ==> r.body == TrimLeft(s)[1..]
    ensures IsDigit(TrimLeft(s)[0]) ==> r == Value(EvalNumberTimestampOrDuration(lib, TrimLeft(s)))
    ensures r.Value? && r.value.LitBool? ==> IsBoolStart(TrimLeft(s)[0])
    ensures r.Value? && !r.value.LitString? && !r.value.LitBool? ==> IsDigit(TrimLeft(s)[0])
    ensures r.Value? && r.value.LitString? ==> r.value.s == TrimLeft(s)
    ensures TrimLeft(s)[0] != '=' && !IsDigit(TrimLeft(s)[0]) && !IsBoolStart(TrimLeft(s)[0]) ==>
      r == Value(LitString(TrimLeft(s)))
  {
    DispatchWith(lib, s, EvalBool)
  }

  /** The two recognisers lead the dispatch apart only in the boolean branch, and
      there only where the intended value is `false`. */
  lemma WrittenVersusIntendedDispatch(lib: Library, s: string)
    requires TrimLeft(s) != []
    ensures var w := DispatchWith(lib, s, EvalBoolAsWritten);
      w.Value? && w.value.LitBool? ==> w.value.b
    ensures DispatchWith(lib, s, EvalBoolAsWritten) != DispatchWith(lib, s, EvalBool) <==>
      IsBoolStart(TrimLeft(s)[0]) && IsEqualNc(TrimRight(TrimLeft(s)), "false")
  {
    var rng := TrimLeft(s);
    DispatchWithBoolOnly(lib, s, EvalBoolAsWritten, EvalBool);
    DispatchWithBoolOnly(lib, s, EvalBool, EvalBoolAsWritten);
    if IsBoolStart(rng[0]) {
      EvalBoolAsWrittenVersusIntended(rng);
      EvalBoolAsWrittenNeverFalse(rng);
      TrueFalseExclusive(TrimRight(rng));
    }
  }

  /** `evaluator` as written, through `eval_bool` as written: it never yields `false`,
      and it differs from the intended dispatch exactly on the texts whose trimmed
      form spells "false". */
  function EvaluateAsWritten(lib: Library, s: string): (r: Dispatch)
    requires TrimLeft(s) != []
    ensures r.Value? && r.value.LitBool? ==> r.value.b
    ensures r != Evaluate(lib, s) <==>
      IsBoolStart(TrimLeft(s)[0]) && IsEqualNc(TrimRight(TrimLeft(s)), "false")
  {
    WrittenVersusIntendedDispatch(lib, s);
    DispatchWith(lib, s, EvalBoolAsWritten)
  }

  /** As written, text that starts like a boolean is `true` whenever the whole
      left-trimmed text spells "true" or "false", and text otherwise. */
  lemma EvaluateAsWrittenBoolPath(lib: Library, s: string)
    requires TrimLeft(s) != [] && IsBoolStart(TrimLeft(s)[0])
    ensures var t := TrimRight(TrimLeft(s));
      EvaluateAsWritten(lib, s) ==
        if IsEqualNc(t, "true") || IsEqualNc(t, "false") then Value(LitBool(true))
        else Value(LitString(TrimLeft(s)))
  {
    DispatchWithBoolOnly(lib, s, EvalBoolAsWritten, EvalBool);
    EvalBoolAsWrittenNeverFalse(TrimLeft(s));
  }

  /** Text already trimmed on both sides that spells "false" is `true` as written. */
  lemma AsWrittenSpelledBool(lib: Library, s: string)
    requires s != [] && TrimLeft(s) == s && TrimRight(s) == s && IsBoolStart(s[0])
    requires IsEqualNc(s, "false")
    ensures EvaluateAsWritten(lib, s) == Value(LitBool(true))
  {
    EvaluateAsWrittenBoolPath(lib, s);
  }

  /** As written, the cell text "false" becomes the boolean `true`. */
  lemma EvaluateAsWrittenFalse(lib: Library)
    ensures EvaluateAsWritten(lib, "false") == Value(LitBool(true))
  {
    TrimLeftUnblank("false");
    TrimRightUnblank("false");
    IsEqualNcReflexive("false");
    AsWrittenSpelledBool(lib, "false");
  }

  /** Text that starts like a boolean is a boolean exactly when the whole left-trimmed
      text spells one; otherwise it is kept as text. */
  lemma EvaluateBoolPath(lib: Library, s: string)
    requires TrimLeft(s) != [] && IsBoolStart(TrimLeft(s)[0])
    ensures var t := TrimRight(TrimLeft(s));
      Evaluate(lib, s) ==
        if IsEqualNc(t, "true") || IsEqualNc(t, "false") then Value(LitBool(IsEqualNc(t, "true")))
        else Value(LitString(TrimLeft(s)))
  {
  }

  /** "tomato" starts like a boolean but is not one, so it stays text. */
  lemma EvaluateTomato(lib: Library)
    ensures Evaluate(lib, "tomato") == Value(LitString("tomato"))
  {
    TrimLeftUnblank("tomato");
    TrimRightUnblank("tomato");
    assert !IsEqualNc("tomato", "true") && !IsEqualNc("tomato", "false") by {
      assert |"tomato"| != |"true"| && |"tomato"| != |"false"|;
    }
    EvaluateBoolPath(lib, "tomato");
  }

  /** A sign is not a digit, so "-5" is text. */
  lemma EvaluateNegative(lib: Library)
    ensures Evaluate(lib, "-5") == Value(LitString("-5"))
  {
    TrimLeftUnblank("-5");
  }

  /** Leading blanks go, trailing blanks stay. */
  lemma EvaluateKeepsTrailingBlanks(lib: Library)
    ensures Evaluate(lib, " yes ") == Value(LitString("yes "))
  {
    assert " yes " == " " + "yes ";
    TrimLeftPrepended(" ", "yes ");
  }

  /** Blanks before a boolean-looking text only delay it: the boolean branch sees the text. */
  lemma EvaluateBoolAfterBlanks(lib: Library, b: string, s: string)
    requires AllBlank(b) && s != [] && IsBoolStart(s[0])
    ensures TrimLeft(b + s) == s && Evaluate(lib, b + s) == BoolOutcome(EvalBool(s), s)
  {
    TrimLeftPrepended(b, s);
    DispatchWithBoolOnly(lib, b + s, EvalBool, EvalBool);
  }

  lemma EvaluateUpperTrue(lib: Library)
    ensures Evaluate(lib, "  TRUE  ") == Value(LitBool(true))
  {
    assert "  TRUE  " == "  " + "TRUE  ";
    EvaluateBoolAfterBlanks(lib, "  ", "TRUE  ");
    EvalBoolUpperTrue();
  }

  lemma EvaluateFalse(lib: Library)
    ensures Evaluate(lib, "false") == Value(LitBool(false))
  {
    TrimLeftUnblank("false");
    TrimRightUnblank("false");
    IsEqualNcReflexive("false");
    TrueFalseExclusive("false");
    EvaluateBoolPath(lib, "false");
  }

  lemma EvaluateFormulaExample(lib: Library)
    ensures Evaluate(lib, " =A1+2") == Formula("A1+2")
  {
    assert " =A1+2" == " " + "=A1+2";
    TrimLeftPrepended(" ", "=A1+2");
  }
}
