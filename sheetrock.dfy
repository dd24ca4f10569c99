/** The lexical layer of the formula grammar in `include/sheetrock.h`: the reserved
    characters, the name-character predicates, `parse_name`, and the shapes of the
    abstract syntax tree. */
module Sheetrock {
  import opened Wrappers
  import opened TextRanges
  import opened Foreign

  // ---------------------------------------------------------------------------
  // Abstract syntax tree. Every child is held by an owning pointer that may be
  // empty, hence `Option`; ownership makes every value a finite tree.
  // ---------------------------------------------------------------------------

  datatype Label = Label(value: string)

  /** `ast::cell`, which declares no members. */
  datatype CellRef = CellRef

  /** `ast::block`, which declares no members. */
  datatype Block = Block

  /** `ast::expression` and the node kinds derived from it. */
  datatype Expression =
    | PlainExpression
    | BooleanLiteral
    | NumberLiteral
    | StringLiteral
    | VariantLiteral
    | Range(first: Option<CellRef>, last: Option<CellRef>)
    | Declaration(name: Option<Label>, value: Option<Expression>)
    | UnaryOperator(lhs: Option<Expression>, rhs: Option<Expression>)
    | BinaryOperator(rhs: Option<Expression>)
    | Function(name: Option<Label>, blk: Option<Block>)

  function OptionSize(e: Option<Expression>): (n: nat)
    ensures e.None? <==> n == 0
  {
    match e
    case None => 0
    case Some(x) => Size(x)
  }

  /** The number of expression nodes in a tree. */
  function Size(e: Expression): (n: nat)
    ensures n >= 1
  {
    match e
    case Declaration(_, value) => 1 + OptionSize(value)
    case UnaryOperator(lhs, rhs) => 1 + OptionSize(lhs) + OptionSize(rhs)
    case BinaryOperator(rhs) => 1 + OptionSize(rhs)
    case _ => 1
  }

  function Present(e: Option<Expression>): seq<Expression> {
    match e
    case None => []
    case Some(x) => [x]
  }

  /** The expressions a node owns, in declaration order: a declaration owns its
      value, a unary operator its `lhs` and `rhs`, a binary operator only its `rhs`,
      and the other kinds own no expression. */
  function Children(e: Expression): (cs: seq<Expression>)
    ensures |cs| <= 2
    ensures forall c :: c in cs ==> Size(c) < Size(e)
    ensures e.UnaryOperator? ==> |cs| == |Present(e.lhs)| + |Present(e.rhs)|
    ensures e.BinaryOperator? ==> |cs| == |Present(e.rhs)|
    ensures e.Declaration? ==> |cs| == |Present(e.value)|
    ensures !e.UnaryOperator? && !e.BinaryOperator? && !e.Declaration? ==> cs == []
    ensures forall c :: c in cs <==>
      (e.UnaryOperator? && (e.lhs == Some(c) || e.rhs == Some(c))) ||
      (e.BinaryOperator? && e.rhs == Some(c)) ||
      (e.Declaration? && e.value == Some(c))
  {
    match e
    case Declaration(_, value) => Present(value)
    case UnaryOperator(lhs, rhs) => Present(lhs) + Present(rhs)
    case BinaryOperator(rhs) => Present(rhs)
    case _ => []
  }

  /** The size of a tree is one more than the sizes of the trees its node owns:
      no subtree is shared or counted twice. */
  lemma SizeIsOwnedSum(e: Expression)
    ensures Size(e) == 1 + SumSizes(Children(e))
  {
    match e
    case UnaryOperator(lhs, rhs) =>
      assert Children(e) == Present(lhs) + Present(rhs);
      SumSizesAppend(Present(lhs), Present(rhs));
    case BinaryOperator(rhs) =>
      assert Children(e) == Present(rhs);
    case Declaration(_, value) =>
      assert Children(e) == Present(value);
    case _ =>
      assert Children(e) == [];
  }

  function SumSizes(es: seq<Expression>): nat {
    if es == [] then 0 else Size(es[0]) + SumSizes(es[1..])
  }

  lemma {:induction false} SumSizesAppend(a: seq<Expression>, b: seq<Expression>)
    ensures SumSizes(a + b) == SumSizes(a) + SumSizes(b)
  {
    if a != [] {
      assert (a + b)[1..] == a[1..] + b;
      SumSizesAppend(a[1..], b);
    } else {
      assert a + b == b;
    }
  }

  // ---------------------------------------------------------------------------
  // Character classes
  // ---------------------------------------------------------------------------

  /** The characters `is_reserved` lists, in its order, duplicates included. */
  const ReservedList: seq<char> :=
    ['"', '+', '-', '*', '/', '%', '^', '#', '&', '~',
     '|', '<', '>', '/', '=', '!', '=', '(', ')', '{', '}',
     '[', ']', ':', ';', ',', '.', '\'']

  /** `is_reserved`: one of the characters of the list; none of them is a digit or a
      blank. */
  function IsReserved(c: char): (r: bool)
    ensures r ==> !IsDigit(c) && !IsBlank(c)
  {
    c in ReservedList
  }

  /** The same characters without the repeated `/` and `=`. */
  const ReservedSet: set<char> :=
    {'"', '+', '-', '*', '/', '%', '^', '#', '&', '~', '|', '<', '>', '=', '!',
     '(', ')', '{', '}', '[', ']', ':', ';', ',', '.', '\''}

  /** The repeated entries change nothing: the 28 entries of the list are the characters of the set. */
  lemma ReservedCharacters(c: char)
    ensures IsReserved(c) <==> c in ReservedSet
    ensures |ReservedList| == 28
  {
  }

  /** Blank, backslash, underscore, dollar and at-sign are not reserved. */
  lemma Unreserved(c: char)
    requires c == ' ' || c == '\\' || c == '_' || c == '$' || c == '@'
    ensures !IsReserved(c)
  {
    ReservedCharacters(c);
  }

  /** `is_valid_name_char`: anything not reserved, digits included. */
  function IsValidNameChar(c: char): (r: bool)
    ensures IsDigit(c) ==> r
  {
    !IsReserved(c)
  }

  /** `is_valid_name_begin_char`: a name character that is not a digit. */
  function IsValidNameBeginChar(c: char): (r: bool)
    ensures r <==> IsValidNameChar(c) && !IsDigit(c)
  {
    !IsDigit(c) && !IsReserved(c)
  }

  /** `is_quote`: both quotes are reserved, so neither can be part of a name. */
  function IsQuote(c: char): (r: bool)
    ensures r ==> IsReserved(c) && !IsValidNameChar(c)
  {
    c == '"' || c == '\''
  }

  /** `is_escape`: the backslash, which may open a name. */
  function IsEscape(c: char): (r: bool)
    ensures r ==> IsValidNameBeginChar(c)
  {
    c == '\\'
  }

  // ---------------------------------------------------------------------------
  // parse_name
  // ---------------------------------------------------------------------------

  /** A sub-range `[first, last)` of the range being parsed. */
  datatype Span = Span(first: nat, last: nat)

  /** The first position at or after `i` whose character satisfies `begins`, or `|s|`. */
  function FindFirst(s: string, i: nat, begins: char -> bool): (b: nat)
    requires i <= |s|
    ensures i <= b <= |s|
    ensures forall k :: i <= k < b ==> !begins(s[k])
    ensures b < |s| ==> begins(s[b])
    decreases |s| - i
  {
    if i == |s| || begins(s[i]) then i else FindFirst(s, i + 1, begins)
  }

  /** The end of the run of characters satisfying `continues` that starts at `i`. */
  function RunEnd(s: string, i: nat, continues: char -> bool): (e: nat)
    requires i <= |s|
    ensures i <= e <= |s|
    ensures forall k :: i <= k < e ==> continues(s[k])
    ensures e < |s| ==> !continues(s[e])
    decreases |s| - i
  {
    if i < |s| && continues(s[i]) then RunEnd(s, i + 1, continues) else i
  }

  /** What `from_to` promises by its name alone: a span inside the range, at or after
      position `i`, that opens on a name-begin character when it is not empty. */
  predicate FromToShape(s: string, i: nat, r: Span) {
    i <= r.first <= r.last <= |s| && (r.first < r.last ==> IsValidNameBeginChar(s[r.first]))
  }

  /** The check `parse_name` makes of the span `from_to` returned: not empty, and
      starting where the range starts. */
  function AnchorName(span: Span): Result<Span, ParseFailure> {
    if span.first == span.last || span.first != 0 then Err(ParserException) else Ok(span)
  }

  /** Whatever span a `from_to` of that shape returns after the leading blanks, the
      check accepts only a non-empty name at the very start of the range, and rejects
      a range that is empty or opens with a blank, a digit or a reserved character. */
  lemma AnchorNameForAnyFromTo(s: string, span: Span)
    requires FromToShape(s, LeadingBlanks(s), span)
    ensures AnchorName(span).Ok? ==>
      span.first == 0 && 0 < span.last <= |s| && !IsBlank(s[0]) && IsValidNameBeginChar(s[0])
    ensures s == [] || IsBlank(s[0]) || IsDigit(s[0]) || IsReserved(s[0]) ==> AnchorName(span).Err?
  {
    if span.first == 0 && span.first < span.last {
      // Only a span that opens the range passes, so no blank was skipped and the
      // first character opens a name.
      assert LeadingBlanks(s) == 0;
      assert IsValidNameBeginChar(s[0]);
      assert IsValidNameChar(s[0]) && !IsDigit(s[0]);
    }
  }

  /** `from_to` with the name predicates: from the first character that may begin a
      name, over the characters that may continue it; empty at the end when no
      character may begin a name. */
  function FromTo(s: string, i: nat): (r: Span)
    requires i <= |s|
    ensures i <= r.first <= r.last <= |s|
    ensures r.first < r.last <==> r.first < |s|
    ensures forall k :: i <= k < r.first ==> !IsValidNameBeginChar(s[k])
    ensures forall k :: r.first <= k < r.last ==> IsValidNameChar(s[k])
    ensures r.last < |s| ==> !IsValidNameChar(s[r.last])
    ensures FromToShape(s, i, r)
  {
    var b := FindFirst(s, i, IsValidNameBeginChar);
    Span(b, RunEnd(s, b, IsValidNameChar))
  }

  /** `parse_name`: succeeds exactly when the range opens with a character that may
      begin a name (leading blanks are not skipped: they make the name start after
      `first`), and then returns the longest run of name characters from `first`. */
  function ParseName(s: string): (r: Result<Span, ParseFailure>)
    ensures r.Ok? <==> s != [] && !IsBlank(s[0]) && IsValidNameBeginChar(s[0])
    ensures r.Ok? ==> r.value.first == 0 && 0 < r.value.last <= |s|
    ensures r.Ok? ==> forall k :: 0 <= k < r.value.last ==> IsValidNameChar(s[k])
    ensures r.Ok? ==> r.value.last == |s| || IsReserved(s[r.value.last])
    ensures r.Err? ==> r.error == ParserException
  {
    AnchorName(FromTo(s, LeadingBlanks(s)))
  }

  /** A name that opens the range and runs up to a reserved character is that span. */
  lemma ParseNameUpToReserved(s: string, j: nat)
    requires 0 < j < |s| && !IsBlank(s[0]) && IsValidNameBeginChar(s[0])
    requires forall k :: 0 <= k < j ==> !IsReserved(s[k])
    requires IsReserved(s[j])
    ensures ParseName(s) == Ok(Span(0, j))
  {
    assert !IsValidNameChar(s[j]);
  }

  lemma ParseNameAcceptsExample()
    ensures ParseName("total+1") == Ok(Span(0, 5))
  {
    var s := "total+1";
    forall k | 0 <= k <= 5 ensures IsReserved(s[k]) <==> k == 5 {
      ReservedCharacters(s[k]);
    }
    assert IsValidNameBeginChar(s[0]);
    ParseNameUpToReserved(s, 5);
  }

  /** Leading blanks, a leading digit or a leading reserved character all fail. */
  lemma ParseNameRejectsExamples()
    ensures ParseName(" total").Err?
    ensures ParseName("1total").Err?
    ensures ParseName("+total").Err?
    ensures ParseName("").Err?
  {
    assert IsBlank(" total"[0]);
    assert IsDigit("1total"[0]);
    assert IsReserved("+total"[0]);
  }
}
