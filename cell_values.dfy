/** The cell values of `include/impl_cell_value.h` and `impl_cell_value.cpp`: the
    value types, the string and number cells that notify on every change, and the
    `eval` entry point that turns formula text into a deferred value. */
module CellValues {
  import opened Wrappers
  import opened TextRanges
  import opened Events
  import Foreign

  /** `expected_value_t`: the five kinds of value a column may expect. */
  datatype ExpectedValue = Text | Number | Timestamp | Time | Boolean

  /** `cell_variant_t`: exactly one of text, number, timestamp or boolean. */
  datatype CellVariant =
    | TextValue(text: string)
    | NumberValue(number: Foreign.BigNum)
    | TimestampValue(time: Foreign.Timestamp)
    | BoolValue(flag: bool)

  /** The channel a cell's data-updated events travel on: its id, then `_data_updated`. */
  function DataUpdatedChannel(id: string): (ch: string)
    ensures |ch| == |id| + 13
    ensures ch[..|id|] == id && ch[|id|..] == "_data_updated"
  {
    id + "_data_updated"
  }

  /** Cells with different ids notify on different channels. */
  lemma DataUpdatedChannelInjective(a: string, b: string)
    ensures DataUpdatedChannel(a) == DataUpdatedChannel(b) ==> a == b
  {
    if DataUpdatedChannel(a) == DataUpdatedChannel(b) {
      assert a == DataUpdatedChannel(a)[..|a|];
    }
  }

  // ---------------------------------------------------------------------------
  // The pure part of impl_cell_value.cpp
  // ---------------------------------------------------------------------------

  /** `try_numeric`: the number, or nothing where `big_num_t` construction throws. */
  function TryNumeric(lib: Foreign.Library, s: string): Option<Foreign.BigNum> {
    lib.bigNum(s)
  }

  /** What `find_numeric` promises of its result: it lies inside the range searched. */
  predicate NumeralInside(lib: Foreign.Library, t: string) {
    lib.findNumeric(t).Some? ==> lib.findNumeric(t).value <= |t|
  }

  /** `assert( opt_num )` in `to_variant` failing: the program stops. */
  datatype Abort = AssertionFailed

  /** Where in the buffer the numeral `find_numeric` finds in `buf[lo..hi]` begins. */
  function NumeralStart(lib: Foreign.Library, buf: string, lo: nat, hi: nat): (p: nat)
    requires lo <= hi <= |buf| && NumeralInside(lib, buf[lo..hi])
    requires lib.findNumeric(buf[lo..hi]).Some?
    ensures lo <= p <= hi
  {
    lo + lib.findNumeric(buf[lo..hi]).value
  }

  /** `to_variant` on the range `buf[lo..hi]`. When `find_numeric` finds a numeral,
      `try_numeric` hands `data()` of it to `big_num_t`, which reads on to the end of
      the buffer, not to the end of the numeral: the number is built from
      `buf[NumeralStart..]`, and when that text does not convert the `assert` stops
      the program. With no numeral, the whole range is the text. */
  function ToVariant(lib: Foreign.Library, buf: string, lo: nat, hi: nat): (r: Result<CellVariant, Abort>)
    requires lo <= hi <= |buf| && NumeralInside(lib, buf[lo..hi])
    ensures lib.findNumeric(buf[lo..hi]).None? ==> r == Ok(TextValue(buf[lo..hi]))
    ensures r.Err? <==>
      lib.findNumeric(buf[lo..hi]).Some? && lib.bigNum(buf[NumeralStart(lib, buf, lo, hi)..]).None?
    ensures r.Ok? && r.value.NumberValue? ==>
      lib.findNumeric(buf[lo..hi]).Some? &&
      lib.bigNum(buf[NumeralStart(lib, buf, lo, hi)..]) == Some(r.value.number)
    ensures lib.findNumeric(buf[lo..hi]).Some? && r.Ok? ==>
      lib.bigNum(buf[NumeralStart(lib, buf, lo, hi)..]).Some? &&
      r.value == NumberValue(lib.bigNum(buf[NumeralStart(lib, buf, lo, hi)..]).value)
    ensures r.Ok? ==> !r.value.TimestampValue? && !r.value.BoolValue?
  {
    match lib.findNumeric(buf[lo..hi])
    case Some(_) =>
      var number := TryNumeric(lib, buf[NumeralStart(lib, buf, lo, hi)..]);
      if number.Some? then Ok(NumberValue(number.value)) else Err(AssertionFailed)
    case None => Ok(TextValue(buf[lo..hi]))
  }

  /** The number is read from the numeral's start to the end of the buffer, so text
      after the numeral, even blanks `trim` removed, reaches `big_num_t`: what
      `to_variant` yields is decided by the rest of the range followed by the rest of
      the buffer. */
  lemma NumeralTailPassesRange(lib: Foreign.Library, buf: string, lo: nat, hi: nat)
    requires lo <= hi <= |buf| && NumeralInside(lib, buf[lo..hi])
    requires lib.findNumeric(buf[lo..hi]).Some?
    ensures var p := NumeralStart(lib, buf, lo, hi);
      match lib.bigNum(buf[p..hi] + buf[hi..])
      case None => ToVariant(lib, buf, lo, hi) == Err(AssertionFailed)
      case Some(n) => ToVariant(lib, buf, lo, hi) == Ok(NumberValue(n))
  {
    var p := NumeralStart(lib, buf, lo, hi);
    assert buf[p..] == buf[p..hi] + buf[hi..];
  }

  /** The callable `eval` returns: it holds a value computed once, when it was made. */
  datatype Deferred = Deferred(captured: CellVariant) {
    function Invoke(): CellVariant {
      captured
    }
  }

  /** `eval`: on the trimmed text, no callable unless it starts with `=`; otherwise
      `to_variant` of the whole trimmed range, `=` included, is computed at once (so
      its `assert` can stop the program here) and captured by the callable. The
      source reads the first character unconditionally, so the text must not be all
      blank. */
  function Eval(lib: Foreign.Library, s: string): (r: Result<Option<Deferred>, Abort>)
    requires Trim(s) != []
    requires Trim(s)[0] == '=' ==> NumeralInside(lib, Trim(s))
    ensures Trim(s)[0] != '=' ==> r == Ok(None)
    ensures r.Ok? ==> (r.value.Some? <==> Trim(s)[0] == '=')
    ensures Trim(s)[0] == '=' ==> (r.Err? <==> ToVariant(lib, s, TrimStart(s), TrimEnd(s)).Err?)
    ensures r.Ok? && r.value.Some? ==>
      Trim(s)[0] == '=' && r.value.value.Invoke() == ToVariant(lib, s, TrimStart(s), TrimEnd(s)).value
  {
    var rng := Trim(s);
    if rng[0] != '=' then Ok(None)
    else
      match ToVariant(lib, s, TrimStart(s), TrimEnd(s))
      case Ok(v) => Ok(Some(Deferred(v)))
      case Err(e) => Err(e)
  }

  /** On text with nothing to trim, `eval` runs `to_variant` over the whole text. */
  lemma EvalUntrimmed(lib: Foreign.Library, s: string)
    requires s != [] && s[0] == '=' && !IsBlank(s[|s| - 1]) && NumeralInside(lib, s)
    ensures Trim(s) == s && TrimStart(s) == 0 && TrimEnd(s) == |s| && s[0..|s|] == s
    ensures Eval(lib, s) ==
      match ToVariant(lib, s, 0, |s|)
      case Ok(v) => Ok(Some(Deferred(v)))
      case Err(e) => Err(e)
  {
    assert TrailingBlanks(s) == 0 && TrimEnd(s) == |s|;
    assert s[..TrimEnd(s)] == s;
    assert LeadingBlanks(s) == 0 && TrimStart(s) == 0;
    assert s[0..|s|] == s;
  }

  /** When no numeral is found, the text a formula's callable returns keeps its `=`. */
  lemma EvalTextKeepsMarker(lib: Foreign.Library, s: string)
    requires Trim(s) != [] && Trim(s)[0] == '='
    requires lib.findNumeric(Trim(s)).None?
    ensures Eval(lib, s) == Ok(Some(Deferred(TextValue(Trim(s)))))
    ensures Eval(lib, s).value.value.Invoke().text[0] == '='
  {
  }

  /** A numeral followed by an operator: `big_num_t` is handed "1+2", not "1", and the
      program stops when it rejects that. */
  lemma EvalReadsPastNumeral(lib: Foreign.Library)
    requires lib.findNumeric("=1+2") == Some(1)
    requires lib.bigNum("1+2").None?
    ensures Trim("=1+2") == "=1+2" && Eval(lib, "=1+2") == Err(AssertionFailed)
  {
    EvalUntrimmed(lib, "=1+2");
    assert "=1+2"[1..] == "1+2";
  }

  /** Blanks `trim` cut off still reach `big_num_t`: the number in "=1 " is read from
      "1 ". */
  lemma EvalReadsTrimmedBlanks(lib: Foreign.Library)
    requires lib.findNumeric("=1") == Some(1)
    requires lib.bigNum("1 ").None?
    ensures Trim("=1 ") == "=1" && Eval(lib, "=1 ") == Err(AssertionFailed)
  {
    TrimUnique([], "=1", " ");
    assert [] + "=1" + " " == "=1 ";
  }

  /** A numeral that ends the cell text converts to a number cell value. */
  lemma EvalNumeralAtEnd(lib: Foreign.Library, n: Foreign.BigNum)
    requires lib.findNumeric("=42") == Some(1)
    requires lib.bigNum("42") == Some(n)
    ensures Trim("=42") == "=42" && Eval(lib, "=42") == Ok(Some(Deferred(NumberValue(n))))
  {
    EvalUntrimmed(lib, "=42");
    assert "=42"[1..] == "42";
  }

  // ---------------------------------------------------------------------------
  // The cells
  // ---------------------------------------------------------------------------

  /** `cell_value`: an id and the emitter it notifies through. */
  class CellValue {
    var id: string
    var emitter: Emitter

    constructor (emitter: Emitter, id: string)
      ensures this.id == id && this.emitter == emitter
    {
      this.id := id;
      this.emitter := emitter;
    }

    /** The defaulted copy (and move) constructor: same id, same emitter, no event. */
    constructor Copy(other: CellValue)
      ensures id == other.id && emitter == other.emitter
    {
      id := other.id;
      emitter := other.emitter;
    }

    /** The defaulted copy (and move) assignment. */
    method Assign(rhs: CellValue)
      modifies this
      ensures id == old(rhs.id) && emitter == old(rhs.emitter)
    {
      id, emitter := rhs.id, rhs.emitter;
    }

    /** `on_data_updated`: subscribe persistently on the cell's channel. */
    method OnDataUpdated(callback: nat)
      modifies emitter
      ensures emitter.registry ==
        Subscribe(old(emitter.registry), DataUpdatedChannel(id), Listener(callback, false))
      ensures emitter.log == old(emitter.log)
    {
      emitter.On(DataUpdatedChannel(id), callback);
    }

    /** `emit_data_updated`: one emit, without payload, on the cell's channel. */
    method EmitDataUpdated()
      modifies emitter
      ensures emitter.registry == Fire(old(emitter.registry), DataUpdatedChannel(id))
      ensures emitter.log == old(emitter.log) +
        [Delivery(DataUpdatedChannel(id), None, Listeners(old(emitter.registry), DataUpdatedChannel(id)))]
    {
      emitter.Emit(DataUpdatedChannel(id), None);
    }

    /** The destructor: every listener on the cell's channel is removed, nothing is
      emitted, and it cannot fail. */
    method Dispose()
      modifies emitter
      ensures emitter.registry == RemoveAll(old(emitter.registry), DataUpdatedChannel(id))
      ensures emitter.log == old(emitter.log)
    {
      emitter.RemoveAllListeners(DataUpdatedChannel(id));
    }
  }

  /** `cell_value_string`. */
  class CellValueString {
    const base: CellValue
    var value: string

    /** Stores the text, then notifies once. */
    constructor (emitter: Emitter, id: string, value: string)
      modifies emitter
      ensures fresh(base) && base.id == id && base.emitter == emitter
      ensures this.value == value
      ensures emitter.registry == Fire(old(emitter.registry), DataUpdatedChannel(id))
      ensures emitter.log == old(emitter.log) +
        [Delivery(DataUpdatedChannel(id), None, Listeners(old(emitter.registry), DataUpdatedChannel(id)))]
    {
      base := new CellValue(emitter, id);
      this.value := value;
      new;
      base.EmitDataUpdated();
    }

    /** The defaulted copy constructor: same id, same emitter, same text, no event. */
    constructor Copy(other: CellValueString)
      ensures fresh(base) && base.id == other.base.id && base.emitter == other.base.emitter
      ensures value == other.value
    {
      base := new CellValue.Copy(other.base);
      value := other.value;
    }

    /** The defaulted copy (and move) assignment: the base part and the text are
      both taken from the right-hand side, and nothing is emitted. */
    method Assign(rhs: CellValueString)
      modifies this, base
      ensures base.id == old(rhs.base.id) && base.emitter == old(rhs.base.emitter)
      ensures value == old(rhs.value)
    {
      value := rhs.value;
      base.Assign(rhs.base);
    }

    function Evaluate(): string
      reads this
    {
      value
    }

    /** `set_value`: replaces the text and notifies once, even when the text is unchanged. */
    method SetValue(s: string)
      modifies this, base.emitter
      ensures Evaluate() == s
      ensures base.emitter.registry == Fire(old(base.emitter.registry), DataUpdatedChannel(base.id))
      ensures base.emitter.log == old(base.emitter.log) +
        [Delivery(DataUpdatedChannel(base.id), None,
                  Listeners(old(base.emitter.registry), DataUpdatedChannel(base.id)))]
    {
      value := s;
      base.EmitDataUpdated();
    }

    function ValueType(): string {
      "string"
    }
  }

  /** `cell_value_number`. */
  class CellValueNumber {
    const base: CellValue
    var value: Foreign.BigNum

    /** Stores the number, then notifies once. */
    constructor (emitter: Emitter, id: string, value: Foreign.BigNum)
      modifies emitter
      ensures fresh(base) && base.id == id && base.emitter == emitter
      ensures this.value == value
      ensures emitter.registry == Fire(old(emitter.registry), DataUpdatedChannel(id))
      ensures emitter.log == old(emitter.log) +
        [Delivery(DataUpdatedChannel(id), None, Listeners(old(emitter.registry), DataUpdatedChannel(id)))]
    {
      base := new CellValue(emitter, id);
      this.value := value;
      new;
      base.EmitDataUpdated();
    }

    /** The defaulted copy constructor: same id, same emitter, same number, no event. */
    constructor Copy(other: CellValueNumber)
      ensures fresh(base) && base.id == other.base.id && base.emitter == other.base.emitter
      ensures value == other.value
    {
      base := new CellValue.Copy(other.base);
      value := other.value;
    }

    /** The defaulted copy (and move) assignment: the base part and the number are
      both taken from the right-hand side, and nothing is emitted. */
    method Assign(rhs: CellValueNumber)
      modifies this, base
      ensures base.id == old(rhs.base.id) && base.emitter == old(rhs.base.emitter)
      ensures Value() == old(rhs.Value())
    {
      value := rhs.value;
      base.Assign(rhs.base);
    }

    /** `evaluate`: the number rendered by `to_string`. */
    function Evaluate(lib: Foreign.Library): string
      reads this
    {
      lib.render(value)
    }

    /** `value() const`. */
    function Value(): Foreign.BigNum
      reads this
    {
      value
    }

    /** A write through the reference `value()` returns: the number changes and,
      unlike `set_value`, nothing is emitted. */
    method AssignValue(n: Foreign.BigNum)
      modifies this
      ensures Value() == n
    {
      value := n;
    }

    /** `set_value`: the text is read as an integer into the stored number, then one
      notification follows. Where `to_int` fails its exception leaves the cell and
      the emitter as they were. */
    method SetValue(lib: Foreign.Library, s: string) returns (ok: bool)
      modifies this, base.emitter
      ensures ok <==> lib.toInt(s).Some?
      ensures ok ==> Value() == lib.toInt(s).value && Evaluate(lib) == lib.render(lib.toInt(s).value)
      ensures ok ==> base.emitter.registry == Fire(old(base.emitter.registry), DataUpdatedChannel(base.id))
      ensures ok ==>
        base.emitter.log == old(base.emitter.log) +
          [Delivery(DataUpdatedChannel(base.id), None,
                    Listeners(old(base.emitter.registry), DataUpdatedChannel(base.id)))]
      ensures !ok ==> Value() == old(Value()) && unchanged(base.emitter)
    {
      match lib.toInt(s)
      case None =>
        ok := false;
      case Some(n) =>
        value := n;
        base.EmitDataUpdated();
        ok := true;
    }

    function ValueType(): string {
      "number"
    }
  }

  /** `value_type` is a constant of the cell's class, whatever the cell holds. */
  lemma ValueTypesAreConstants(a: CellValueString, b: CellValueNumber)
    ensures a.ValueType() == "string" && b.ValueType() == "number"
  {
  }
}
