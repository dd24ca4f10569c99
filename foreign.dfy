/** The collaborators the core calls but does not define: the boost date-time and
    decimal-float types, and the parser-helper functions that build them from text.
    Each is a field of `Library`, so every property proved about the core holds for
    any behaviour of these collaborators. */
module Foreign {
  import opened Wrappers

  /** `big_num_t`, a 50-digit decimal floating-point number. */
  type BigNum(==)

  /** `boost::posix_time::ptime`. */
  type Timestamp(==)

  /** The duration alternative of the evaluator's result variant. */
  type Duration(==)

  /** The two exceptions of the parser-helper library. */
  datatype ParseFailure = ParserError | ParserException

  datatype Library = Library(
    /** `boost::posix_time::from_iso_string`: None where it throws. */
    fromIsoString: string -> Option<Timestamp>,
    /** `eval_duration`, called by the evaluator but defined nowhere in the source. */
    evalDuration: string -> Option<Duration>,
    /** The `big_num_t` constructor from text: None where it throws. */
    bigNum: string -> Option<BigNum>,
    /** `find_numeric`: where, counted from the start of the range it searches, the
        numeral it finds begins, if it finds one. */
    findNumeric: string -> Option<nat>,
    /** `to_int`: the integer a range denotes, None where it fails. */
    toInt: string -> Option<BigNum>,
    /** `to_string( big_num_t )`. */
    render: BigNum -> string
  )
}
