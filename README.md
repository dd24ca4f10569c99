# Spreadsheet core: evaluator, name parser, cell values and table items

This project is a Dafny model of the core of a small C++ spreadsheet library. The model covers four parts:

- **Cell-text evaluator** (`include/evaluator.h`, module `Evaluator`). It trims the leading blanks of a cell's text and dispatches on the first character:
  - `=` starts a formula.
  - A digit starts the timestamp, then duration, then number, then plain-string fallback chain.
  - `t`, `T`, `f` or `F` starts a case-insensitive boolean. As written this always yields true; the model keeps that dispatch (`EvaluateAsWritten`) beside the intended one (`Evaluate`).
  - Anything else, including a boolean that does not parse, is kept as a string.
- **Sheetrock name parser** (`include/sheetrock.h`, module `Sheetrock`):
  - The abstract-syntax-tree node shapes.
  - The reserved-character set, and the predicates for a name's first and later characters.
  - `parse_name`.
- **Cell values** (`include/impl_cell_value.h`, `impl_cell_value.cpp`, module `CellValues`):
  - A cell value has a string id and an event emitter. It announces changes on the channel `<id>_data_updated` and drops that channel's listeners when it is destroyed.
  - The text cell and the number cell store their contents, render them and re-announce after every `set_value`.
  - `eval` turns trimmed cell text that starts with `=` into a deferred variant (text or number).
- **Table items** (`include/table_item.h`, `table_item.cpp`, module `TableItems`):
  - A copied `table_item` takes a fresh numeric id from a process-wide counter; a moved one keeps its id.
  - Assignment is copy-and-swap.
  - An item announces `closed` (on destruction) and `updated` events.
  - Item-type names convert to and from text.

The model uses these supporting modules:

- `TextRanges`: the blank-trimming helpers the evaluator relies on, and decimal rendering of ids.
- `Events`: the event emitter these classes talk to. It is modelled as a registry of listeners per channel plus a log of deliveries, where a one-shot (`on_next`) listener is dropped after it fires.
- `Foreign`: the parsers and numeric types the core only calls (ISO timestamps, durations, the big-number type, `find_numeric`, `to_int`). They are fields of a `Library` value, so every contract holds for every behaviour of those collaborators.

Stateful source objects are classes with `modifies` frames:

- `CellValue`, `CellValueString` and `CellValueNumber`.
- `TableItem` and the id counter `IdCounter`.
- The emitter `Emitter`.

C++ inheritance becomes composition: a string or number cell holds its `CellValue` base as a field.

## Model

| member | source | states |
|---|---|---|
| Evaluator.FoldCase | include/evaluator.h:45-49 | OR-ing bit 5 always leaves bit 5 set and changes no other bit of the character code |
| Evaluator.IsEqualNc | include/evaluator.h:43-51 | two texts are equal ignoring case exactly when their lengths agree and every position agrees after setting bit 5 (both directions) |
| Evaluator.IsEqualNcReflexive | include/evaluator.h:43-51 | every text equals itself ignoring case |
| Evaluator.IsEqualNcSymmetric | include/evaluator.h:43-51 | case-insensitive equality does not depend on argument order |
| Evaluator.IsEqualNcExamples | include/evaluator.h:45-49 | "T" matches "t" and "tRuE" matches "TRUE"; bit folding also makes "@" match "`" and "[" match "{"; texts of different length or different letters do not match |
| Evaluator.EvalString | include/evaluator.h:53-56 | the whole range, verbatim, as a string literal (an accessor without a contract of its own) |
| Evaluator.EvalBoolAsWritten | include/evaluator.h:58-73 | as written: accepted exactly when the right-trimmed text is "true" or "false" ignoring case; anything else fails with a parser error |
| Evaluator.EvalBoolAsWrittenNeverFalse | include/evaluator.h:63-72 | as written, every accepted text yields true, including "false" |
| Evaluator.EvalBool | include/evaluator.h:58-73 | accepts the same texts as the source; the value is true exactly when the right-trimmed text is "true" ignoring case; otherwise a parser error |
| Evaluator.EvalBoolAsWrittenVersusIntended | include/evaluator.h:63-72 | the as-written and intended versions accept the same texts and differ exactly on the texts whose intended value is false |
| Evaluator.EvalBoolUpperTrue | include/evaluator.h:59-63 | "TRUE" followed by blanks is true (trailing blanks are trimmed) |
| Evaluator.EvalBoolMixedFalse | include/evaluator.h:64-66 | "False" is false under the intended reading |
| Evaluator.EvalBoolRejects | include/evaluator.h:67-70 | "tomato" and " true" (leading blank kept) are parser errors |
| Evaluator.EvalTimestampIgnoresOuterBlanks | include/evaluator.h:76-84 | `eval_timestamp` trims both ends: blanks added before or after the text do not change the timestamp read or the exception |
| Evaluator.EvalNumberTimestampOrDuration | include/evaluator.h:97-109 | the first of timestamp, duration and number that parses wins, in that order; when none parses, the text is returned unchanged as a string; never a boolean |
| Evaluator.Evaluate | include/evaluator.h:137-160 | the dispatch with the intended boolean reading; after trimming leading blanks: a formula exactly when the text starts with `=`, whose body is the text after it; a digit start gives the number/timestamp/duration chain; only a `t`/`T`/`f`/`F` start can give a boolean; any other start, or a failed boolean, gives the left-trimmed text as a string |
| Evaluator.EvaluateAsWritten | include/evaluator.h:137-160 | the dispatch as written, through `eval_bool` as written: a boolean result is never false, and it differs from the intended dispatch exactly on texts that start like a boolean and whose trimmed form spells "false" ignoring case |
| Evaluator.EvaluateAsWrittenBoolPath | include/evaluator.h:153-159 | as written, text that starts like a boolean is the boolean true when its trimmed form spells "true" or "false" ignoring case, and the left-trimmed text otherwise |
| Evaluator.EvaluateAsWrittenFalse | include/evaluator.h:156 | as written, the cell text "false" becomes the boolean true |
| Evaluator.EvaluateBoolPath | include/evaluator.h:153-159 | under the intended boolean reading, for a boolean start, the result is the boolean when the trimmed text is "true" or "false" ignoring case, and the left-trimmed string otherwise |
| Evaluator.EvaluateTomato | include/evaluator.h:156-159 | "tomato" falls back to the string "tomato" |
| Evaluator.EvaluateNegative | include/evaluator.h:141-159 | "-5" is not a number: no case matches `-`, so it stays the string "-5" |
| Evaluator.EvaluateKeepsTrailingBlanks | include/evaluator.h:139-159 | only leading blanks are trimmed: " yes " becomes the string "yes " |
| Evaluator.EvaluateUpperTrue | include/evaluator.h:139-156 | "  TRUE  " (blanks on both sides) evaluates to the boolean true |
| Evaluator.EvaluateFalse | include/evaluator.h:155-156 | "false" evaluates to the boolean false under the intended boolean reading |
| Evaluator.EvaluateFormulaExample | include/evaluator.h:139-142 | " =A1+2" is a formula with body "A1+2" |
| TextRanges.TrimLeft | include/evaluator.h:139 | the result is a suffix of the input; everything dropped is blank; it does not start with a blank |
| TextRanges.TrimRight | include/evaluator.h:60 | the result is a prefix of the input; everything dropped is blank; it does not end with a blank |
| TextRanges.Trim | include/evaluator.h:78 | the result is the contiguous piece of the input between the blanks cut off at both ends; everything cut off is blank; the piece neither starts nor ends with a blank |
| TextRanges.TrimUnique | include/evaluator.h:78 | blanks around a piece that starts and ends unblank (or is empty) are exactly what trimming removes |
| TextRanges.TrimOuterBlanks | include/evaluator.h:78 | adding blanks at either end does not change what trimming leaves |
| Sheetrock.Size | include/sheetrock.h:39-84 | every node of the expression tree counts at least one |
| Sheetrock.Children | include/sheetrock.h:58-84 | an expression is a child exactly when it is a present left or right operand of a unary operator, the present right operand of a binary operator, or the present value of a declaration; the child count is the number of present operands, other nodes own no sub-expression, and each child is strictly smaller than its parent |
| Sheetrock.SizeIsOwnedSum | include/sheetrock.h:58-84 | a node's size is one plus the sizes of the sub-expressions it owns (ownership is a tree) |
| Sheetrock.IsReserved | include/sheetrock.h:87-92 | no reserved character is a digit or a blank |
| Sheetrock.ReservedCharacters | include/sheetrock.h:87-92 | the 28-entry reserved list (`/` and `=` appear twice) has exactly the members of a set of 26 distinct characters |
| Sheetrock.Unreserved | include/sheetrock.h:87-92 | blank, backslash, underscore, `$` and `@` are not reserved |
| Sheetrock.IsValidNameChar | include/sheetrock.h:99-102 | every digit may continue a name |
| Sheetrock.IsValidNameBeginChar | include/sheetrock.h:94-97 | a character may open a name exactly when it may continue one and is not a digit |
| Sheetrock.IsQuote | include/sheetrock.h:104-107 | both quotes are reserved, so neither can be part of a name |
| Sheetrock.IsEscape | include/sheetrock.h:109-112 | the escape character may open a name |
| Sheetrock.AnchorNameForAnyFromTo | include/sheetrock.h:122-127 | for any `from_to` result inside the range, after the leading blanks, that opens on a name-begin character when not empty: the check succeeds only on a non-empty span starting at 0 whose first character is a non-blank name-begin character, and fails on an empty range or one opening with a blank, digit or reserved character |
| Sheetrock.FromTo | include/sheetrock.h:123 | the span starts at the first name-begin character at or after the position and runs over the maximal run of name characters after it; it is empty exactly when no name-begin character remains |
| Sheetrock.ParseName | include/sheetrock.h:120-128 | succeeds exactly when the text is non-empty and its first character is a non-blank name-begin character; the span then starts at 0 and covers the maximal run of name characters, ending at the end or at a reserved character; otherwise a parser exception |
| Sheetrock.ParseNameUpToReserved | include/sheetrock.h:120-128 | a range opening with a name-begin character, with no reserved character before position j and one at j, parses to the span 0..j |
| Sheetrock.ParseNameAcceptsExample | include/sheetrock.h:120-128 | "total+1" yields the name span 0..5 |
| Sheetrock.ParseNameRejectsExamples | include/sheetrock.h:122-126 | a leading blank, a leading digit, a leading reserved character and the empty text are all rejected |
| CellValues.DataUpdatedChannel | impl_cell_value.cpp:60-68 | the channel is the cell id followed by "_data_updated" |
| CellValues.DataUpdatedChannelInjective | impl_cell_value.cpp:60-68 | distinct cell ids announce on distinct channels |
| CellValues.ToVariant | impl_cell_value.cpp:144-153 | with no numeral found, the whole range as text; with one found, the failed `assert` (a stop) exactly when the text running from the numeral's start to the end of the buffer does not convert, and otherwise exactly the number `big_num_t` builds from that text; never a timestamp or boolean |
| CellValues.NumeralTailPassesRange | impl_cell_value.cpp:136-150 | what `to_variant` yields is decided by the rest of the range after the numeral's start followed by everything in the buffer after the range: that text's number, or a stop when it does not convert |
| CellValues.Eval | impl_cell_value.cpp:155-167 | after trimming both sides: whenever the program does not stop, a callable is returned exactly when the text starts with `=`; for such text `to_variant` of the whole trimmed range is computed at once, the program stops exactly when it does, and the callable returns its value |
| CellValues.EvalTextKeepsMarker | impl_cell_value.cpp:157-166 | when no numeric part is found, the deferred text still begins with the `=` marker |
| CellValues.EvalReadsPastNumeral | impl_cell_value.cpp:146-150 | in "=1+2" the number is built from "1+2", so a constructor that rejects that text stops the program |
| CellValues.EvalReadsTrimmedBlanks | impl_cell_value.cpp:157-163 | in "=1 " the number is built from "1 ": the blank `trim` cut off still reaches `big_num_t` |
| CellValues.EvalNumeralAtEnd | impl_cell_value.cpp:146-150 | a numeral that ends the cell text, as in "=42", gives that number |
| CellValues.CellValue.constructor | impl_cell_value.cpp:35-41 | stores the given id and emitter and announces nothing |
| CellValues.CellValue.Copy | include/impl_cell_value.h:63-64 | the defaulted copy shares the id and the emitter |
| CellValues.CellValue.Assign | include/impl_cell_value.h:65-66 | the defaulted assignment takes the right-hand side's id and emitter |
| CellValues.CellValue.OnDataUpdated | impl_cell_value.cpp:60-63 | appends a persistent listener on the cell's data-updated channel and touches no other channel |
| CellValues.CellValue.EmitDataUpdated | impl_cell_value.cpp:65-68 | delivers to every listener of the data-updated channel, with no payload, and drops the one-shot ones |
| CellValues.CellValue.Dispose | impl_cell_value.cpp:43-50 | removes every listener of the cell's data-updated channel and keeps the others |
| CellValues.CellValueString.constructor | impl_cell_value.cpp:77-83 | stores id, emitter and text, then announces one data update |
| CellValues.CellValueString.Copy | include/impl_cell_value.h:84 | the copy has the same id, emitter and text and announces nothing |
| CellValues.CellValueString.Assign | include/impl_cell_value.h:86-87 | the defaulted copy and move assignment take the right-hand side's id, emitter and text, and announce nothing |
| CellValues.CellValueString.Evaluate | impl_cell_value.cpp:85-87 | the stored text (an accessor; what it returns after a change is stated by `SetValue`) |
| CellValues.CellValueString.SetValue | impl_cell_value.cpp:89-92 | afterwards the cell evaluates to the new text, and exactly one data update is announced |
| CellValues.CellValueNumber.constructor | impl_cell_value.cpp:102-108 | stores id, emitter and number, then announces one data update |
| CellValues.CellValueNumber.Copy | include/impl_cell_value.h:101 | the copy has the same id, emitter and number and announces nothing |
| CellValues.CellValueNumber.Assign | include/impl_cell_value.h:103-104 | the defaulted copy and move assignment take the right-hand side's id, emitter and number, and announce nothing |
| CellValues.CellValueNumber.Value | impl_cell_value.cpp:128-134 | the stored number (an accessor; what it returns after a change is stated by `AssignValue` and `SetValue`) |
| CellValues.CellValueNumber.AssignValue | impl_cell_value.cpp:128-130 | writing through the mutable `value()` reference stores the number without announcing |
| CellValues.CellValueNumber.SetValue | impl_cell_value.cpp:119-122 | succeeds exactly when `to_int` accepts the text; on success the cell holds and renders that number and announces once; on failure nothing changes |
| CellValues.ValueTypesAreConstants | impl_cell_value.cpp:94-126 | a text cell's type is "string" and a number cell's type is "number", whatever the contents |
| Events.Persistent | table_item.cpp:116-124 | the listeners kept after a delivery are exactly the persistent ones |
| Events.PersistentCount | table_item.cpp:116-124 | after a delivery, each persistent listener keeps its multiplicity and each one-shot listener is gone |
| Events.OneShotAndPersistent | table_item.cpp:116-124 | an `on_next` listener is gone after one event; an `on` listener stays; a second delivery drops nothing more |
| Events.NothingAfterRemoveAll | impl_cell_value.cpp:43-50 | after all listeners of a channel are removed, an event on it reaches nobody |
| TableItems.Ordinal | include/table_item.h:39 | the four item kinds are numbered below four |
| TableItems.ToString | table_item.cpp:126-130 | every kind has one of the names Table, Cell, Row, Column |
| TableItems.FromString | table_item.cpp:132-141 | succeeds exactly when the text is one of the four names; any other text is out of range |
| TableItems.ItemTypeRoundTrip | table_item.cpp:126-141 | parsing the name of a kind gives that kind back |
| TableItems.FromStringInverse | table_item.cpp:126-141 | a successfully parsed text is exactly the name of the kind it yields |
| TableItems.FromStringCaseSensitive | table_item.cpp:132-141 | lookups are case sensitive: "cell", "TABLE" and the empty text are rejected |
| TableItems.Channel | table_item.cpp:100-124 | the intended channel is the decimal numeral of the id, whose value is the id again, followed by "_closed" or "_updated" |
| TableItems.ChannelInjective | table_item.cpp:100-124 | distinct (id, event) pairs give distinct channels, so a listener hears only its own item's event |
| TableItems.ChannelAsWritten | table_item.cpp:101 | as written, the channel is the tail of the event-name literal starting at offset id, and undefined past its end |
| TableItems.ChannelAsWrittenCollides | table_item.cpp:101-122 | as written, item 7's closed channel and item 8's updated channel are both the empty text, item 1 closes on "closed", and item 9 reads past the literal |
| TableItems.IdCounter.constructor | table_item.cpp:39 | the counter starts at 1 and has issued nothing |
| TableItems.IdCounter.GetNextId | table_item.cpp:38-42 | returns the current value and advances it by one; the returned id was never issued before by the same counter |
| TableItems.TableItem.constructor | table_item.cpp:48-53 | stores the emitter (and the given id) |
| TableItems.TableItem.Copy | table_item.cpp:55-61 | the copy shares the emitter and takes a fresh id, different from any already-issued id of the original |
| TableItems.TableItem.Move | table_item.cpp:63-69 | the moved-to item takes the source's id and emitter |
| TableItems.TableItem.Id | table_item.cpp:89-91 | the stored id (an accessor) |
| TableItems.TableItem.Swap | table_item.cpp:93-98 | exchanges both ids and emitters |
| TableItems.TableItem.Close | table_item.cpp:100-104 | delivers the item's id on its closed channel and drops the one-shot listeners there |
| TableItems.TableItem.EmitUpdated | table_item.cpp:111-114 | delivers the item's id on its updated channel and drops the one-shot listeners there |
| TableItems.TableItem.OnClosed | table_item.cpp:106-109 | appends a persistent listener on the item's closed channel |
| TableItems.TableItem.OnUpdated | table_item.cpp:121-124 | appends a persistent listener on the item's updated channel |
| TableItems.TableItem.OnNextUpdated | table_item.cpp:116-119 | appends a one-shot listener on the item's updated channel |
| TableItems.TableItem.CopyAssign | table_item.cpp:71-78 | self-assignment changes nothing; otherwise the item takes the right-hand side's emitter and a fresh id, and the temporary that carried the old state announces closed under the old id on the old emitter |
| TableItems.TableItem.MoveAssign | table_item.cpp:80-87 | self-assignment changes nothing; otherwise the item takes the right-hand side's id and emitter, and the old state is closed on the old emitter under the old id |

## Left out

- `eval_func` (include/evaluator.h:111-135) has an empty operator switch and no result. A formula is therefore modelled only as the text after `=`, and the formula language is not evaluated.
- `parse_bool` and the later parsing entry points in include/sheetrock.h are empty stubs, so they are not modelled.
- The empty polymorphic base `ast::ast_item` (include/sheetrock.h:39-41) is not modelled as a type of its own: it carries no data, and the only operation that would produce it, `parse`, is an empty stub.
- The evaluator's digit case calls `eval_number_or_timestamp`, which does not exist in the source. It is modelled as the timestamp, duration and number chain the header defines (`eval_number_timestamp_or_duration`).
- Other spellings that do not compile are read as follows:
  - `t.last()` and `f.last()` are read as the strings' ends.
  - The `fist` typo in `eval_timestamp` is read as `first`.
  - The two-argument `try_numeric` call in `to_variant` is read as `try_numeric` on the found numeral's range. `try_numeric` then passes `data()` of that range to `big_num_t`, which reads a C string, so the number is built from the numeral's start to the end of the buffer.
- Parsing ISO timestamps and durations, the big-number type (`big_num_t`), `find_numeric` and `to_int` are not part of this model. Each is an arbitrary total function of a `Library` value, so the contracts hold for every behaviour of them.
- `to_string` of a big number is also an arbitrary function of the `Library`.
- `Evaluator.EvalTimestamp`, `Evaluator.EvalDuration`, `Evaluator.EvalNumber`, `CellValues.TryNumeric` and `CellValues.CellValueNumber.Evaluate` turn a `Library` call into a result (an exception becomes `Err` or `None`). They carry no contract of their own. What they return is stated by `EvalNumberTimestampOrDuration`, `EvalTimestampIgnoresOuterBlanks`, `ToVariant` and `CellValueNumber.SetValue`.
- Evaluator.Evaluate: the dispatcher with the intended boolean reading, used by the rest of the model. The dispatch as written is `Evaluator.EvaluateAsWritten`, and the two differ exactly on texts whose trimmed form spells "false".
- CellValues.ToVariant: reading `data()` to the end of the buffer assumes the cell text is a whole `std::string`, ending in its terminating NUL. A `string_ref` into a larger buffer would read further; that is not modelled. `find_numeric` is assumed to report a start inside the range it searched (`NumeralInside`). A failed `assert( opt_num )` is modelled as a stop (`Err(AssertionFailed)`); with assertions compiled out the source would instead dereference an empty optional.
- The source's `std::string` holds bytes, and the model's strings hold characters. Spans and offsets (for example in `ParseName`) count characters, and multi-byte encodings are not modelled.
- A blank is taken to be one of the six C `isspace` characters (space, tab, newline, vertical tab, form feed, carriage return). The parser library's own definition is not part of this model.
- Sheetrock.FromTo: the parser library's `from_to` is not part of this model. It is modelled by its evident meaning: start at the first name-begin character, then extend over name characters. The if-and-only-if of `Sheetrock.ParseName` rests on that reading; `Sheetrock.AnchorNameForAnyFromTo` states what holds for any `from_to` that only keeps inside the range and opens on a name-begin character.
- The JSON linking (`link_integral`, `link_string`, `link_streamable`) is serialisation and is not modelled.
- The nodepp event emitter is modelled only by what the core relies on:
  - Listeners are numbered callbacks in registration order, and a delivery is recorded in a log.
  - Callbacks that re-enter the emitter, exceptions thrown by listeners, and the destructor's catch-all are not modelled.
- The `closed` event sent by the `table_item` destructor is modelled as `TableItem.Close`. Dafny has no destructors, so a caller invokes it explicitly.
- In `CopyAssign` and `MoveAssign`, the temporary's destruction is modelled by calling `Close` on it.
- `Evaluator.Evaluate`, `Evaluator.EvaluateAsWritten` and `CellValues.Eval` require text that is not all blank. On an all-blank cell the source dereferences the first character of an empty range, which is undefined behaviour, so the model gives that case no meaning.
- The `table_item` event operations (`TableItems.TableItem.Close`, `EmitUpdated`, `OnClosed`, `OnUpdated` and `OnNextUpdated`) use the intended channel name `TableItems.Channel`. The channel the code actually builds is `TableItems.ChannelAsWritten` (see "## Findings").
- `TableItems.IdCounter.GetNextId`: the atomic `size_t` counter is modelled as an unbounded natural. Wrap-around after 2^64 ids is not modelled, and neither is concurrency.
- TableItems.IdCounter: the source has a single static counter, while the model's counter is an object passed to the copy operations. Ids are proved unique only among those drawn from one counter object, and nothing stops a caller from creating a second counter.
- The `table_item` constructor from an emitter leaves `m_id` uninitialised in the source. The model takes the id as a parameter.
- The `m_item_type` field of `table_item` is never set or read by the source, so it is not modelled.
- `TableItems.TableItem.Move`, `TableItems.TableItem.MoveAssign`, `CellValues.CellValue.Copy`, `CellValues.CellValue.Assign`, `CellValues.CellValueString.Copy`, `CellValues.CellValueString.Assign`, `CellValues.CellValueNumber.Copy` and `CellValues.CellValueNumber.Assign` leave the right-hand side unchanged. The defaulted move forms of the cell classes (include/impl_cell_value.h:64, 66, 85, 87, 102 and 104) also move the id string and the emitter handle out of it, leaving it in a valid but unspecified state; that emptying is not modelled, so these members state the copy behaviour for both forms.
- The stream operators `<<` and `>>` for item types are I/O and are not modelled. Their text mapping is `ToString` and `FromString`.
- `spreadsheet.h`, `spreadsheet.cpp` and the `column` class are outside this core.
- `CellValues.CellValueNumber.SetValue`: the source gives no failure semantics for `to_int`. The model assumes it fails before storing, so a failure changes nothing and announces nothing.
- The cell's pure-virtual interface (`evaluate`, `set_value`, `value_type`) is modelled as methods of the two concrete cell classes, which hold their `CellValue` base by composition.
- The `= default` copies share the cell id. Disposing a copy therefore removes the original's data-updated listeners too. The model shows this through `Dispose` on a shared channel but has no lemma about it.
- `eval` returns a callable only for text that starts with `=`, although its comments ("Evaluation needed", "A value") say the opposite. The model follows the code. The callable's value covers the whole trimmed text, `=` included.
- `expected_value_t` has exactly the five kinds its enumeration lists: `Text`, `Number`, `Timestamp`, `Time` and `Boolean`.
- `value_type` is a constant per cell class.

## Findings

| source | as written | input that shows it | evidently intended | confidence | as-written member | corrected member |
|---|---|---|---|---|---|---|
| include/evaluator.h:63-72 | the comparison with "false" overwrites the flag, so any accepted boolean yields true | "false" evaluates to true (`Evaluator.EvalBoolAsWrittenNeverFalse`) | "false" (in any case) evaluates to false (`Evaluator.EvalBoolAsWrittenVersusIntended`, `Evaluator.EvaluateFalse`) | high; not executed | Evaluator.EvalBoolAsWritten | Evaluator.EvalBool |
| table_item.cpp:101 | `id() + "_closed"` adds a `size_t` to a character pointer, so the channel is a tail of the literal (the same at lines 107, 112, 117 and 122) | items 7 and 8 use the same empty channel for closed and updated; ids past the literal's length read out of bounds (`TableItems.ChannelAsWrittenCollides`) | the decimal id followed by the event suffix, unique per item and event (`TableItems.ChannelInjective`) | high; not executed | TableItems.ChannelAsWritten | TableItems.Channel |
