/** The table items of `include/table_item.h` and `table_item.cpp`: numbered items
    whose copies get fresh numbers, and their updated and closed notifications. */
module TableItems {
  import opened Wrappers
  import opened TextRanges
  import opened Events

  // ---------------------------------------------------------------------------
  // table_item_type and its text form
  // ---------------------------------------------------------------------------

  /** `table_item_type`. */
  datatype ItemType = Table | Cell | Row | Column

  /** The enumerator's value. */
  function Ordinal(t: ItemType): (k: nat)
    ensures k < 4
  {
    match t
    case Table => 0
    case Cell => 1
    case Row => 2
    case Column => 3
  }

  /** The spellings, indexed by enumerator value. */
  const ItemTypeNames: seq<string> := ["Table", "Cell", "Row", "Column"]

  /** `to_string`: the spelling at the enumerator's index. */
  function ToString(t: ItemType): (s: string)
    ensures s in ItemTypeNames
  {
    ItemTypeNames[Ordinal(t)]
  }

  /** What the hash table's `at` throws for a missing key. */
  datatype LookupFailure = OutOfRange

  const ItemTypeTable: map<string, ItemType> :=
    map["Cell" := Cell, "Column" := Column, "Row" := Row, "Table" := Table]

  /** `table_item_type_from_string`: a lookup of the exact spelling. */
  function FromString(s: string): (r: Result<ItemType, LookupFailure>)
    ensures r.Ok? <==> s in ItemTypeNames
  {
    if s in ItemTypeTable then Ok(ItemTypeTable[s]) else Err(OutOfRange)
  }

  /** Reading back a spelling gives the item type. */
  lemma ItemTypeRoundTrip(t: ItemType)
    ensures FromString(ToString(t)) == Ok(t)
  {
  }

  /** The only texts read as item types are the four spellings, and each is read as
      the type it spells. */
  lemma FromStringInverse(s: string)
    ensures FromString(s).Ok? ==> ToString(FromString(s).value) == s
  {
  }

  /** The lookup is case sensitive. */
  lemma FromStringCaseSensitive()
    ensures FromString("cell").Err? && FromString("TABLE").Err? && FromString("").Err?
  {
  }

  // ---------------------------------------------------------------------------
  // Channel names
  // ---------------------------------------------------------------------------

  datatype ItemEvent = Closed | Updated

  function Suffix(ev: ItemEvent): string {
    match ev
    case Closed => "_closed"
    case Updated => "_updated"
  }

  /** The channel of an item's event: the decimal id, then the event's suffix. */
  function Channel(id: nat, ev: ItemEvent): (ch: string)
    ensures |ch| == |Decimal(id)| + |Suffix(ev)|
    ensures AllDigits(ch[..|Decimal(id)|]) && ch[|Decimal(id)|..] == Suffix(ev)
    ensures DecimalValue(ch[..|Decimal(id)|]) == id
  {
    DecimalRoundTrip(id);
    assert (Decimal(id) + Suffix(ev))[..|Decimal(id)|] == Decimal(id);
    Decimal(id) + Suffix(ev)
  }

  /** In a digit string followed by a suffix that starts with `_`, the first `_`
      stands right after the digits. */
  lemma FirstUnderscore(d: string, s: string)
    requires AllDigits(d) && s != [] && s[0] == '_'
    ensures (d + s)[|d|] == '_'
    ensures forall i :: 0 <= i < |d| ==> (d + s)[i] != '_'
  {
  }

  /** A digit string followed by a suffix that starts with `_` splits in one way only. */
  lemma SplitAtUnderscore(d1: string, s1: string, d2: string, s2: string)
    requires AllDigits(d1) && AllDigits(d2)
    requires s1 != [] && s1[0] == '_' && s2 != [] && s2[0] == '_'
    requires d1 + s1 == d2 + s2
    ensures d1 == d2 && s1 == s2
  {
    if |d1| < |d2| {
      FirstUnderscore(d1, s1);
      FirstUnderscore(d2, s2);
      assert false;
    } else if |d2| < |d1| {
      FirstUnderscore(d1, s1);
      FirstUnderscore(d2, s2);
      assert false;
    }
    assert d1 == (d1 + s1)[..|d1|];
    assert d2 == (d2 + s2)[..|d2|];
    assert s1 == (d1 + s1)[|d1|..];
    assert s2 == (d2 + s2)[|d2|..];
  }

  /** Distinct items, or distinct events of one item, use distinct channels. */
  lemma ChannelInjective(a: nat, ea: ItemEvent, b: nat, eb: ItemEvent)
    ensures Channel(a, ea) == Channel(b, eb) ==> a == b && ea == eb
  {
    if Channel(a, ea) == Channel(b, eb) {
      SplitAtUnderscore(Decimal(a), Suffix(ea), Decimal(b), Suffix(eb));
      DecimalInjective(a, b);
    }
  }

  /** The channel name as the source computes it: `id() + "_closed"` adds the id to
      the address of the literal, giving the literal's tail from offset `id`, the
      empty string at its terminator, and undefined behaviour beyond. */
  function ChannelAsWritten(id: nat, ev: ItemEvent): (r: Option<string>)
    ensures r.Some? <==> id <= |Suffix(ev)|
    ensures r.Some? ==> r.value == Suffix(ev)[id..]
  {
    var literal := Suffix(ev);
    if id <= |literal| then Some(literal[id..]) else None
  }

  /** As written, item 7's closed channel is item 8's updated channel, item 1's
      channel omits its id, and item 9 has no defined closed channel. */
  lemma ChannelAsWrittenCollides()
    ensures ChannelAsWritten(7, Closed) == Some("") == ChannelAsWritten(8, Updated)
    ensures ChannelAsWritten(1, Closed) == Some("closed")
    ensures ChannelAsWritten(9, Closed) == None
    ensures Channel(7, Closed) != Channel(8, Updated)
  {
    assert |Suffix(Closed)| == 7 && |Suffix(Updated)| == 8;
    assert Suffix(Closed)[1..] == "closed";
    ChannelInjective(7, Closed, 8, Updated);
  }

  // ---------------------------------------------------------------------------
  // The id counter and the items
  // ---------------------------------------------------------------------------

  /** The static counter behind `get_next_id`; `issued` records every id handed out. */
  class IdCounter {
    var next: nat
    ghost var issued: set<nat>

    ghost predicate Valid()
      reads this
    {
      next >= 1 && forall i :: i in issued ==> 1 <= i < next
    }

    constructor ()
      ensures Valid() && next == 1 && issued == {}
    {
      next := 1;
      issued := {};
    }

    /** `get_next_id`: 1 first, then one more each call; never an id handed out before. */
    method GetNextId() returns (id: nat)
      requires Valid()
      modifies this
      ensures Valid()
      ensures id == old(next) && next == id + 1
      ensures id !in old(issued) && issued == old(issued) + {id}
    {
      id := next;
      next := next + 1;
      issued := issued + {id};
    }
  }

  /** `table_item`. */
  class TableItem {
    var id: nat
    var emitter: Emitter

    /** The constructor from an emitter. The source leaves the id uninitialised, so the
      model takes it as a parameter and promises nothing about it. */
    constructor (emitter: Emitter, id: nat)
      ensures this.id == id && this.emitter == emitter
    {
      this.id := id;
      this.emitter := emitter;
    }

    /** The copy constructor: the same emitter and a fresh id. */
    constructor Copy(other: TableItem, counter: IdCounter)
      requires counter.Valid()
      modifies counter
      ensures counter.Valid()
      ensures emitter == other.emitter
      ensures id == old(counter.next) && counter.next == id + 1
      ensures id !in old(counter.issued) && counter.issued == old(counter.issued) + {id}
      ensures other.id in old(counter.issued) ==> id != other.id
    {
      var newId := counter.GetNextId();
      emitter := other.emitter;
      id := newId;
    }

    /** The move constructor: the source's id and emitter. */
    constructor Move(other: TableItem)
      ensures id == other.id && emitter == other.emitter
    {
      id := other.id;
      emitter := other.emitter;
    }

    function Id(): nat
      reads this
    {
      id
    }

    /** `swap`: the two items exchange ids and emitters. */
    static method Swap(a: TableItem, b: TableItem)
      modifies a, b
      ensures a.id == old(b.id) && b.id == old(a.id)
      ensures a.emitter == old(b.emitter) && b.emitter == old(a.emitter)
    {
      var id, emitter := a.id, a.emitter;
      a.id, a.emitter := b.id, b.emitter;
      b.id, b.emitter := id, emitter;
    }

    /** `emit_closed`, which is all the destructor does: one emit on the closed
      channel, with the id as payload. */
    method Close()
      modifies emitter
      ensures emitter.registry == Fire(old(emitter.registry), Channel(id, Closed))
      ensures emitter.log == old(emitter.log) +
        [Delivery(Channel(id, Closed), Some(id), Listeners(old(emitter.registry), Channel(id, Closed)))]
    {
      emitter.Emit(Channel(id, Closed), Some(id));
    }

    /** `emit_updated`: one emit on the updated channel, with the id as payload. */
    method EmitUpdated()
      modifies emitter
      ensures emitter.registry == Fire(old(emitter.registry), Channel(id, Updated))
      ensures emitter.log == old(emitter.log) +
        [Delivery(Channel(id, Updated), Some(id), Listeners(old(emitter.registry), Channel(id, Updated)))]
    {
      emitter.Emit(Channel(id, Updated), Some(id));
    }

    /** `on_closed`: subscribe persistently to the closed event. */
    method OnClosed(callback: nat)
      modifies emitter
      ensures emitter.registry ==
        Subscribe(old(emitter.registry), Channel(id, Closed), Listener(callback, false))
      ensures emitter.log == old(emitter.log)
    {
      emitter.On(Channel(id, Closed), callback);
    }

    /** `on_updated`: subscribe persistently to the updated event. */
    method OnUpdated(callback: nat)
      modifies emitter
      ensures emitter.registry ==
        Subscribe(old(emitter.registry), Channel(id, Updated), Listener(callback, false))
      ensures emitter.log == old(emitter.log)
    {
      emitter.On(Channel(id, Updated), callback);
    }

    /** `on_next_updated`: subscribe to the next updated event only. */
    method OnNextUpdated(callback: nat)
      modifies emitter
      ensures emitter.registry ==
        Subscribe(old(emitter.registry), Channel(id, Updated), Listener(callback, true))
      ensures emitter.log == old(emitter.log)
    {
      emitter.OnNext(Channel(id, Updated), callback);
    }

    /** Copy assignment: copy `rhs` into a temporary (fresh id), swap with it, and
      let the temporary's destructor announce this item's old id as closed.
      Assigning an item to itself changes nothing. */
    method CopyAssign(rhs: TableItem, counter: IdCounter)
      requires counter.Valid()
      modifies this, counter, emitter
      ensures counter.Valid()
      ensures this == rhs ==> id == old(id) && emitter == old(emitter) && unchanged(counter, emitter)
      ensures this != rhs ==> id == old(counter.next) && counter.next == id + 1
      ensures this != rhs ==> id !in old(counter.issued) && counter.issued == old(counter.issued) + {id}
      ensures this != rhs ==> emitter == old(rhs.emitter)
      ensures this != rhs ==>
        old(emitter).registry == Fire(old(emitter.registry), Channel(old(id), Closed))
      ensures this != rhs ==>
        old(emitter).log == old(emitter.log) +
          [Delivery(Channel(old(id), Closed), Some(old(id)),
                    Listeners(old(emitter.registry), Channel(old(id), Closed)))]
    {
      if this != rhs {
        var tmp := new TableItem.Copy(rhs, counter);
        Swap(this, tmp);
        tmp.Close();
      }
    }

    /** Move assignment: move `rhs` into a temporary, swap with it, and let the
      temporary's destructor announce this item's old id as closed. This item ends
      with `rhs`'s id. */
    method MoveAssign(rhs: TableItem)
      modifies this, emitter
      ensures this == rhs ==> id == old(id) && emitter == old(emitter) && unchanged(emitter)
      ensures this != rhs ==> id == old(rhs.id) && emitter == old(rhs.emitter)
      ensures this != rhs ==>
        old(emitter).registry == Fire(old(emitter.registry), Channel(old(id), Closed))
      ensures this != rhs ==>
        old(emitter).log == old(emitter.log) +
          [Delivery(Channel(old(id), Closed), Some(old(id)),
                    Listeners(old(emitter.registry), Channel(old(id), Closed)))]
    {
      if this != rhs {
        var tmp := new TableItem.Move(rhs);
        Swap(this, tmp);
        tmp.Close();
      }
    }
  }
}
