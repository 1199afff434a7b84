/**
 * AMQP 0-9-1 field tables (section 4.2.5.5 of the AMQP 0-9-1 specification):
 * the typed values a table holds, the table the binding fills in place, and
 * the wire view of it that is lent to the transport for one call.
 */
module Tables {
  import opened Ints
  import opened Wrappers
  import opened Bytes

  /** The field-table tag of a 32-bit integer. */
  const KIND_I32: u8 := 'I' as int

  /** `amqp_field_value_t`: a one-byte kind and the two raw words of the value. */
  datatype FieldValue = FieldValue(value: seq<u64>, kind: u8)

  /**
   * The host types that implement `TableField`. The source implements it
   * for `u32` alone; a new kind is a new variant here.
   */
  datatype TableField = U32Field(x: u32) {

    /** `TableField::value`: the two raw words, which read back as this field under the 'I' tag. */
    function Value(): (r: seq<u64>)
      ensures |r| == 2
      ensures FromRabbit(FieldValue(r, KIND_I32)) == Some(this)
    {
      match this
      case U32Field(x) => [x, 0]
    }

    /** `TableField::kind`: the field-table tag of a 32-bit integer. */
    function Kind(): (r: u8)
      ensures r as char == 'I'
    {
      match this
      case U32Field(_) => KIND_I32
    }

    /** `TableField::to_rabbit`: the tagged wire value, from which the field reads back. */
    function ToRabbit(): (r: FieldValue)
      ensures r.kind == Kind() && |r.value| == 2
      ensures FromRabbit(r) == Some(this)
    {
      FieldValue(Value(), Kind())
    }
  }

  /** Reads a wire value back as a host field, if it is one this binding produces. */
  function FromRabbit(f: FieldValue): Option<TableField> {
    if f.kind == KIND_I32 && |f.value| == 2 && f.value[0] < 0x1_0000_0000 && f.value[1] == 0
    then Some(U32Field(f.value[0]))
    else None
  }

  /** A wire value that reads back as a field is that field's encoding. */
  lemma FromRabbitExact(f: FieldValue)
    requires FromRabbit(f).Some?
    ensures FromRabbit(f).value.ToRabbit() == f
  {
    assert f.value == [f.value[0], f.value[1]];
  }

  /** `amqp_table_entry_t`: a key view and a tagged value. */
  datatype TableEntry = TableEntry(key: AmqpBytes, value: FieldValue)

  /** The entry `add_entry` pushes for `key` and `value`. */
  function Entry(key: string, value: TableField): (e: TableEntry)
    ensures Carries(e.key, key)
    ensures FromRabbit(e.value) == Some(value)
  {
    TableEntry(StrToAmqpBytes(key), value.ToRabbit())
  }

  /** `amqp_table_t`: an entry count (an i32) and the entries it points at. */
  datatype WireTable = WireTable(numEntries: i32, entries: seq<TableEntry>)

  /** The table a missing `arguments` parameter is replaced by. */
  const EMPTY_TABLE := WireTable(0, [])

  /** `amqp_table`: the entries in insertion order; keys need not be unique. */
  class Table {
    var entries: seq<TableEntry>

    /** `amqp_table::default()`. */
    constructor ()
      ensures entries == []
    {
      entries := [];
    }

    /** `amqp_table::add_entry`: one entry more, at the end, the others untouched. */
    method AddEntry(key: string, value: TableField)
      modifies this
      ensures |entries| == |old(entries)| + 1
      ensures entries[..|old(entries)|] == old(entries)
      ensures entries[|old(entries)|] == Entry(key, value)
    {
      entries := entries + [Entry(key, value)];
    }

    /** `amqp_table::to_rabbit`: the entries as they are, counted with an `as i32` cast. */
    function ToRabbit(): (r: WireTable)
      reads this
      ensures r.entries == entries
      ensures |entries| < 0x8000_0000 ==> r.numEntries == |entries|
      ensures (r.numEntries - |entries|) % 0x1_0000_0000 == 0
    {
      WireTable(WrapI32(|entries|), entries)
    }
  }

  /** The `arguments` parameter of the queue and consume calls, on the wire. */
  function ArgumentsToRabbit(arguments: Option<Table>): (r: WireTable)
    reads if arguments.Some? then {arguments.value} else {}
    ensures arguments.None? ==> r.numEntries == 0 && r.entries == []
    ensures arguments.Some? ==> r.entries == arguments.value.entries
    ensures arguments.Some? && |arguments.value.entries| < 0x8000_0000 ==> r.numEntries == |arguments.value.entries|
    ensures arguments.Some? ==> (r.numEntries - |arguments.value.entries|) % 0x1_0000_0000 == 0
  {
    match arguments
    case Some(args) => args.ToRabbit()
    case None => EMPTY_TABLE
  }
}
