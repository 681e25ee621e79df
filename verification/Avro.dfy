/** Avro schemas and values of rows (rustium-format-avro, lib.rs). */
module Avro {
  import opened Prelude
  import opened DataValues
  import opened Octets

  datatype AvroKind = KBoolean | KInt | KLong | KDouble | KBytes | KString | KArray(element: AvroKind) | KMap

  datatype Schema =
    | SNull | SBoolean | SInt | SLong | SDouble | SBytes | SString
    | SArray(items: Schema)
    | SMap(values: Schema)
    | SUnion(branches: seq<Schema>)

  datatype Value =
    | VNull
    | VBoolean(flag: bool)
    | VInt(int32: Int32)
    | VLong(int64: Int64)
    | VDouble(double: Double)
    | VBytes(bytes: seq<Byte>)
    | VString(text: string)
    | VArray(items: seq<Value>)
    | VMap(entries: map<string, Value>)

  function DataSchema(kind: AvroKind, nullable: bool, allowUnavailable: bool): Schema
    decreases kind, 1
  {
    Variants(Base(kind), nullable, allowUnavailable && kind != KString)
  }

  function Base(kind: AvroKind): Schema
    decreases kind, 0
  {
    match kind
    case KBoolean => SBoolean
    case KInt => SInt
    case KLong => SLong
    case KDouble => SDouble
    case KBytes => SBytes
    case KString => SString
    case KArray(element) => SArray(DataSchema(element, true, true))
    case KMap => SMap(SUnion([SNull, SString]))
  }

  /** A union, unless there is only one variant. */
  function Variants(base: Schema, nullable: bool, text: bool): Schema {
    var variants := (if nullable then [SNull] else []) + [base] + if text then [SString] else [];
    if |variants| == 1 then variants[0] else SUnion(variants)
  }

  function Convert(t: Texts, value: DataValue, kind: AvroKind): Result<Value>
    decreases kind, 0
  {
    if value.Null? then Ok(VNull)
    else if value.Unavailable? then Ok(VString(t.unavailable))
    else if value.Text? && kind != KString then Ok(VString(value.text))
    else
      match kind
      case KBoolean => if value.Boolean? then Ok(VBoolean(value.flag)) else Err("expected boolean")
      case KInt =>
        if value.Whole32? then Ok(VInt(value.int32))
        else if value.Whole64? then
          if -0x8000_0000 <= value.int64 < 0x8000_0000 then Ok(VInt(value.int64)) else Err("outside the Avro int range")
        else Err("expected integer")
      case KLong =>
        if value.Whole32? then Ok(VLong(value.int32))
        else if value.Whole64? then Ok(VLong(value.int64))
        else if value.Unsigned64? then
          if value.uint64 < 0x8000_0000_0000_0000 then Ok(VLong(value.uint64)) else Err("outside the Avro long range")
        else Err("expected integer")
      case KDouble =>
        if value.Float64? then Ok(VDouble(value.double))
        else if value.Whole32? then Ok(VDouble((t.toDouble)(value.int32)))
        else if value.Whole64? then Ok(VDouble((t.toDouble)(value.int64)))
        else Err("expected number")
      case KBytes => if value.Bytes? then Ok(VBytes(value.bytes)) else Err("expected bytes")
      case KString => Ok(VString(ValueAsString(t, value)))
      case KArray(element) =>
        if value.Array? then
          match ConvertAll(t, value.items, element)
          case Err(m) => Err(m)
          case Ok(items) => Ok(VArray(items))
        else Ok(VString(ValueAsString(t, value)))
      case KMap =>
        if value.Map? then Ok(VMap(map k | k in value.entries :: ConvertEntry(t, value.entries[k])))
        else Ok(VString(ValueAsString(t, value)))
  }

  function ConvertEntry(t: Texts, value: DataValue): Value {
    if value.Null? then VNull else VString(ValueAsString(t, value))
  }

  /** Elements are converted in order; the first failure is the result. */
  function ConvertAll(t: Texts, values: seq<DataValue>, element: AvroKind): Result<seq<Value>>
    decreases element, 1 + |values|
  {
    if values == [] then Ok([])
    else
      match Convert(t, values[0], element)
      case Err(m) => Err(m)
      case Ok(v) =>
        match ConvertAll(t, values[1..], element)
        case Err(m) => Err(m)
        case Ok(rest) => Ok([v] + rest)
  }

  // ---- The Avro 1.11 specification, sections "Schema Declaration" and "Unions" ----

  /** A value is valid for a schema. */
  predicate Conforms(v: Value, s: Schema)
    decreases s
  {
    match s
    case SNull => v.VNull?
    case SBoolean => v.VBoolean?
    case SInt => v.VInt?
    case SLong => v.VLong?
    case SDouble => v.VDouble?
    case SBytes => v.VBytes?
    case SString => v.VString?
    case SArray(items) => v.VArray? && forall i | 0 <= i < |v.items| :: Conforms(v.items[i], items)
    case SMap(values) => v.VMap? && forall k | k in v.entries :: Conforms(v.entries[k], values)
    case SUnion(branches) => exists i :: 0 <= i < |branches| && Conforms(v, branches[i])
  }

  /** Two schemas that a union may not hold together: unnamed schemas of one type. */
  predicate SameType(a: Schema, b: Schema) {
    || a == b
    || (a.SArray? && b.SArray?)
    || (a.SMap? && b.SMap?)
    || (a.SUnion? && b.SUnion?)
  }

  /** No union holds a union or two schemas of one type, and null is the first branch if it is one. */
  predicate WellFormed(s: Schema) {
    match s
    case SArray(items) => WellFormed(items)
    case SMap(values) => WellFormed(values)
    case SUnion(branches) =>
      && |branches| > 0
      && (forall i | 0 <= i < |branches| :: !branches[i].SUnion? && WellFormed(branches[i]))
      && (forall i, j | 0 <= i < j < |branches| :: !SameType(branches[i], branches[j]))
      && (forall i | 0 < i < |branches| :: branches[i] != SNull)
    case _ => true
  }

  predicate Nullable(s: Schema) { s.SUnion? && |s.branches| > 0 && s.branches[0] == SNull }

  lemma VariantsWellFormed(base: Schema, nullable: bool, text: bool)
    requires WellFormed(base) && !base.SUnion? && base != SNull && (text ==> base != SString)
    ensures WellFormed(Variants(base, nullable, text))
    ensures Nullable(Variants(base, nullable, text)) <==> nullable
  {
    var s := Variants(base, nullable, text);
    if s.SUnion? {
      var b := s.branches;
      assert b == (if nullable then [SNull] else []) + [base] + if text then [SString] else [];
      assert forall i | 0 <= i < |b| :: b[i] == SNull || b[i] == base || b[i] == SString;
    }
  }

  lemma BaseShape(kind: AvroKind)
    ensures !Base(kind).SUnion? && Base(kind) != SNull && (Base(kind) == SString <==> kind == KString)
  {
    hide Variants;
  }

  /** Every generated schema is well formed, and admits null, as its first branch, exactly if asked to. */
  lemma {:induction false} SchemaIsWellFormed(kind: AvroKind, nullable: bool, allowUnavailable: bool)
    ensures WellFormed(DataSchema(kind, nullable, allowUnavailable))
    ensures Nullable(DataSchema(kind, nullable, allowUnavailable)) <==> nullable
    ensures Conforms(VNull, DataSchema(kind, nullable, allowUnavailable)) <==> nullable
  {
    hide Variants, Conforms;
    if kind.KArray? {
      SchemaIsWellFormed(kind.element, true, true);
    } else if kind.KMap? {
      EntrySchemaWellFormed();
    }
    BaseShape(kind);
    VariantsWellFormed(Base(kind), nullable, allowUnavailable && kind != KString);
    NullConforms(kind, nullable, allowUnavailable);
  }

  lemma EntrySchemaWellFormed()
    ensures WellFormed(SUnion([SNull, SString]))
  {
    var b := [SNull, SString];
    assert forall i | 0 <= i < |b| :: !b[i].SUnion? && WellFormed(b[i]);
  }

  lemma NullConforms(kind: AvroKind, nullable: bool, allowUnavailable: bool)
    ensures Conforms(VNull, DataSchema(kind, nullable, allowUnavailable)) <==> nullable
  {
    var s := DataSchema(kind, nullable, allowUnavailable);
    if nullable {
      assert s.branches[0] == SNull && Conforms(VNull, s.branches[0]);
    }
  }

  /** In a well-formed union a value conforms to at most one branch. */
  lemma BranchIsUnique(v: Value, branches: seq<Schema>, i: nat, j: nat)
    requires WellFormed(SUnion(branches)) && i < |branches| && j < |branches|
    requires Conforms(v, branches[i]) && Conforms(v, branches[j])
    ensures i == j
  {
    assert SameType(branches[i], branches[j]) by {
      OneType(v, branches[i], branches[j]);
    }
  }

  lemma OneType(v: Value, a: Schema, b: Schema)
    requires Conforms(v, a) && Conforms(v, b) && !a.SUnion? && !b.SUnion?
    ensures SameType(a, b)
  {
  }

  /** The value is written as text although the column's kind is not text. */
  predicate FallsBack(value: DataValue, kind: AvroKind) {
    && kind != KString && !value.Null?
    && (value.Unavailable? || value.Text? || (kind.KArray? && !value.Array?) || (kind.KMap? && !value.Map?))
  }

  /**
   * Conversion is sound for the schema of the same kind: what it yields conforms exactly if null is admitted or not
   * given, and, in a schema without the text branch, exactly if in addition the value was not written as text.
   */
  lemma {:induction false} ConversionConforms(
      t: Texts, value: DataValue, kind: AvroKind, nullable: bool, allowUnavailable: bool)
    requires Convert(t, value, kind).Ok?
    ensures Conforms(Convert(t, value, kind).value, DataSchema(kind, nullable, allowUnavailable))
            <==> (value.Null? ==> nullable) && (FallsBack(value, kind) ==> allowUnavailable)
    decreases kind, 2
  {
    if value.Null? {
      NullConforms(kind, nullable, allowUnavailable);
    } else if FallsBack(value, kind) {
      TextConforms(Convert(t, value, kind).value.text, kind, nullable, allowUnavailable);
    } else {
      hide Convert;
      BaseConforms(t, value, kind);
      BaseInVariants(Convert(t, value, kind).value, Base(kind), nullable, allowUnavailable && kind != KString);
    }
  }

  lemma BaseInVariants(v: Value, base: Schema, nullable: bool, text: bool)
    requires Conforms(v, base)
    ensures Conforms(v, Variants(base, nullable, text))
  {
    var s := Variants(base, nullable, text);
    if s.SUnion? && s != base {
      var i := if nullable then 1 else 0;
      assert Conforms(v, s.branches[i]);
    }
  }

  lemma TextConforms(text: string, kind: AvroKind, nullable: bool, allowUnavailable: bool)
    requires kind != KString
    ensures Conforms(VString(text), DataSchema(kind, nullable, allowUnavailable)) <==> allowUnavailable
  {
    var s := DataSchema(kind, nullable, allowUnavailable);
    if allowUnavailable {
      var i := |s.branches| - 1;
      assert s.branches[i] == SString && Conforms(VString(text), s.branches[i]);
    }
  }

  lemma {:induction false} BaseConforms(t: Texts, value: DataValue, kind: AvroKind)
    requires Convert(t, value, kind).Ok? && !value.Null? && !FallsBack(value, kind)
    ensures Conforms(Convert(t, value, kind).value, Base(kind))
    decreases kind, 0
  {
    if kind.KArray? {
      AllConform(t, value.items, kind.element);
    } else if kind.KMap? {
      forall k | k in value.entries
        ensures Conforms(ConvertEntry(t, value.entries[k]), SUnion([SNull, SString]))
      {
        EntryConforms(t, value.entries[k]);
      }
    }
  }

  lemma EntryConforms(t: Texts, value: DataValue)
    ensures Conforms(ConvertEntry(t, value), SUnion([SNull, SString]))
  {
    var branches := [SNull, SString];
    var i := if value.Null? then 0 else 1;
    assert Conforms(ConvertEntry(t, value), branches[i]);
  }

  lemma {:induction false} AllConform(t: Texts, values: seq<DataValue>, element: AvroKind)
    requires ConvertAll(t, values, element).Ok?
    ensures var items := ConvertAll(t, values, element).value;
            && |items| == |values|
            && forall i | 0 <= i < |items| :: Conforms(items[i], DataSchema(element, true, true))
    decreases element, 3 + |values|
  {
    if values != [] {
      ConversionConforms(t, values[0], element, true, true);
      AllConform(t, values[1..], element);
    }
  }

  // ---- Which values are converted ----

  function NumberOf(value: DataValue): Option<int> {
    match value
    case Whole32(n) => Some(n)
    case Whole64(n) => Some(n)
    case Unsigned64(n) => Some(n)
    case _ => None
  }

  /** The value has a form in a column of the kind: its own, that of a narrower number, or a text. */
  predicate Convertible(value: DataValue, kind: AvroKind)
    decreases kind
  {
    value in {Null, Unavailable} || value.Text? ||
    match kind
    case KBoolean => value.Boolean?
    case KInt => NumberOf(value).Some? && !value.Unsigned64? && -0x8000_0000 <= NumberOf(value).value <= 0x7FFF_FFFF
    case KLong => NumberOf(value).Some? && NumberOf(value).value <= 0x7FFF_FFFF_FFFF_FFFF
    case KDouble => value.Float64? || (NumberOf(value).Some? && !value.Unsigned64?)
    case KBytes => value.Bytes?
    case KString => true
    case KArray(element) => value.Array? ==> forall i | 0 <= i < |value.items| :: Convertible(value.items[i], element)
    case KMap => true
  }

  /** A value is converted exactly if it has a form in the column, through arrays. */
  lemma {:induction false} ConvertsExactly(t: Texts, value: DataValue, kind: AvroKind)
    ensures Convert(t, value, kind).Ok? <==> Convertible(value, kind)
    decreases kind, 0
  {
    if kind.KArray? && value.Array? {
      AllConvert(t, value.items, kind.element);
    }
  }

  lemma {:induction false} AllConvert(t: Texts, values: seq<DataValue>, element: AvroKind)
    ensures ConvertAll(t, values, element).Ok? <==> forall i | 0 <= i < |values| :: Convertible(values[i], element)
    decreases element, 1 + |values|
  {
    if values != [] {
      hide Convertible, Convert;
      ConvertsExactly(t, values[0], element);
      AllConvert(t, values[1..], element);
      assert values == [values[0]] + values[1..];
    }
  }

  // ---- Nothing is lost but the distinction of texts ----

  /** What an Avro value says about the column value it stands for, whatever the kind of the column. */
  predicate Represents(t: Texts, v: Value, value: DataValue) {
    match v
    case VNull => value.Null?
    case VBoolean(flag) => value == Boolean(flag)
    case VInt(n) => NumberOf(value) == Some(n)
    case VLong(n) => NumberOf(value) == Some(n)
    case VDouble(d) => value == Float64(d) || (NumberOf(value).Some? && d == (t.toDouble)(NumberOf(value).value))
    case VBytes(b) => value == Bytes(b)
    case VString(s) => !value.Null? && s == ValueAsString(t, value)
    case VArray(items) =>
      value.Array? && |items| == |value.items| && forall i | 0 <= i < |items| :: Represents(t, items[i], value.items[i])
    case VMap(entries) =>
      && value.Map? && entries.Keys == value.entries.Keys
      && forall k | k in entries :: Represents(t, entries[k], value.entries[k])
  }

  /** Conversion keeps null, flags, numbers, bytes and structure, and otherwise the text of the value. */
  lemma {:induction false} ConversionRepresents(t: Texts, value: DataValue, kind: AvroKind)
    requires Convert(t, value, kind).Ok?
    ensures Represents(t, Convert(t, value, kind).value, value)
    decreases kind, 0
  {
    if kind.KArray? && value.Array? {
      AllRepresent(t, value.items, kind.element);
    } else if kind.KMap? && value.Map? {
      assert forall k | k in value.entries :: Represents(t, ConvertEntry(t, value.entries[k]), value.entries[k]);
    }
  }

  lemma {:induction false} AllRepresent(t: Texts, values: seq<DataValue>, element: AvroKind)
    requires ConvertAll(t, values, element).Ok?
    ensures var items := ConvertAll(t, values, element).value;
            && |items| == |values|
            && forall i | 0 <= i < |items| :: Represents(t, items[i], values[i])
    decreases element, 1 + |values|
  {
    if values != [] {
      ConversionRepresents(t, values[0], element);
      AllRepresent(t, values[1..], element);
    }
  }

  // ---- Rows ----

  /** One field after the other; an absent value is null where that is allowed. */
  function RowValue(t: Texts, row: Row, columns: seq<Column<AvroKind>>, key: bool): Result<seq<(string, Value)>> {
    if columns == [] then Ok([])
    else
      var c := columns[0];
      var converted := if c.source in row then Convert(t, row[c.source], c.kind)
                       else if c.optional && !key then Ok(VNull)
                       else Err("missing required field");
      match converted
      case Err(m) => Err(m)
      case Ok(v) =>
        match RowValue(t, row, columns[1..], key)
        case Err(m) => Err(m)
        case Ok(rest) => Ok([(c.name, v)] + rest)
  }

  /** The fields of the generated record schema. */
  function RecordFields(columns: seq<Column<AvroKind>>, key: bool): seq<(string, Schema)> {
    if columns == [] then []
    else [(columns[0].name, DataSchema(columns[0].kind, columns[0].optional, !key))] + RecordFields(columns[1..], key)
  }

  /** A record value has the fields of its schema, in order, each with a conforming value. */
  predicate RecordConforms(values: seq<(string, Value)>, fields: seq<(string, Schema)>) {
    && |values| == |fields|
    && forall i | 0 <= i < |values| :: values[i].0 == fields[i].0 && Conforms(values[i].1, fields[i].1)
  }

  /** A null in a column that must have a value, or, in a key, a value that only has a text form. */
  predicate Misplaced(row: Row, c: Column<AvroKind>, key: bool) {
    && c.source in row
    && ((row[c.source].Null? && !c.optional) || (key && FallsBack(row[c.source], c.kind)))
  }

  /** A converted row conforms to the generated record schema exactly if no value in it is misplaced. */
  lemma {:induction false} RowConforms(t: Texts, row: Row, columns: seq<Column<AvroKind>>, key: bool)
    requires RowValue(t, row, columns, key).Ok?
    ensures RecordConforms(RowValue(t, row, columns, key).value, RecordFields(columns, key))
            <==> forall i | 0 <= i < |columns| :: !Misplaced(row, columns[i], key)
  {
    hide Convert, DataSchema, Conforms;
    if columns != [] {
      var c, rest := columns[0], columns[1..];
      RowConforms(t, row, rest, key);
      if c.source in row {
        ConversionConforms(t, row[c.source], c.kind, c.optional, !key);
      } else {
        SchemaIsWellFormed(c.kind, c.optional, !key);
      }
      var v := RowValue(t, row, columns, key).value[0].1;
      assert Conforms(v, DataSchema(c.kind, c.optional, !key)) <==> !Misplaced(row, c, key);
      ConsConforms((c.name, v), RowValue(t, row, rest, key).value, (c.name, DataSchema(c.kind, c.optional, !key)),
                   RecordFields(rest, key));
      assert (forall i | 0 <= i < |columns| :: !Misplaced(row, columns[i], key))
             <==> !Misplaced(row, c, key) && forall i | 0 <= i < |rest| :: !Misplaced(row, rest[i], key) by {
        assert columns == [c] + rest;
      }
    }
  }

  lemma ConsConforms(
      v: (string, Value), values: seq<(string, Value)>, f: (string, Schema), fields: seq<(string, Schema)>)
    ensures RecordConforms([v] + values, [f] + fields)
            <==> v.0 == f.0 && Conforms(v.1, f.1) && RecordConforms(values, fields)
  {
    hide Conforms;
    var all, schema := [v] + values, [f] + fields;
    assert all[1..] == values && schema[1..] == fields;
    if RecordConforms(all, schema) {
      assert all[0] == v && schema[0] == f;
      assert forall i | 0 <= i < |values| :: values[i] == all[i + 1] && fields[i] == schema[i + 1];
    }
  }

  /** The column has a convertible value, or may be absent and is. */
  predicate ColumnConvertible(row: Row, c: Column<AvroKind>, key: bool) {
    if c.source in row then Convertible(row[c.source], c.kind) else c.optional && !key
  }

  /** The field has the column's name and stands for its value, or for its absence. */
  predicate FieldOf(t: Texts, row: Row, c: Column<AvroKind>, field: (string, Value)) {
    && field.0 == c.name
    && if c.source in row then Represents(t, field.1, row[c.source]) else field.1 == VNull
  }

  /** A row is converted exactly if every column is, and then to one field for each, in order, that stands for it. */
  lemma {:induction false} RowConvertsExactly(t: Texts, row: Row, columns: seq<Column<AvroKind>>, key: bool)
    ensures RowValue(t, row, columns, key).Ok?
            <==> forall i | 0 <= i < |columns| :: ColumnConvertible(row, columns[i], key)
    ensures RowValue(t, row, columns, key).Ok? ==>
              var fields := RowValue(t, row, columns, key).value;
              |fields| == |columns| && forall i | 0 <= i < |fields| :: FieldOf(t, row, columns[i], fields[i])
  {
    hide Convert, Convertible, Represents;
    if columns != [] {
      var c, rest := columns[0], columns[1..];
      RowConvertsExactly(t, row, rest, key);
      assert columns == [c] + rest;
      if c.source in row {
        ConvertsExactly(t, row[c.source], c.kind);
        if Convertible(row[c.source], c.kind) {
          ConversionRepresents(t, row[c.source], c.kind);
        }
      }
    }
  }

  /** A row with a null in a required column is converted all the same, to a value its schema does not admit. */
  lemma NullSlipsThrough(t: Texts)
    ensures var columns := [Column("id", false, "id", KInt)];
            && RowValue(t, map["id" := Null], columns, false) == Ok([("id", VNull)])
            && !RecordConforms([("id", VNull)], RecordFields(columns, false))
  {
    var columns := [Column("id", false, "id", KInt)];
    assert columns[1..] == [] && RowValue(t, map["id" := Null], [], false) == Ok([]);
    assert [("id", VNull)] + [] == [("id", VNull)];
    RowConforms(t, map["id" := Null], columns, false);
    assert Misplaced(map["id" := Null], columns[0], false);
  }
}
