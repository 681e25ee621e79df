/**
 * Protobuf messages of rows (rustium-format-protobuf, lib.rs). A descriptor is what the generated definition text
 * declares; a message is a descriptor with the fields that have been set.
 */
module Protobuf {
  import opened Prelude
  import opened DataValues
  import opened Octets
  import N = FieldNumbers

  datatype Kind = KBoolean | KInt | KLong | KUnsigned | KDouble | KBytes | KString | KArray(element: Kind) | KMap

  datatype FieldType = TBool | TInt32 | TInt64 | TUInt64 | TDouble | TBytes | TString | TMessage(descriptor: Descriptor)

  /** `State` marks the branches of the one `oneof` that generated messages have. */
  datatype Role = State | Singular | Repeated | Mapped

  datatype FieldDescriptor = FieldDescriptor(name: string, number: nat, role: Role, fieldType: FieldType)

  datatype Descriptor = Descriptor(fields: seq<FieldDescriptor>)

  datatype ProtoValue =
    | Bool(flag: bool)
    | I32(int32: Int32)
    | I64(int64: Int64)
    | U64(uint64: UInt64)
    | F64(double: Double)
    | Binary(bytes: seq<Byte>)
    | Str(text: string)
    | Msg(message: Message)
    | List(items: seq<ProtoValue>)
    | Entries(entries: map<string, ProtoValue>)

  datatype Message = Message(descriptor: Descriptor, fields: map<string, ProtoValue>)

  // ---- The generated definitions ----

  function NativeType(kind: Kind): FieldType
    decreases kind, 0
  {
    match kind
    case KBoolean => TBool
    case KInt => TInt32
    case KLong => TInt64
    case KUnsigned => TUInt64
    case KDouble => TDouble
    case KBytes => TBytes
    case KString => TString
    case KArray(element) =>
      TMessage(Descriptor([FieldDescriptor("values", 1, Repeated, TMessage(ItemMessage(element)))]))
    case KMap => TMessage(Descriptor([FieldDescriptor("values", 1, Mapped, TMessage(EntryMessage()))]))
  }

  /** `message Item`: the text branch is left out for text. */
  function ItemMessage(element: Kind): Descriptor
    decreases element, 1
  {
    Descriptor([FieldDescriptor("value", 1, State, NativeType(element)),
                FieldDescriptor("null_value", 2, State, TBool),
                FieldDescriptor("unavailable", 3, State, TString)]
               + if element == KString then [] else [FieldDescriptor("text", 4, State, TString)])
  }

  function EntryMessage(): Descriptor {
    Descriptor([FieldDescriptor("value", 1, State, TString),
                FieldDescriptor("null_value", 2, State, TBool),
                FieldDescriptor("unavailable", 3, State, TString)])
  }

  /** `message Field_...`. */
  function FieldWrapper(kind: Kind): Descriptor {
    Descriptor([FieldDescriptor("value", 1, State, NativeType(kind)),
                FieldDescriptor("unavailable", 2, State, TString)]
               + if kind == KString then [] else [FieldDescriptor("text", 3, State, TString)])
  }

  // ---- Dynamic messages ----

  function FieldNamed(fields: seq<FieldDescriptor>, name: string): Option<FieldDescriptor> {
    if fields == [] then None
    else if fields[0].name == name then Some(fields[0])
    else FieldNamed(fields[1..], name)
  }

  predicate FitsType(v: ProtoValue, t: FieldType) {
    match t
    case TBool => v.Bool?
    case TInt32 => v.I32?
    case TInt64 => v.I64?
    case TUInt64 => v.U64?
    case TDouble => v.F64?
    case TBytes => v.Binary?
    case TString => v.Str?
    case TMessage(d) => v.Msg? && v.message.descriptor == d
  }

  predicate Fits(v: ProtoValue, f: FieldDescriptor) {
    match f.role
    case Repeated => v.List? && forall i | 0 <= i < |v.items| :: FitsType(v.items[i], f.fieldType)
    case Mapped => v.Entries? && forall k | k in v.entries :: FitsType(v.entries[k], f.fieldType)
    case _ => FitsType(v, f.fieldType)
  }

  predicate IsState(d: Descriptor, name: string) {
    var f := FieldNamed(d.fields, name); f.Some? && f.value.role == State
  }

  /** Setting a branch of the `oneof` clears the others. */
  function SetField(m: Message, name: string, v: ProtoValue): Result<Message> {
    match FieldNamed(m.descriptor.fields, name)
    case None => Err("message has no such field")
    case Some(f) =>
      if !Fits(v, f) then Err("invalid field value")
      else
        var kept := map k | k in m.fields && !(f.role == State && IsState(m.descriptor, k)) :: m.fields[k];
        Ok(m.(fields := kept[name := v]))
  }

  function MessageField(d: Descriptor, name: string): Result<Descriptor> {
    match FieldNamed(d.fields, name)
    case None => Err("message has no such field")
    case Some(f) => if f.fieldType.TMessage? then Ok(f.fieldType.descriptor) else Err("not a message")
  }

  function RoleField(d: Descriptor, name: string, role: Role): Result<Descriptor> {
    match FieldNamed(d.fields, name)
    case None => Err("container has no values field")
    case Some(f) =>
      if f.fieldType.TMessage? && f.role == role then Ok(f.fieldType.descriptor) else Err("unexpected kind of field")
  }

  // ---- The builders ----

  function ScalarToProto(t: Texts, value: DataValue, kind: Kind): Result<ProtoValue> {
    match kind
    case KBoolean => if value.Boolean? then Ok(Bool(value.flag)) else Err("expected boolean")
    case KInt =>
      if value.Whole32? then Ok(I32(value.int32))
      else if value.Whole64? then
        if -0x8000_0000 <= value.int64 < 0x8000_0000 then Ok(I32(value.int64)) else Err("outside the int32 range")
      else Err("expected integer")
    case KLong =>
      if value.Whole32? then Ok(I64(value.int32))
      else if value.Whole64? then Ok(I64(value.int64))
      else Err("expected integer")
    case KUnsigned =>
      if value.Unsigned64? then Ok(U64(value.uint64))
      else if value.Whole32? then if value.int32 >= 0 then Ok(U64(value.int32)) else Err("negative integer")
      else if value.Whole64? then if value.int64 >= 0 then Ok(U64(value.int64)) else Err("negative integer")
      else Err("expected unsigned integer")
    case KDouble =>
      if value.Float64? then Ok(F64(value.double))
      else if value.Whole32? then Ok(F64((t.toDouble)(value.int32)))
      else if value.Whole64? then Ok(F64((t.toDouble)(value.int64)))
      else Err("expected number")
    case KBytes => if value.Bytes? then Ok(Binary(value.bytes)) else Err("expected bytes")
    case KString => Ok(Str(ValueAsString(t, value)))
    case KArray(_) => Err("container is not a scalar")
    case KMap => Err("container is not a scalar")
  }

  predicate IsContainer(kind: Kind) { kind.KArray? || kind.KMap? }

  /** The native branch: a scalar, or a nested container message. */
  function BuildNative(t: Texts, value: DataValue, kind: Kind, d: Descriptor): Result<ProtoValue>
    decreases kind, 1
  {
    if !IsContainer(kind) then ScalarToProto(t, value, kind)
    else
      match MessageField(d, "value")
      case Err(m) => Err(m)
      case Ok(inner) =>
        match BuildContainer(t, value, kind, inner)
        case Err(m) => Err(m)
        case Ok(message) => Ok(Msg(message))
  }

  function BuildFieldWrapper(t: Texts, value: DataValue, kind: Kind, d: Descriptor): Result<Message>
    decreases kind, 2
  {
    var wrapper := Message(d, map[]);
    if value.Unavailable? then SetField(wrapper, "unavailable", Str(t.unavailable))
    else if value.Text? && kind != KString then SetField(wrapper, "text", Str(value.text))
    else
      match BuildNative(t, value, kind, d)
      case Err(m) => Err(m)
      case Ok(native) => SetField(wrapper, "value", native)
  }

  function BuildContainer(t: Texts, value: DataValue, kind: Kind, d: Descriptor): Result<Message>
    decreases kind, 0
  {
    if kind.KArray? && value.Array? then
      match RoleField(d, "values", Repeated)
      case Err(m) => Err(m)
      case Ok(item) =>
        match BuildItems(t, value.items, kind.element, item)
        case Err(m) => Err(m)
        case Ok(items) => SetField(Message(d, map[]), "values", List(items))
    else if kind.KMap? && value.Map? then
      match RoleField(d, "values", Mapped)
      case Err(m) => Err(m)
      case Ok(entry) =>
        if exists k :: k in value.entries && BuildEntry(t, value.entries[k], entry).Err?
        then Err("entry cannot be encoded")
        else
          var entries := map k | k in value.entries && BuildEntry(t, value.entries[k], entry).Ok? ::
                           Msg(BuildEntry(t, value.entries[k], entry).value);
          SetField(Message(d, map[]), "values", Entries(entries))
    else Err("expected container")
  }

  /** Items are built in order; the first failure is the result. */
  function BuildItems(t: Texts, values: seq<DataValue>, element: Kind, d: Descriptor): Result<seq<ProtoValue>>
    decreases element, 3 + |values|
  {
    if values == [] then Ok([])
    else
      match BuildItem(t, values[0], element, d)
      case Err(m) => Err(m)
      case Ok(item) =>
        match BuildItems(t, values[1..], element, d)
        case Err(m) => Err(m)
        case Ok(rest) => Ok([Msg(item)] + rest)
  }

  function BuildItem(t: Texts, value: DataValue, element: Kind, d: Descriptor): Result<Message>
    decreases element, 2
  {
    var item := Message(d, map[]);
    if value.Null? then SetField(item, "null_value", Bool(true))
    else if value.Unavailable? then SetField(item, "unavailable", Str(t.unavailable))
    else if value.Text? && element != KString then SetField(item, "text", Str(value.text))
    else
      match BuildNative(t, value, element, d)
      case Err(m) => Err(m)
      case Ok(native) => SetField(item, "value", native)
  }

  function BuildEntry(t: Texts, value: DataValue, d: Descriptor): Result<Message> {
    var entry := Message(d, map[]);
    if value.Null? then SetField(entry, "null_value", Bool(true))
    else if value.Unavailable? then SetField(entry, "unavailable", Str(t.unavailable))
    else SetField(entry, "value", Str(ValueAsString(t, value)))
  }

  // ---- What a message means ----

  datatype Meaning =
    | MNull
    | MUnavailable
    | MFallback(text: string)
    | MFlag(flag: bool)
    | MWhole(n: int)
    | MReal(double: Double)
    | MRaw(bytes: seq<Byte>)
    | MWords(text: string)
    | MItems(items: seq<Meaning>)
    | MEntries(entries: map<string, Meaning>)

  /** What a value is meant to say in a column of a kind: integers lose their width, and text columns hold texts. */
  function Intended(t: Texts, value: DataValue, kind: Kind): Meaning
    decreases kind, 0
  {
    if value.Null? then MNull
    else if value.Unavailable? then MUnavailable
    else if kind == KString then MWords(ValueAsString(t, value))
    else if value.Text? then MFallback(value.text)
    else
      match value
      case Boolean(flag) => MFlag(flag)
      case Whole32(n) => if kind == KDouble then MReal((t.toDouble)(n)) else MWhole(n)
      case Whole64(n) => if kind == KDouble then MReal((t.toDouble)(n)) else MWhole(n)
      case Unsigned64(n) => MWhole(n)
      case Float64(d) => MReal(d)
      case Bytes(b) => MRaw(b)
      case Array(items) => if kind.KArray? then MItems(IntendedItems(t, items, kind.element)) else MNull
      case Map(entries) => MEntries(map k | k in entries :: IntendedEntry(t, entries[k]))
      case _ => MNull
  }

  function IntendedItems(t: Texts, items: seq<DataValue>, element: Kind): seq<Meaning>
    decreases element, 1 + |items|
  {
    if items == [] then [] else [Intended(t, items[0], element)] + IntendedItems(t, items[1..], element)
  }

  function IntendedEntry(t: Texts, value: DataValue): Meaning {
    if value.Null? then MNull else if value.Unavailable? then MUnavailable else MWords(ValueAsString(t, value))
  }

  // ---- A reader of messages ----

  /** The branch that is set, when exactly one field is. */
  function OnlyField(m: Message): Option<string> {
    if "value" in m.fields && m.fields.Keys == {"value"} then Some("value")
    else if "null_value" in m.fields && m.fields.Keys == {"null_value"} then Some("null_value")
    else if "unavailable" in m.fields && m.fields.Keys == {"unavailable"} then Some("unavailable")
    else if "text" in m.fields && m.fields.Keys == {"text"} then Some("text")
    else None
  }

  /** Reads the branches that stand for themselves. */
  function ReadMark(m: Message): Option<Meaning> {
    var branch := OnlyField(m);
    if branch == Some("null_value") then (if m.fields["null_value"] == Bool(true) then Some(MNull) else None)
    else if branch == Some("unavailable") then (if m.fields["unavailable"].Str? then Some(MUnavailable) else None)
    else if branch == Some("text") then
      (if m.fields["text"].Str? then Some(MFallback(m.fields["text"].text)) else None)
    else None
  }

  /** Reads a wrapper or an item. */
  function ReadState(m: Message, kind: Kind): Option<Meaning>
    decreases kind, 1
  {
    if OnlyField(m) == Some("value") then ReadNative(m.fields["value"], kind) else ReadMark(m)
  }

  function ReadNative(v: ProtoValue, kind: Kind): Option<Meaning>
    decreases kind, 0
  {
    match v
    case Bool(flag) => Some(MFlag(flag))
    case I32(n) => Some(MWhole(n))
    case I64(n) => Some(MWhole(n))
    case U64(n) => Some(MWhole(n))
    case F64(d) => Some(MReal(d))
    case Binary(b) => Some(MRaw(b))
    case Str(s) => Some(MWords(s))
    case Msg(m) =>
      if "values" !in m.fields then None
      else if kind.KArray? && m.fields["values"].List? then
        var items := ReadItems(m.fields["values"].items, kind.element);
        if items.Some? then Some(MItems(items.value)) else None
      else if kind.KMap? && m.fields["values"].Entries? then
        var entries := m.fields["values"].entries;
        if forall k | k in entries :: ReadEntry(entries[k]).Some?
        then Some(MEntries(map k | k in entries && ReadEntry(entries[k]).Some? :: ReadEntry(entries[k]).value))
        else None
      else None
    case _ => None
  }

  function ReadItems(items: seq<ProtoValue>, element: Kind): Option<seq<Meaning>>
    decreases element, 2 + |items|
  {
    if items == [] then Some([])
    else if !items[0].Msg? then None
    else
      var first, rest := ReadState(items[0].message, element), ReadItems(items[1..], element);
      if first.None? || rest.None? then None else Some([first.value] + rest.value)
  }

  function ReadEntry(v: ProtoValue): Option<Meaning> {
    if !v.Msg? then None
    else if OnlyField(v.message) != Some("value") then ReadMark(v.message)
    else if v.message.fields["value"].Str? then Some(MWords(v.message.fields["value"].text))
    else None
  }

  // ---- Which values can be encoded ----

  predicate Encodable(value: DataValue, kind: Kind)
    decreases kind
  {
    value.Unavailable? || value.Text? ||
    match kind
    case KBoolean => value.Boolean?
    case KInt => value.Whole32? || (value.Whole64? && -0x8000_0000 <= value.int64 < 0x8000_0000)
    case KLong => value.Whole32? || value.Whole64?
    case KUnsigned => value.Unsigned64? || (value.Whole32? && value.int32 >= 0) || (value.Whole64? && value.int64 >= 0)
    case KDouble => value.Float64? || value.Whole32? || value.Whole64?
    case KBytes => value.Bytes?
    case KString => true
    case KArray(element) =>
      value.Array? && forall i | 0 <= i < |value.items| :: value.items[i].Null? || Encodable(value.items[i], element)
    case KMap => value.Map?
  }

  // ---- Messages that fit their definitions ----

  /** Exactly one branch of the `oneof` is set, it is declared, and its value is of the declared type. */
  predicate OneBranch(m: Message, d: Descriptor, branch: string) {
    && m.descriptor == d && m.fields.Keys == {branch}
    && IsState(d, branch) && Fits(m.fields[branch], FieldNamed(d.fields, branch).value)
  }

  /** A state message as its definition has it, in depth. */
  predicate WellFormed(m: Message, d: Descriptor, kind: Kind)
    decreases kind, 1
  {
    && (exists branch :: branch in m.fields && OneBranch(m, d, branch))
    && ("value" in m.fields ==> NativeWellFormed(m.fields["value"], kind))
  }

  predicate NativeWellFormed(v: ProtoValue, kind: Kind)
    decreases kind, 0
  {
    && FitsType(v, NativeType(kind))
    && (kind.KArray? ==>
          && v.message.fields.Keys == {"values"} && v.message.fields["values"].List?
          && forall i | 0 <= i < |v.message.fields["values"].items| ::
               var item := v.message.fields["values"].items[i];
               item.Msg? && WellFormed(item.message, ItemMessage(kind.element), kind.element))
    && (kind.KMap? ==>
          && v.message.fields.Keys == {"values"} && v.message.fields["values"].Entries?
          && forall k | k in v.message.fields["values"].entries ::
               var entry := v.message.fields["values"].entries[k];
               entry.Msg?
               && exists branch ::
                    branch in entry.message.fields && OneBranch(entry.message, EntryMessage(), branch))
  }

  // ---- Setting one branch ----

  /** In an empty message, setting a declared branch to a fitting value leaves exactly that branch set. */
  lemma SetBranch(d: Descriptor, branch: string, v: ProtoValue)
    requires IsState(d, branch) && Fits(v, FieldNamed(d.fields, branch).value)
    ensures SetField(Message(d, map[]), branch, v) == Ok(Message(d, map[branch := v]))
    ensures OneBranch(Message(d, map[branch := v]), d, branch)
  {
  }

  lemma NamedSecond(f: seq<FieldDescriptor>)
    requires |f| >= 2
    ensures f[0].name != f[1].name ==> FieldNamed(f, f[1].name) == Some(f[1])
    ensures forall name | name != f[0].name && name != f[1].name :: FieldNamed(f, name) == FieldNamed(f[2..], name)
  {
    assert f[1..][0] == f[1] && f[1..][1..] == f[2..];
  }

  lemma NamedThird(f: seq<FieldDescriptor>)
    requires |f| >= 3
    ensures f[0].name != f[2].name && f[1].name != f[2].name ==> FieldNamed(f, f[2].name) == Some(f[2])
    ensures forall name | name != f[0].name && name != f[1].name && name != f[2].name ::
              FieldNamed(f, name) == FieldNamed(f[3..], name)
  {
    NamedSecond(f);
    assert f[2..][0] == f[2] && f[2..][1..] == f[3..];
  }

  lemma WrapperBranches(kind: Kind)
    ensures FieldNamed(FieldWrapper(kind).fields, "value") == Some(FieldDescriptor("value", 1, State, NativeType(kind)))
    ensures FieldNamed(FieldWrapper(kind).fields, "unavailable")
            == Some(FieldDescriptor("unavailable", 2, State, TString))
    ensures FieldNamed(FieldWrapper(kind).fields, "text")
            == if kind == KString then None else Some(FieldDescriptor("text", 3, State, TString))
  {
    hide NativeType;
    var f := FieldWrapper(kind).fields;
    NamedSecond(f);
    if kind == KString {
      assert f[2..] == [];
    } else {
      NamedThird(f);
    }
  }

  lemma ItemBranches(kind: Kind)
    ensures FieldNamed(ItemMessage(kind).fields, "value") == Some(FieldDescriptor("value", 1, State, NativeType(kind)))
    ensures FieldNamed(ItemMessage(kind).fields, "null_value") == Some(FieldDescriptor("null_value", 2, State, TBool))
    ensures FieldNamed(ItemMessage(kind).fields, "unavailable")
            == Some(FieldDescriptor("unavailable", 3, State, TString))
    ensures FieldNamed(ItemMessage(kind).fields, "text")
            == if kind == KString then None else Some(FieldDescriptor("text", 4, State, TString))
  {
    hide NativeType;
    var f := ItemMessage(kind).fields;
    NamedSecond(f);
    NamedThird(f);
    if kind == KString {
      assert f[3..] == [];
    } else {
      assert f[3..][0] == f[3];
    }
  }

  lemma EntryBranches()
    ensures FieldNamed(EntryMessage().fields, "value") == Some(FieldDescriptor("value", 1, State, TString))
    ensures FieldNamed(EntryMessage().fields, "null_value") == Some(FieldDescriptor("null_value", 2, State, TBool))
    ensures FieldNamed(EntryMessage().fields, "unavailable") == Some(FieldDescriptor("unavailable", 3, State, TString))
  {
    var f := EntryMessage().fields;
    NamedSecond(f);
    NamedThird(f);
  }

  lemma OnlyBranch(d: Descriptor, branch: string, v: ProtoValue)
    requires branch in {"value", "null_value", "unavailable", "text"}
    ensures OnlyField(Message(d, map[branch := v])) == Some(branch)
  {
    assert map[branch := v].Keys == {branch};
  }

  // ---- Every build says what was meant ----

  /** What is proved of a scalar: it is encoded exactly if it fits, in the declared type, with its meaning. */
  ghost predicate ScalarOk(t: Texts, value: DataValue, kind: Kind) {
    var v := ScalarToProto(t, value, kind);
    && (v.Ok? <==> Encodable(value, kind))
    && (v.Ok? ==> NativeWellFormed(v.value, kind) && ReadNative(v.value, kind) == Some(Intended(t, value, kind)))
  }

  lemma NumberBuilt(t: Texts, value: DataValue, kind: Kind)
    requires kind.KInt? || kind.KLong? || kind.KUnsigned?
    requires !value.Null? && !value.Unavailable? && !value.Text?
    ensures ScalarOk(t, value, kind)
  {
  }

  lemma ScalarBuilt(t: Texts, value: DataValue, kind: Kind)
    requires !IsContainer(kind) && !value.Null? && !value.Unavailable? && (value.Text? ==> kind == KString)
    ensures ScalarOk(t, value, kind)
  {
    if kind.KInt? || kind.KLong? || kind.KUnsigned? {
      hide ScalarOk;
      NumberBuilt(t, value, kind);
    }
  }

  lemma {:induction false} NativeBuilt(t: Texts, value: DataValue, kind: Kind, d: Descriptor)
    requires !value.Null? && !value.Unavailable? && (value.Text? ==> kind == KString)
    requires FieldNamed(d.fields, "value") == Some(FieldDescriptor("value", 1, State, NativeType(kind)))
    ensures BuildNative(t, value, kind, d).Ok? <==> Encodable(value, kind)
    ensures BuildNative(t, value, kind, d).Ok? ==>
              var v := BuildNative(t, value, kind, d).value;
              NativeWellFormed(v, kind) && ReadNative(v, kind) == Some(Intended(t, value, kind))
    decreases kind, 1
  {
    hide FieldNamed, NativeWellFormed, ReadNative, Intended, ScalarToProto, FitsType;
    if !IsContainer(kind) {
      ScalarBuilt(t, value, kind);
    } else if kind.KArray? && value.Array? {
      ArrayBuilt(t, value, kind);
    } else if kind.KMap? && value.Map? {
      MapBuilt(t, value);
    }
  }

  lemma ValuesField(role: Role, d: Descriptor, v: ProtoValue)
    requires var f := FieldDescriptor("values", 1, role, TMessage(d)); role != State && Fits(v, f)
    ensures var container := Descriptor([FieldDescriptor("values", 1, role, TMessage(d))]);
            && RoleField(container, "values", role) == Ok(d)
            && SetField(Message(container, map[]), "values", v) == Ok(Message(container, map["values" := v]))
  {
  }

  lemma {:induction false} ArrayBuilt(t: Texts, value: DataValue, kind: Kind)
    requires kind.KArray? && value.Array?
    ensures BuildContainer(t, value, kind, NativeType(kind).descriptor).Ok? <==> Encodable(value, kind)
    ensures BuildContainer(t, value, kind, NativeType(kind).descriptor).Ok? ==>
              var v := Msg(BuildContainer(t, value, kind, NativeType(kind).descriptor).value);
              NativeWellFormed(v, kind) && ReadNative(v, kind) == Some(Intended(t, value, kind))
    decreases kind, 0
  {
    hide FieldNamed, SetField, RoleField, ItemMessage, WellFormed, BuildItems, ReadItems;
    hide IntendedItems, BuildItem, ReadState;
    hide Encodable;
    var element := kind.element;
    var item := ItemMessage(element);
    ItemsBuilt(t, value.items, element);
    EncodableArray(value, kind);
    ValuesField(Repeated, item, List([]));
    if BuildItems(t, value.items, element, item).Ok? {
      ValuesField(Repeated, item, List(BuildItems(t, value.items, element, item).value));
    }
  }

  lemma EncodableArray(value: DataValue, kind: Kind)
    requires kind.KArray? && value.Array?
    ensures Encodable(value, kind)
            <==> forall i | 0 <= i < |value.items| :: value.items[i].Null? || Encodable(value.items[i], kind.element)
  {
  }

  lemma {:induction false} ItemsBuilt(t: Texts, values: seq<DataValue>, element: Kind)
    ensures BuildItems(t, values, element, ItemMessage(element)).Ok?
            <==> forall i | 0 <= i < |values| :: values[i].Null? || Encodable(values[i], element)
    ensures BuildItems(t, values, element, ItemMessage(element)).Ok? ==>
              var items := BuildItems(t, values, element, ItemMessage(element)).value;
              && |items| == |values|
              && (forall i | 0 <= i < |items| ::
                    && items[i].Msg? && items[i].message.descriptor == ItemMessage(element)
                    && WellFormed(items[i].message, ItemMessage(element), element))
              && ReadItems(items, element) == Some(IntendedItems(t, values, element))
    decreases element, 3 + |values|
  {
    hide FieldNamed, SetField, ItemMessage, BuildItem, ReadState, Intended, Encodable, WellFormed;
    if values != [] {
      ItemBuilt(t, values[0], element);
      ItemsBuilt(t, values[1..], element);
      assert values == [values[0]] + values[1..];
      if BuildItems(t, values, element, ItemMessage(element)).Ok? {
        var items := BuildItems(t, values, element, ItemMessage(element)).value;
        assert items[1..] == BuildItems(t, values[1..], element, ItemMessage(element)).value;
      }
    }
  }

  lemma {:induction false} ItemBuilt(t: Texts, value: DataValue, element: Kind)
    ensures BuildItem(t, value, element, ItemMessage(element)).Ok? <==> value.Null? || Encodable(value, element)
    ensures BuildItem(t, value, element, ItemMessage(element)).Ok? ==>
              var m := BuildItem(t, value, element, ItemMessage(element)).value;
              && m.descriptor == ItemMessage(element) && WellFormed(m, ItemMessage(element), element)
              && ReadState(m, element) == Some(Intended(t, value, element))
    decreases element, 2
  {
    hide FieldNamed, SetField, BuildNative, NativeWellFormed, ReadNative, ItemMessage, NativeType, WellFormed, ReadMark;
    ItemBranches(element);
    if value.Null? {
      StateSet(ItemMessage(element), "null_value", Bool(true), element);
    } else if value.Unavailable? {
      StateSet(ItemMessage(element), "unavailable", Str(t.unavailable), element);
    } else if value.Text? && element != KString {
      StateSet(ItemMessage(element), "text", Str(value.text), element);
    } else {
      NativeBuilt(t, value, element, ItemMessage(element));
      if Encodable(value, element) {
        NativeFits(BuildNative(t, value, element, ItemMessage(element)).value, element);
        StateSet(ItemMessage(element), "value", BuildNative(t, value, element, ItemMessage(element)).value, element);
      }
    }
  }

  /** One branch set in an empty state message. */
  lemma StateSet(d: Descriptor, branch: string, v: ProtoValue, kind: Kind)
    requires branch in {"value", "null_value", "unavailable", "text"}
    requires IsState(d, branch) && Fits(v, FieldNamed(d.fields, branch).value)
    requires branch == "value" ==> NativeWellFormed(v, kind)
    ensures var m := Message(d, map[branch := v]);
            && SetField(Message(d, map[]), branch, v) == Ok(m)
            && WellFormed(m, d, kind)
            && ReadState(m, kind) == (if branch == "value" then ReadNative(v, kind) else ReadMark(m))
            && ReadMark(m) == if branch == "null_value" && v == Bool(true) then Some(MNull)
                              else if branch == "unavailable" && v.Str? then Some(MUnavailable)
                              else if branch == "text" && v.Str? then Some(MFallback(v.text))
                              else None
  {
    hide Fits, FieldNamed, IsState, SetField, NativeWellFormed, ReadNative;
    SetBranch(d, branch, v);
    OnlyBranch(d, branch, v);
  }

  lemma EntryBuilt(t: Texts, value: DataValue)
    ensures EntryOk(t, value)
  {
    hide FieldNamed, SetField, EntryMessage, ReadNative;
    EntryBranches();
    var branch := if value.Null? then "null_value" else if value.Unavailable? then "unavailable" else "value";
    var v := if value.Null? then Bool(true)
             else if value.Unavailable? then Str(t.unavailable)
             else Str(ValueAsString(t, value));
    SetBranch(EntryMessage(), branch, v);
    OnlyBranch(EntryMessage(), branch, v);
  }

  lemma MapBuilt(t: Texts, value: DataValue)
    requires value.Map?
    ensures BuildContainer(t, value, KMap, NativeType(KMap).descriptor).Ok?
    ensures var v := Msg(BuildContainer(t, value, KMap, NativeType(KMap).descriptor).value);
            NativeWellFormed(v, KMap) && ReadNative(v, KMap) == Some(Intended(t, value, KMap))
  {
    hide FieldNamed, SetField, RoleField, EntryMessage, BuildEntry, ReadEntry, IntendedEntry, OneBranch, FitsType;
    var entry := EntryMessage();
    forall k | k in value.entries
      ensures EntryOk(t, value.entries[k])
    {
      EntryBuilt(t, value.entries[k]);
    }
    var entries := BuiltEntries(t, value.entries);
    assert entries == map k | k in value.entries && BuildEntry(t, value.entries[k], entry).Ok? ::
                        Msg(BuildEntry(t, value.entries[k], entry).value);
    EntriesFit(t, value.entries);
    ValuesField(Mapped, entry, Entries(map[]));
    ValuesField(Mapped, entry, Entries(entries));
    MapWellFormed(t, value);
    MapRead(t, value);
  }

  /** An entry is always built, with one branch set, and reads back as what was meant. */
  ghost predicate EntryOk(t: Texts, value: DataValue) {
    && BuildEntry(t, value, EntryMessage()).Ok?
    && var m := BuildEntry(t, value, EntryMessage()).value;
       && m.descriptor == EntryMessage()
       && (exists branch :: branch in m.fields && OneBranch(m, EntryMessage(), branch))
       && ReadEntry(Msg(m)) == Some(IntendedEntry(t, value))
  }

  ghost function BuiltEntries(t: Texts, entries: map<string, DataValue>): map<string, ProtoValue>
    requires forall k | k in entries :: EntryOk(t, entries[k])
  {
    map k | k in entries :: Msg(BuildEntry(t, entries[k], EntryMessage()).value)
  }

  lemma EntriesFit(t: Texts, entries: map<string, DataValue>)
    requires forall k | k in entries :: EntryOk(t, entries[k])
    ensures Fits(Entries(BuiltEntries(t, entries)), FieldDescriptor("values", 1, Mapped, TMessage(EntryMessage())))
    ensures Fits(Entries(map[]), FieldDescriptor("values", 1, Mapped, TMessage(EntryMessage())))
  {
    hide EntryMessage, BuildEntry, ReadEntry, IntendedEntry, OneBranch;
  }

  lemma MapWellFormed(t: Texts, value: DataValue)
    requires value.Map? && forall k | k in value.entries :: EntryOk(t, value.entries[k])
    ensures var entries := Entries(BuiltEntries(t, value.entries));
            var v := Msg(Message(NativeType(KMap).descriptor, map["values" := entries]));
            NativeWellFormed(v, KMap)
  {
    hide EntryMessage, BuildEntry, ReadEntry, IntendedEntry, OneBranch, ReadNative;
  }

  lemma MapRead(t: Texts, value: DataValue)
    requires value.Map? && forall k | k in value.entries :: EntryOk(t, value.entries[k])
    ensures var entries := Entries(BuiltEntries(t, value.entries));
            var v := Msg(Message(NativeType(KMap).descriptor, map["values" := entries]));
            ReadNative(v, KMap) == Some(Intended(t, value, KMap))
  {
    hide ReadEntry, IntendedEntry, BuiltEntries, EntryOk, NativeType;
    BuiltRead(t, value.entries);
  }

  lemma BuiltRead(t: Texts, entries: map<string, DataValue>)
    requires forall k | k in entries :: EntryOk(t, entries[k])
    ensures var built := BuiltEntries(t, entries);
            && (forall k | k in built :: ReadEntry(built[k]).Some?)
            && (map k | k in built && ReadEntry(built[k]).Some? :: ReadEntry(built[k]).value)
               == map k | k in entries :: IntendedEntry(t, entries[k])
  {
    hide EntryMessage, BuildEntry, ReadEntry, IntendedEntry, OneBranch;
  }

  /**
   * A field is encoded exactly if its value fits the kind. The message then has one declared branch set, in depth,
   * and reads back as what the value was meant to say: null, unavailable, text fallback and native stay apart.
   */
  lemma WrapperBuilt(t: Texts, value: DataValue, kind: Kind)
    requires !value.Null?
    ensures BuildFieldWrapper(t, value, kind, FieldWrapper(kind)).Ok? <==> Encodable(value, kind)
    ensures BuildFieldWrapper(t, value, kind, FieldWrapper(kind)).Ok? ==>
              var m := BuildFieldWrapper(t, value, kind, FieldWrapper(kind)).value;
              && m.descriptor == FieldWrapper(kind) && WellFormed(m, FieldWrapper(kind), kind)
              && ReadState(m, kind) == Some(Intended(t, value, kind))
  {
    hide FieldNamed, SetField, BuildNative, NativeWellFormed, ReadNative, FieldWrapper, NativeType;
    var d := FieldWrapper(kind);
    WrapperBranches(kind);
    if value.Unavailable? {
      StateSet(d, "unavailable", Str(t.unavailable), kind);
    } else if value.Text? && kind != KString {
      StateSet(d, "text", Str(value.text), kind);
    } else {
      NativeBuilt(t, value, kind, d);
      if Encodable(value, kind) {
        var v := BuildNative(t, value, kind, d).value;
        NativeFits(v, kind);
        StateSet(d, "value", v, kind);
      }
    }
  }

  lemma NativeFits(v: ProtoValue, kind: Kind)
    requires NativeWellFormed(v, kind)
    ensures FitsType(v, NativeType(kind))
  {
  }

  // ---- Canonical values come back ----

  /** The values a column of the kind holds when nothing had to be widened or rendered. */
  predicate Canonical(value: DataValue, kind: Kind)
    decreases kind
  {
    IsMark(value) ||
    match kind
    case KBoolean => value.Boolean?
    case KInt => value.Whole32?
    case KLong => value.Whole64?
    case KUnsigned => value.Unsigned64?
    case KDouble => value.Float64?
    case KBytes => value.Bytes?
    case KString => false
    case KArray(element) => value.Array? && forall i | 0 <= i < |value.items| :: Canonical(value.items[i], element)
    case KMap => value.Map? && forall k | k in value.entries :: IsMark(value.entries[k])
  }

  predicate IsMark(value: DataValue) { value.Null? || value.Unavailable? || value.Text? }

  lemma {:induction false} CanonicalMeaning(t: Texts, a: DataValue, b: DataValue, kind: Kind)
    requires Canonical(a, kind) && Canonical(b, kind) && Intended(t, a, kind) == Intended(t, b, kind)
    ensures a == b
    decreases kind, 0
  {
    if IsMark(a) || IsMark(b) {
      MarksDiffer(t, a, b, kind);
    } else if kind.KArray? {
      CanonicalItems(t, a.items, b.items, kind.element);
    } else if kind.KMap? {
      CanonicalEntries(t, a.entries, b.entries);
    }
  }

  lemma MarksDiffer(t: Texts, a: DataValue, b: DataValue, kind: Kind)
    requires IsMark(a) || IsMark(b)
    requires Canonical(a, kind) && Canonical(b, kind) && Intended(t, a, kind) == Intended(t, b, kind)
    ensures a == b
  {
  }

  lemma {:induction false} CanonicalItems(t: Texts, a: seq<DataValue>, b: seq<DataValue>, element: Kind)
    requires forall i | 0 <= i < |a| :: Canonical(a[i], element)
    requires forall i | 0 <= i < |b| :: Canonical(b[i], element)
    requires IntendedItems(t, a, element) == IntendedItems(t, b, element)
    ensures a == b
    decreases element, 1 + |a|
  {
    hide Canonical, Intended;
    if a != [] && b != [] {
      var x, y := IntendedItems(t, a, element), IntendedItems(t, b, element);
      assert x[0] == y[0] && x[1..] == y[1..];
      CanonicalMeaning(t, a[0], b[0], element);
      CanonicalItems(t, a[1..], b[1..], element);
      assert a == [a[0]] + a[1..] && b == [b[0]] + b[1..];
    }
  }

  lemma CanonicalEntries(t: Texts, a: map<string, DataValue>, b: map<string, DataValue>)
    requires forall k | k in a :: IsMark(a[k])
    requires forall k | k in b :: IsMark(b[k])
    requires (map k | k in a :: IntendedEntry(t, a[k])) == (map k | k in b :: IntendedEntry(t, b[k]))
    ensures a == b
  {
    hide IntendedEntry, IsMark;
    var x, y := map k | k in a :: IntendedEntry(t, a[k]), map k | k in b :: IntendedEntry(t, b[k]);
    assert a.Keys == x.Keys && b.Keys == y.Keys;
    forall k | k in a
      ensures a[k] == b[k]
    {
      assert x[k] == y[k];
      CanonicalEntry(t, a[k], b[k]);
    }
  }

  lemma CanonicalEntry(t: Texts, a: DataValue, b: DataValue)
    requires IsMark(a) && IsMark(b) && IntendedEntry(t, a) == IntendedEntry(t, b)
    ensures a == b
  {
  }

  /** Encoding loses nothing of canonical values: equal messages come from equal values. */
  lemma EncodingIsLossless(t: Texts, a: DataValue, b: DataValue, kind: Kind)
    requires Canonical(a, kind) && Canonical(b, kind) && !a.Null? && !b.Null?
    requires BuildFieldWrapper(t, a, kind, FieldWrapper(kind)).Ok?
    requires BuildFieldWrapper(t, b, kind, FieldWrapper(kind)) == BuildFieldWrapper(t, a, kind, FieldWrapper(kind))
    ensures a == b
  {
    hide BuildFieldWrapper, ReadState, Intended, Canonical, WellFormed;
    WrapperBuilt(t, a, kind);
    WrapperBuilt(t, b, kind);
    CanonicalMeaning(t, a, b, kind);
  }

  // ---- Rows ----

  /** A column with its adjusted name and its field number. */
  datatype Field = Field(source: string, optional: bool, name: string, number: nat, kind: Kind)

  function RowFields(fields: seq<Field>): (r: seq<FieldDescriptor>)
    ensures |r| == |fields|
  {
    seq(|fields|, i requires 0 <= i < |fields| =>
      FieldDescriptor(fields[i].name, fields[i].number, Singular, TMessage(FieldWrapper(fields[i].kind))))
  }

  /** `message Value`: one field per column, typed by the wrapper of its kind. */
  function RowDescriptor(fields: seq<Field>): Descriptor { Descriptor(RowFields(fields)) }

  ghost predicate DistinctNames(fields: seq<Field>) {
    forall i, j | 0 <= i < j < |fields| :: fields[i].name != fields[j].name
  }

  /** The columns of a table whose fields have been adjusted; `kindOf` recognises type names. */
  function Columns(adjusted: seq<N.AdjustedField>, kindOf: string -> Kind): (r: seq<Field>)
    ensures |r| == |adjusted|
  {
    seq(|adjusted|, i requires 0 <= i < |adjusted| =>
      Field(adjusted[i].source.name, adjusted[i].source.optional, adjusted[i].name, adjusted[i].number,
            kindOf(adjusted[i].source.typeName)))
  }

  /** What `adjusted_fields` accepts has distinct names and distinct legal numbers. */
  lemma AcceptedColumns(sha256: string -> N.Digest, fields: seq<N.Field>, kindOf: string -> Kind)
    requires !N.Clashes(sha256, fields)
    ensures var columns := Columns(N.AdjustAll(sha256, fields), kindOf);
            && DistinctNames(columns)
            && (forall i, j | 0 <= i < j < |columns| :: columns[i].number != columns[j].number)
            && |columns| == |fields|
            && forall i | 0 <= i < |columns| ::
                 && 1 <= columns[i].number <= 536_870_911
                 && columns[i].source == fields[i].name && columns[i].optional == fields[i].optional
                 && columns[i].kind == kindOf(fields[i].typeName)
                 && columns[i].name == N.AdjustedName(fields[i].name)
                 && columns[i].number == N.StableFieldNumber(sha256, fields[i].name)
  {
    hide N.AdjustedName, N.StableFieldNumber, N.IsIdentifier;
    N.AdjustedFieldsAreLegal(sha256, fields);
    var adjusted := N.AdjustAll(sha256, fields);
    assert forall i | 0 <= i < |adjusted| ::
        && Columns(adjusted, kindOf)[i].name == adjusted[i].name
        && Columns(adjusted, kindOf)[i].number == adjusted[i].number;
  }

  predicate Absent(row: Row, f: Field) { f.source !in row || row[f.source].Null? }

  predicate RowFits(row: Row, f: Field) { if Absent(row, f) then f.optional else Encodable(row[f.source], f.kind) }

  /** The message says of the column what the row does. */
  ghost predicate Says(t: Texts, row: Row, fields: map<string, ProtoValue>, f: Field) {
    if Absent(row, f) then f.name !in fields
    else
      && f.name in fields && fields[f.name].Msg?
      && WellFormed(fields[f.name].message, FieldWrapper(f.kind), f.kind)
      && ReadState(fields[f.name].message, f.kind) == Some(Intended(t, row[f.source], f.kind))
  }

  /** The row holds canonical values in these columns. */
  predicate CanonicalRow(row: Row, fields: seq<Field>) {
    forall i | 0 <= i < |fields| && !Absent(row, fields[i]) :: Canonical(row[fields[i].source], fields[i].kind)
  }

  /** Rows of canonical values with the same message agree on every column, present or absent. */
  lemma RowIsLossless(t: Texts, row: Row, other: Row, message: map<string, ProtoValue>, fields: seq<Field>, i: nat)
    requires CanonicalRow(row, fields) && CanonicalRow(other, fields) && i < |fields|
    requires forall j | 0 <= j < |fields| :: Says(t, row, message, fields[j]) && Says(t, other, message, fields[j])
    ensures Absent(row, fields[i]) == Absent(other, fields[i])
    ensures !Absent(row, fields[i]) ==> row[fields[i].source] == other[fields[i].source]
  {
    hide Intended, Canonical, WellFormed, ReadState;
    var f := fields[i];
    assert Says(t, row, message, f) && Says(t, other, message, f);
    if !Absent(row, f) {
      CanonicalMeaning(t, row[f.source], other[f.source], f.kind);
    }
  }

  lemma {:induction false} FieldOf(fields: seq<FieldDescriptor>, i: nat)
    requires i < |fields| && forall j, k | 0 <= j < k < |fields| :: fields[j].name != fields[k].name
    ensures FieldNamed(fields, fields[i].name) == Some(fields[i])
  {
    if i > 0 {
      FieldOf(fields[1..], i - 1);
    }
  }

  lemma RowField(fields: seq<Field>, i: nat)
    requires i < |fields| && DistinctNames(fields)
    ensures FieldNamed(RowDescriptor(fields).fields, fields[i].name)
            == Some(FieldDescriptor(fields[i].name, fields[i].number, Singular, TMessage(FieldWrapper(fields[i].kind))))
  {
    hide FieldNamed, FieldWrapper;
    FieldOf(RowFields(fields), i);
  }

  lemma SetWrapper(m: Message, fields: seq<Field>, i: nat, wrapper: Message)
    requires i < |fields| && DistinctNames(fields) && m.descriptor == RowDescriptor(fields)
    requires wrapper.descriptor == FieldWrapper(fields[i].kind)
    ensures MessageField(m.descriptor, fields[i].name) == Ok(FieldWrapper(fields[i].kind))
    ensures SetField(m, fields[i].name, Msg(wrapper)) == Ok(m.(fields := m.fields[fields[i].name := Msg(wrapper)]))
  {
    hide FieldNamed, FieldWrapper;
    RowField(fields, i);
    var f := FieldDescriptor(fields[i].name, fields[i].number, Singular, TMessage(FieldWrapper(fields[i].kind)));
    assert (map k | k in m.fields && !(f.role == State && IsState(m.descriptor, k)) :: m.fields[k]) == m.fields;
  }

  /**
   * A row is encoded exactly if every column fits; null and missing values are left out where that is allowed. The
   * message then says of each column what the row does, and nothing else.
   */
  method BuildRowMessage(t: Texts, row: Row, fields: seq<Field>) returns (result: Result<Message>)
    requires DistinctNames(fields)
    ensures result.Ok? <==> forall i | 0 <= i < |fields| :: RowFits(row, fields[i])
    ensures result.Ok? ==>
              && result.value.descriptor == RowDescriptor(fields)
              && (forall i | 0 <= i < |fields| :: Says(t, row, result.value.fields, fields[i]))
              && forall k | k in result.value.fields :: exists i :: 0 <= i < |fields| && fields[i].name == k
  {
    hide BuildFieldWrapper, WellFormed, ReadState, Intended, Encodable, FieldWrapper, SetField, MessageField, RowFields;
    var message := Message(RowDescriptor(fields), map[]);
    for n := 0 to |fields|
      invariant message.descriptor == RowDescriptor(fields)
      invariant forall i | 0 <= i < n :: RowFits(row, fields[i]) && Says(t, row, message.fields, fields[i])
      invariant forall k | k in message.fields :: exists i :: 0 <= i < n && fields[i].name == k
    {
      var field := fields[n];
      if Absent(row, field) {
        if !field.optional {
          return Err("record has no value for a required field");
        }
        continue;
      }
      var value := row[field.source];
      SetWrapper(message, fields, n, Message(FieldWrapper(field.kind), map[]));
      var descriptor := MessageField(message.descriptor, field.name);
      WrapperBuilt(t, value, field.kind);
      var built := BuildFieldWrapper(t, value, field.kind, descriptor.value);
      if built.Err? {
        return Err("field cannot be encoded");
      }
      SetWrapper(message, fields, n, built.value);
      var extended := SetField(message, field.name, Msg(built.value));
      message := extended.value;
    }
    return Ok(message);
  }
}
