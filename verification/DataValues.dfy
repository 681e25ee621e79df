/** Column values shared by the encoders (rustium-core, event.rs, `DataValue`). */
module DataValues {
  import opened Positions
  import opened Octets
  import D = Decimals

  type Int32 = n: int | -0x8000_0000 <= n < 0x8000_0000
  type Int64 = n: int | -0x8000_0000_0000_0000 <= n < 0x8000_0000_0000_0000
  type UInt64 = n: nat | n < 0x1_0000_0000_0000_0000

  /** A 64-bit float, by its bits. */
  type Double = UInt64

  datatype DataValue =
    | Null
    | Boolean(flag: bool)
    | Whole32(int32: Int32)
    | Whole64(int64: Int64)
    | Unsigned64(uint64: UInt64)
    | Float64(double: Double)
    | Decimal(text: string)
    | Text(text: string)
    | Bytes(bytes: seq<Byte>)
    | Date(text: string)
    | Time(text: string)
    | Timestamp(text: string)
    | Uuid(text: string)
    | Document(json: Json)
    | Array(items: seq<DataValue>)
    | Map(entries: map<string, DataValue>)
    | Unavailable

  /** Renderings of floats and documents by libraries, and the placeholder for unavailable values. */
  datatype Texts = Texts(
    ofDouble: Double -> string, ofJson: DataValue -> string, toDouble: int -> Double, unavailable: string)

  /** Decimal notation with a sign for negative numbers. */
  function IntText(n: int): string { if n < 0 then "-" + D.Decimal(-n) else D.Decimal(n) }

  function HexDigit(d: nat): char
    requires d < 16
  {
    "0123456789abcdef"[d]
  }

  /** Two lower-case hexadecimal digits for each byte. */
  function HexText(bytes: seq<Byte>): string {
    if bytes == [] then "" else HexText(bytes[..|bytes| - 1]) + ByteText(bytes[|bytes| - 1])
  }

  function ByteText(b: Byte): string { [HexDigit(b / 16), HexDigit(b % 16)] }

  function ValueAsString(t: Texts, value: DataValue): string {
    match value
    case Null => "null"
    case Boolean(flag) => if flag then "true" else "false"
    case Whole32(n) => IntText(n)
    case Whole64(n) => IntText(n)
    case Unsigned64(n) => IntText(n)
    case Float64(d) => (t.ofDouble)(d)
    case Decimal(s) => s
    case Text(s) => s
    case Date(s) => s
    case Time(s) => s
    case Timestamp(s) => s
    case Bytes(b) => HexText(b)
    case Uuid(s) => s
    case Document(_) => (t.ofJson)(value)
    case Array(_) => (t.ofJson)(value)
    case Map(_) => (t.ofJson)(value)
    case Unavailable => t.unavailable
  }

  // ---- Texts are read back ----

  /** The number that a text denotes. */
  ghost predicate Denotes(text: string, n: int) {
    if n < 0 then text != "" && text[0] == '-' && D.Digits(text[1..]) && text[1..] != "" && D.Numeric(text[1..]) == -n
    else D.Digits(text) && text != "" && D.Numeric(text) == n
  }

  /** The value of a hexadecimal digit. */
  function HexValue(c: char): int {
    if '0' <= c <= '9' then c as int - '0' as int else if 'a' <= c <= 'f' then c as int - 'a' as int + 10 else -1
  }

  /** The text lists the bytes by two digits each. */
  ghost predicate Spells(text: string, bytes: seq<Byte>) {
    && |text| == 2 * |bytes|
    && forall i | 0 <= i < |bytes| ::
         && 0 <= HexValue(text[2 * i]) && 0 <= HexValue(text[2 * i + 1])
         && 16 * HexValue(text[2 * i]) + HexValue(text[2 * i + 1]) == bytes[i]
  }

  lemma IntTextDenotes(n: int)
    ensures Denotes(IntText(n), n)
  {
    var m: nat := if n < 0 then -n else n;
    D.DecimalShape(m);
    D.DecimalIsReadBack(m);
    assert n < 0 ==> IntText(n)[1..] == D.Decimal(m);
  }

  lemma {:induction false} HexTextSpells(bytes: seq<Byte>)
    ensures Spells(HexText(bytes), bytes)
  {
    if bytes != [] {
      var front, b := bytes[..|bytes| - 1], bytes[|bytes| - 1];
      HexTextSpells(front);
      ByteDigits(b);
      var text := HexText(bytes);
      assert text == HexText(front) + ByteText(b);
      forall i | 0 <= i < |bytes|
        ensures 0 <= HexValue(text[2 * i]) && 0 <= HexValue(text[2 * i + 1])
        ensures 16 * HexValue(text[2 * i]) + HexValue(text[2 * i + 1]) == bytes[i]
      {
        if i < |front| {
          assert text[2 * i] == HexText(front)[2 * i] && text[2 * i + 1] == HexText(front)[2 * i + 1];
        }
      }
    }
  }

  lemma ByteDigits(b: Byte)
    ensures HexValue(ByteText(b)[0]) == b / 16 && HexValue(ByteText(b)[1]) == b % 16
  {
    HexDigitValue(b / 16);
    HexDigitValue(b % 16);
  }

  lemma HexDigitValue(d: nat)
    requires d < 16
    ensures HexValue(HexDigit(d)) == d
  {
  }

  /** What the text of a value tells: the text itself, the number denoted, the bytes spelled, or the constant. */
  ghost predicate Tells(t: Texts, text: string, value: DataValue) {
    match value
    case Null => text == "null"
    case Boolean(flag) => (flag ==> text == "true") && (!flag ==> text == "false")
    case Whole32(n) => Denotes(text, n)
    case Whole64(n) => Denotes(text, n)
    case Unsigned64(n) => Denotes(text, n)
    case Bytes(b) => Spells(text, b)
    case Float64(d) => text == (t.ofDouble)(d)
    case Unavailable => text == t.unavailable
    case Document(_) => text == (t.ofJson)(value)
    case Array(_) => text == (t.ofJson)(value)
    case Map(_) => text == (t.ofJson)(value)
    case Decimal(s) => text == s
    case Text(s) => text == s
    case Date(s) => text == s
    case Time(s) => text == s
    case Timestamp(s) => text == s
    case Uuid(s) => text == s
  }

  /** The text of a value tells it. */
  lemma TextTells(t: Texts, value: DataValue)
    ensures Tells(t, ValueAsString(t, value), value)
  {
    hide IntText, HexText, Denotes, Spells;
    match value
    case Whole32(n) => IntTextDenotes(n);
    case Whole64(n) => IntTextDenotes(n);
    case Unsigned64(n) => IntTextDenotes(n);
    case Bytes(b) => HexTextSpells(b);
    case _ =>
  }

  /** A column of a table: its name, whether it may be null, and the adjusted name of its field. */
  datatype Column<Kind> = Column(source: string, optional: bool, name: string, kind: Kind)

  type Row = map<string, DataValue>
}
