/**
 * Java serialization of strings for hashing (rustium-column-transform, lib.rs). Shifts and masks are written as
 * division and remainder, and an OR of disjoint bits as a sum.
 */
module JavaStrings {
  import opened Prelude
  import opened Octets

  /** A UTF-16 code unit. */
  type Unit = n: nat | n < 0x10000

  const MAGIC: seq<Byte> := [0xac, 0xed, 0x00, 0x05]
  const SHORT: Byte := 0x74
  const LONG: Byte := 0x7c

  // ---- What is written ----

  /** Modified UTF-8 of one code unit: section 4.4.7 of the Java Virtual Machine Specification. */
  function UnitBytes(u: Unit): seq<Byte> {
    if u == 0 then [0xc0, 0x80]
    else if u <= 0x7f then [u]
    else if u <= 0x7ff then [0xc0 + u / 0x40, 0x80 + u % 0x40]
    else [0xe0 + u / 0x1000, 0x80 + u / 0x40 % 0x40, 0x80 + u % 0x40]
  }

  function ModifiedUtf8(units: seq<Unit>): seq<Byte> {
    if units == [] then [] else ModifiedUtf8(units[..|units| - 1]) + UnitBytes(units[|units| - 1])
  }

  function Serialized(units: seq<Unit>): seq<Byte> {
    var body := ModifiedUtf8(units);
    MAGIC + (if |body| <= 0xffff then [SHORT] + BigEndian(|body|, 2) else [LONG] + BigEndian(|body|, 8)) + body
  }

  method JavaSerializedString(value: seq<Unit>) returns (serialized: seq<Byte>)
    ensures serialized == Serialized(value)
  {
    hide ModifiedUtf8, BigEndian;
    var modified := EncodeUnits(value);
    serialized := MAGIC;
    if |modified| <= 0xffff {
      serialized := serialized + [SHORT];
      serialized := serialized + BigEndian(|modified|, 2);
    } else {
      serialized := serialized + [LONG];
      serialized := serialized + BigEndian(|modified|, 8);
    }
    serialized := serialized + modified;
  }

  lemma ModifiedSnoc(value: seq<Unit>, i: nat)
    requires i <= |value|
    ensures i == 0 ==> ModifiedUtf8(value[..i]) == []
    ensures i < |value| ==> ModifiedUtf8(value[..i + 1]) == ModifiedUtf8(value[..i]) + UnitBytes(value[i])
  {
    hide UnitBytes;
    if i < |value| {
      assert value[..i + 1][..i] == value[..i];
    }
  }

  /** The loop over the code units. */
  method EncodeUnits(value: seq<Unit>) returns (modified: seq<Byte>)
    ensures modified == ModifiedUtf8(value)
  {
    hide ModifiedUtf8;
    modified := [];
    ModifiedSnoc(value, 0);
    for i := 0 to |value|
      invariant modified == ModifiedUtf8(value[..i])
    {
      ghost var before := modified;
      var codeUnit := value[i];
      ModifiedSnoc(value, i);
      if codeUnit == 0 {
        modified := modified + [0xc0, 0x80];
      } else if codeUnit <= 0x7f {
        modified := modified + [codeUnit];
      } else if codeUnit <= 0x7ff {
        modified := modified + [0xc0 + codeUnit / 0x40];
        modified := modified + [0x80 + codeUnit % 0x40];
      } else {
        modified := modified + [0xe0 + codeUnit / 0x1000];
        modified := modified + [0x80 + codeUnit / 0x40 % 0x40];
        modified := modified + [0x80 + codeUnit % 0x40];
      }
      assert modified == before + UnitBytes(codeUnit);
    }
    assert value[..|value|] == value;
  }

  // ---- An independent reader ----

  predicate Continuation(b: Byte) { 0x80 <= b <= 0xbf }

  /** The six low bits of a continuation byte. */
  function Low(b: Byte): nat
    requires Continuation(b)
  {
    b - 0x80
  }

  /** The first code unit and how many bytes it takes, by the leading bits. */
  function FirstUnit(bytes: seq<Byte>): (r: Option<(Unit, nat)>)
    requires bytes != []
    ensures r.Some? ==> 0 < r.value.1 <= |bytes|
  {
    var x: int := bytes[0];
    if 0 < x <= 0x7f then Some((x, 1))
    else if 0xc0 <= x <= 0xdf && |bytes| >= 2 && Continuation(bytes[1])
    then Some(((x - 0xc0) * 0x40 + Low(bytes[1]), 2))
    else if 0xe0 <= x <= 0xef && |bytes| >= 3 && Continuation(bytes[1]) && Continuation(bytes[2])
    then Some(((x - 0xe0) * 0x1000 + Low(bytes[1]) * 0x40 + Low(bytes[2]), 3))
    else None
  }

  function ReadUnits(bytes: seq<Byte>): Option<seq<Unit>>
    decreases |bytes|
  {
    if bytes == [] then Some([])
    else
      match FirstUnit(bytes)
      case None => None
      case Some((u, n)) =>
        match ReadUnits(bytes[n..])
        case None => None
        case Some(rest) => Some([u] + rest)
  }

  /** Reads `length` bytes of string data and returns what follows them. */
  function ReadBody(bytes: seq<Byte>, length: nat): Option<(seq<Unit>, seq<Byte>)> {
    if |bytes| < length then None
    else
      match ReadUnits(bytes[..length])
      case None => None
      case Some(units) => Some((units, bytes[length..]))
  }

  /** Reads one string from a stream: section 6.4 of the Java Object Serialization Specification. */
  function ReadString(bytes: seq<Byte>): Option<(seq<Unit>, seq<Byte>)> {
    if |bytes| < 5 || bytes[..4] != [0xac, 0xed, 0x00, 0x05] then None
    else if bytes[4] == 0x74 && |bytes| >= 7 then ReadBody(bytes[7..], Number(bytes[5..7]))
    else if bytes[4] == 0x7c && |bytes| >= 13 then ReadBody(bytes[13..], Number(bytes[5..13]))
    else None
  }

  // ---- What is written can be read ----

  lemma FirstUnitOfBytes(u: Unit, rest: seq<Byte>)
    ensures UnitBytes(u) != [] && FirstUnit(UnitBytes(u) + rest) == Some((u, |UnitBytes(u)|))
  {
    var bytes := UnitBytes(u) + rest;
    assert bytes[..|UnitBytes(u)|] == UnitBytes(u);
    if u > 0x7ff {
      assert u / 0x40 == u / 0x1000 * 0x40 + u / 0x40 % 0x40 by {
        assert u / 0x1000 == u / 0x40 / 0x40;
      }
    }
  }

  lemma {:induction false} ModifiedConcat(a: seq<Unit>, b: seq<Unit>)
    ensures ModifiedUtf8(a + b) == ModifiedUtf8(a) + ModifiedUtf8(b)
  {
    hide UnitBytes;
    if b == [] {
      assert a + b == a;
    } else {
      assert (a + b)[..|a + b| - 1] == a + b[..|b| - 1];
      ModifiedConcat(a, b[..|b| - 1]);
    }
  }

  lemma ModifiedOne(u: Unit)
    ensures ModifiedUtf8([u]) == UnitBytes(u)
  {
    hide UnitBytes;
    assert [u][..0] == [];
    assert [] + UnitBytes(u) == UnitBytes(u);
  }

  lemma ModifiedFirst(units: seq<Unit>)
    requires units != []
    ensures ModifiedUtf8(units) == UnitBytes(units[0]) + ModifiedUtf8(units[1..])
  {
    hide ModifiedUtf8, UnitBytes;
    assert units == [units[0]] + units[1..];
    ModifiedConcat([units[0]], units[1..]);
    ModifiedOne(units[0]);
  }

  /** Modified UTF-8 is uniquely decodable. */
  lemma {:induction false} ReadModified(units: seq<Unit>)
    ensures ReadUnits(ModifiedUtf8(units)) == Some(units)
  {
    if units != [] {
      var rest := ModifiedUtf8(units[1..]);
      ModifiedFirst(units);
      FirstUnitOfBytes(units[0], rest);
      ReadModified(units[1..]);
      assert (UnitBytes(units[0]) + rest)[|UnitBytes(units[0])|..] == rest;
      assert [units[0]] + units[1..] == units;
    }
  }

  /** No byte of the body is zero, and a code unit takes one to three bytes. */
  lemma {:induction false} BodyShape(units: seq<Unit>)
    ensures 0 !in ModifiedUtf8(units)
    ensures |units| <= |ModifiedUtf8(units)| <= 3 * |units|
  {
    if units != [] {
      BodyShape(units[..|units| - 1]);
    }
  }

  lemma ReadBodyOf(units: seq<Unit>, rest: seq<Byte>)
    ensures ReadBody(ModifiedUtf8(units) + rest, |ModifiedUtf8(units)|) == Some((units, rest))
  {
    var body := ModifiedUtf8(units);
    ReadModified(units);
    assert (body + rest)[..|body|] == body && (body + rest)[|body|..] == rest;
  }

  /**
   * A serialized string is read back whatever follows it in the stream, and nothing of what follows is consumed.
   * The bound is that of a 64-bit length.
   */
  lemma SerializedIsReadBack(units: seq<Unit>, rest: seq<Byte>)
    requires |ModifiedUtf8(units)| < Power256(8)
    ensures ReadString(Serialized(units) + rest) == Some((units, rest))
  {
    hide ReadBody, ModifiedUtf8, Power256, Number, BigEndian;
    var body := ModifiedUtf8(units);
    var bytes := Serialized(units) + rest;
    ReadBodyOf(units, rest);
    assert bytes[..4] == MAGIC;
    if |body| <= 0xffff {
      PowerOfTwo();
      NumberOfBigEndian(|body|, 2);
      assert bytes[5..7] == BigEndian(|body|, 2) && bytes[7..] == body + rest;
    } else {
      NumberOfBigEndian(|body|, 8);
      assert bytes[5..13] == BigEndian(|body|, 8) && bytes[13..] == body + rest;
    }
  }

  lemma PowerOfTwo()
    ensures Power256(2) == 0x10000
  {
  }

  /** Different strings have serializations of which neither begins the other. */
  lemma {:induction false} SerializationIsPrefixFree(a: seq<Unit>, b: seq<Unit>)
    requires |ModifiedUtf8(a)| < Power256(8) && |ModifiedUtf8(b)| < Power256(8)
    requires Serialized(a) <= Serialized(b)
    ensures a == b
  {
    hide Power256, ModifiedUtf8, ReadString, Serialized;
    var rest := Serialized(b)[|Serialized(a)|..];
    SerializedIsReadBack(a, rest);
    SerializedIsReadBack(b, []);
    assert Serialized(a) + rest == Serialized(b) == Serialized(b) + [];
  }

  /** The two-byte length is used exactly when the body fits it; the whole is never more than 13 bytes longer. */
  lemma FormAndSize(units: seq<Unit>)
    ensures Serialized(units)[4] == SHORT <==> |ModifiedUtf8(units)| <= 0xffff
    ensures Serialized(units)[4] == SHORT || Serialized(units)[4] == LONG
    ensures |Serialized(units)| == |ModifiedUtf8(units)| + if |ModifiedUtf8(units)| <= 0xffff then 7 else 13
    ensures |units| > 0xffff ==> Serialized(units)[4] == LONG
    ensures 3 * |units| <= 0xffff ==> Serialized(units)[4] == SHORT
  {
    BodyShape(units);
  }
}
