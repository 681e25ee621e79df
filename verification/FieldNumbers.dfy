/** Names and numbers of Protobuf fields (rustium-format-protobuf, lib.rs, `adjusted_fields`). */
module FieldNumbers {
  import opened Octets

  type Digest = d: seq<Byte> | |d| == 32 witness seq(32, _ => 0)

  const MAX_FIELD_NUMBER: nat := 536_870_911
  const RESERVED_START: nat := 19_000
  const RESERVED_END: nat := 19_999

  datatype Field = Field(name: string, typeName: string, optional: bool)

  datatype AdjustedField = AdjustedField(source: Field, name: string, number: nat)

  datatype Collision =
    | SameName(first: string, second: string, name: string)
    | SameNumber(first: string, second: string, number: nat)

  datatype Outcome = Fields(fields: seq<AdjustedField>) | Failed(collision: Collision)

  /** A number below 2^32 from the first four bytes, then moved out of the reserved range. */
  function StableFieldNumber(sha256: string -> Digest, name: string): nat {
    var number := Number(sha256(name)[..4]) % MAX_FIELD_NUMBER + 1;
    if RESERVED_START <= number <= RESERVED_END then number + (RESERVED_END - RESERVED_START + 1) else number
  }

  predicate IsLetter(c: char) { 'a' <= c <= 'z' || 'A' <= c <= 'Z' || c == '_' }

  predicate IsDigit(c: char) { '0' <= c <= '9' }

  /** The proto3 grammar for names, with underscores counted as letters. */
  predicate IsIdentifier(s: string) {
    s != "" && IsLetter(s[0]) && forall i | 1 <= i < |s| :: IsLetter(s[i]) || IsDigit(s[i])
  }

  function AdjustedChar(c: char, first: bool): char {
    if IsLetter(c) || (!first && IsDigit(c)) then c else '_'
  }

  function AdjustedName(raw: string): string {
    if raw == "" then "_" else seq(|raw|, i requires 0 <= i < |raw| => AdjustedChar(raw[i], i == 0))
  }

  /** The adjusted name is legal; a name that already was is kept. */
  lemma AdjustedIsIdentifier(raw: string)
    ensures IsIdentifier(AdjustedName(raw))
    ensures AdjustedName(raw) == raw <==> IsIdentifier(raw)
  {
    if IsIdentifier(raw) {
      assert forall i | 0 <= i < |raw| :: AdjustedName(raw)[i] == raw[i];
    } else if raw != "" {
      var adjusted := AdjustedName(raw);
      if adjusted == raw {
        assert forall i | 0 <= i < |raw| :: raw[i] == AdjustedChar(raw[i], i == 0);
        assert IsLetter(raw[0]);
        assert false;
      }
    }
  }

  method AdjustProtobufName(raw: string) returns (adjusted: string)
    ensures adjusted == AdjustedName(raw)
  {
    adjusted := "";
    for index := 0 to |raw|
      invariant |adjusted| == index
      invariant forall i | 0 <= i < index :: adjusted[i] == AdjustedChar(raw[i], i == 0)
    {
      var character := raw[index];
      var valid := character == '_' || 'a' <= character <= 'z' || 'A' <= character <= 'Z'
                   || (index > 0 && '0' <= character <= '9');
      adjusted := adjusted + [if valid then character else '_'];
    }
    if adjusted == "" {
      adjusted := "_";
    }
  }

  /** Field numbers are legal: section "Assigning Field Numbers" of the proto3 language guide. */
  lemma NumberIsLegal(sha256: string -> Digest, name: string)
    ensures 1 <= StableFieldNumber(sha256, name) <= MAX_FIELD_NUMBER
    ensures !(RESERVED_START <= StableFieldNumber(sha256, name) <= RESERVED_END)
  {
  }

  /** The number before the reserved range is avoided, for the digest of a name. */
  function Residue(d: Digest): nat { Number(d[..4]) % 0x1FFF_FFFF }

  /** Two numbers differ by the width of the reserved range, from inside which the smaller one has been moved. */
  predicate MovedOnto(a: nat, b: nat) { 18_999 <= a <= 19_998 && b == a + 1_000 }

  /** Names share a number exactly if their digests have one residue, or one is moved onto the other. */
  lemma NumbersCollideExactly(sha256: string -> Digest, a: string, b: string)
    ensures var x, y := Residue(sha256(a)), Residue(sha256(b));
            StableFieldNumber(sha256, a) == StableFieldNumber(sha256, b)
            <==> x == y || MovedOnto(x, y) || MovedOnto(y, x)
  {
  }

  /** Every legal number is that of some digest. */
  lemma EveryNumberOccurs(n: nat) returns (d: Digest)
    requires 1 <= n <= 536_870_911 && !(19_000 <= n <= 19_999)
    ensures StableFieldNumber(_ => d, "") == n
  {
    var head := BigEndian(n - 1, 4);
    d := head + seq(28, _ => 0);
    assert d[..4] == head;
    FourBytes();
    NumberOfBigEndian(n - 1, 4);
  }

  lemma FourBytes()
    ensures Power256(4) == 0x1_0000_0000
  {
    assert Power256(2) == 0x1_0000;
  }

  function Adjust(sha256: string -> Digest, field: Field): AdjustedField {
    AdjustedField(field, AdjustedName(field.name), StableFieldNumber(sha256, field.name))
  }

  function AdjustAll(sha256: string -> Digest, fields: seq<Field>): seq<AdjustedField> {
    seq(|fields|, i requires 0 <= i < |fields| => Adjust(sha256, fields[i]))
  }

  predicate Clash(a: AdjustedField, b: AdjustedField) { a.name == b.name || a.number == b.number }

  ghost predicate Clashes(sha256: string -> Digest, fields: seq<Field>) {
    exists i, j :: 0 <= i < j < |fields| && Clash(Adjust(sha256, fields[i]), Adjust(sha256, fields[j]))
  }

  /** The reported collision is that of an earlier with a later field. */
  predicate ReportedAt(sha256: string -> Digest, a: Field, b: Field, c: Collision) {
    && a.name == c.first && b.name == c.second
    && match c
       case SameName(_, _, name) => AdjustedName(a.name) == name == AdjustedName(b.name)
       case SameNumber(_, _, number) => StableFieldNumber(sha256, a.name) == number == StableFieldNumber(sha256, b.name)
  }

  ghost predicate Reported(sha256: string -> Digest, fields: seq<Field>, c: Collision) {
    exists i, j :: 0 <= i < j < |fields| && ReportedAt(sha256, fields[i], fields[j], c)
  }

  /** What the maps of owners hold after the first `n` fields. */
  ghost predicate Owned(
    sha256: string -> Digest, fields: seq<Field>, n: nat, nameOwners: map<string, string>,
    numberOwners: map<nat, string>)
    requires n <= |fields|
  {
    && (forall i | 0 <= i < n ::
          && AdjustedName(fields[i].name) in nameOwners
          && nameOwners[AdjustedName(fields[i].name)] == fields[i].name
          && StableFieldNumber(sha256, fields[i].name) in numberOwners
          && numberOwners[StableFieldNumber(sha256, fields[i].name)] == fields[i].name)
    && (forall s | s in nameOwners :: exists i :: 0 <= i < n && AdjustedName(fields[i].name) == s)
    && (forall k | k in numberOwners :: exists i :: 0 <= i < n && StableFieldNumber(sha256, fields[i].name) == k)
  }

  lemma NameFound(
      sha256: string -> Digest, fields: seq<Field>, n: nat, names: map<string, string>, numbers: map<nat, string>)
    requires n < |fields| && Owned(sha256, fields, n, names, numbers) && AdjustedName(fields[n].name) in names
    ensures var name := AdjustedName(fields[n].name);
            Clashes(sha256, fields) && Reported(sha256, fields, SameName(names[name], fields[n].name, name))
  {
    hide AdjustedName, StableFieldNumber;
    var i :| 0 <= i < n && AdjustedName(fields[i].name) == AdjustedName(fields[n].name);
    hide Owned;
    assert ReportedAt(sha256, fields[i], fields[n],
                      SameName(names[AdjustedName(fields[n].name)], fields[n].name, AdjustedName(fields[n].name)));
    assert Clash(Adjust(sha256, fields[i]), Adjust(sha256, fields[n]));
  }

  lemma NumberFound(
      sha256: string -> Digest, fields: seq<Field>, n: nat, names: map<string, string>, numbers: map<nat, string>)
    requires n < |fields| && Owned(sha256, fields, n, names, numbers)
    requires StableFieldNumber(sha256, fields[n].name) in numbers
    ensures var number := StableFieldNumber(sha256, fields[n].name);
            Clashes(sha256, fields) && Reported(sha256, fields, SameNumber(numbers[number], fields[n].name, number))
  {
    hide AdjustedName, StableFieldNumber;
    var number := StableFieldNumber(sha256, fields[n].name);
    var i :| 0 <= i < n && StableFieldNumber(sha256, fields[i].name) == number;
    hide Owned;
    assert ReportedAt(sha256, fields[i], fields[n], SameNumber(numbers[number], fields[n].name, number));
    assert Clash(Adjust(sha256, fields[i]), Adjust(sha256, fields[n]));
  }

  lemma OwnedSnoc(
      sha256: string -> Digest, fields: seq<Field>, n: nat, names: map<string, string>, numbers: map<nat, string>)
    requires n < |fields| && Owned(sha256, fields, n, names, numbers)
    requires AdjustedName(fields[n].name) !in names && StableFieldNumber(sha256, fields[n].name) !in numbers
    ensures var f := fields[n].name;
            Owned(sha256, fields, n + 1, names[AdjustedName(f) := f], numbers[StableFieldNumber(sha256, f) := f])
    ensures forall i | 0 <= i < n :: !Clash(Adjust(sha256, fields[i]), Adjust(sha256, fields[n]))
  {
    hide AdjustedName, StableFieldNumber;
  }

  /** Fails exactly if two adjusted names or two numbers are the same, and then reports such a pair. */
  method AdjustedFields(sha256: string -> Digest, fields: seq<Field>) returns (outcome: Outcome)
    ensures outcome.Failed? <==> Clashes(sha256, fields)
    ensures outcome.Failed? ==> Reported(sha256, fields, outcome.collision)
    ensures outcome.Fields? ==> outcome.fields == AdjustAll(sha256, fields)
  {
    hide AdjustedName, StableFieldNumber, Owned, Reported, Clash;
    var nameOwners: map<string, string>, numberOwners: map<nat, string> := map[], map[];
    var adjusted: seq<AdjustedField> := [];
    NothingOwned(sha256, fields);
    for n := 0 to |fields|
      invariant |adjusted| == n && forall i | 0 <= i < n :: adjusted[i] == Adjust(sha256, fields[i])
      invariant Owned(sha256, fields, n, nameOwners, numberOwners)
      invariant forall i, j | 0 <= i < j < n :: !Clash(Adjust(sha256, fields[i]), Adjust(sha256, fields[j]))
    {
      var field := fields[n];
      var name := AdjustProtobufName(field.name);
      if name in nameOwners {
        NameFound(sha256, fields, n, nameOwners, numberOwners);
        return Failed(SameName(nameOwners[name], field.name, name));
      }
      var number := StableFieldNumber(sha256, field.name);
      if number in numberOwners {
        NumberFound(sha256, fields, n, nameOwners, numberOwners);
        return Failed(SameNumber(numberOwners[number], field.name, number));
      }
      OwnedSnoc(sha256, fields, n, nameOwners, numberOwners);
      nameOwners := nameOwners[name := field.name];
      numberOwners := numberOwners[number := field.name];
      adjusted := adjusted + [AdjustedField(field, name, number)];
    }
    return Fields(adjusted);
  }

  lemma NothingOwned(sha256: string -> Digest, fields: seq<Field>)
    ensures Owned(sha256, fields, 0, map[], map[])
  {
  }

  /** Without a clash names are distinct identifiers and numbers are distinct and legal. */
  lemma AdjustedFieldsAreLegal(sha256: string -> Digest, fields: seq<Field>)
    requires !Clashes(sha256, fields)
    ensures var adjusted := AdjustAll(sha256, fields);
            && (forall i, j | 0 <= i < j < |adjusted| ::
                  adjusted[i].name != adjusted[j].name && adjusted[i].number != adjusted[j].number)
            && forall i | 0 <= i < |adjusted| ::
                 && IsIdentifier(adjusted[i].name)
                 && 1 <= adjusted[i].number <= 536_870_911
                 && !(19_000 <= adjusted[i].number <= 19_999)
  {
    hide AdjustedName, StableFieldNumber, IsIdentifier;
    var adjusted := AdjustAll(sha256, fields);
    forall i, j | 0 <= i < j < |adjusted|
      ensures adjusted[i].name != adjusted[j].name && adjusted[i].number != adjusted[j].number
    {
      assert !Clash(Adjust(sha256, fields[i]), Adjust(sha256, fields[j]));
    }
    forall i | 0 <= i < |adjusted|
      ensures IsIdentifier(adjusted[i].name)
      ensures 1 <= adjusted[i].number <= MAX_FIELD_NUMBER && !(RESERVED_START <= adjusted[i].number <= RESERVED_END)
    {
      AdjustedIsIdentifier(fields[i].name);
      NumberIsLegal(sha256, fields[i].name);
    }
  }

  /** `at` tells where each field of the old schema is in the new one. */
  ghost predicate Embeds(old_: seq<Field>, new_: seq<Field>, at: seq<nat>) {
    && |at| == |old_|
    && (forall i | 0 <= i < |at| :: at[i] < |new_| && new_[at[i]].name == old_[i].name)
    && forall i, j | 0 <= i < j < |at| :: at[i] != at[j]
  }

  /**
   * Evolution: however fields are reordered or added, and whatever else of them changes, those with an unchanged
   * name keep their number and adjusted name. Dropping or reordering fields never brings a clash about.
   */
  lemma NumbersAreStable(sha256: string -> Digest, before: seq<Field>, after: seq<Field>, at: seq<nat>)
    requires Embeds(before, after, at)
    ensures forall i | 0 <= i < |before| ::
              && AdjustAll(sha256, after)[at[i]].number == AdjustAll(sha256, before)[i].number
              && AdjustAll(sha256, after)[at[i]].name == AdjustAll(sha256, before)[i].name
    ensures Clashes(sha256, before) ==> Clashes(sha256, after)
  {
    hide AdjustedName, StableFieldNumber;
    if Clashes(sha256, before) {
      var i, j :| 0 <= i < j < |before| && Clash(Adjust(sha256, before[i]), Adjust(sha256, before[j]));
      var p, q := if at[i] < at[j] then at[i] else at[j], if at[i] < at[j] then at[j] else at[i];
      assert p < q && Clash(Adjust(sha256, after[p]), Adjust(sha256, after[q]));
    }
  }
}
