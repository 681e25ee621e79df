/** White space as the `char` and `str` types of the source understand it. */
module Whitespace {

  /** The characters with the Unicode property White_Space. */
  predicate IsSpace(c: char) {
    || '\t' <= c <= '\r' || c == ' ' || c == '\U{85}' || c == '\U{A0}' || c == '\U{1680}'
    || '\U{2000}' <= c <= '\U{200A}' || c == '\U{2028}' || c == '\U{2029}' || c == '\U{202F}' || c == '\U{205F}'
    || c == '\U{3000}'
  }

  function TrimStart(s: string): string {
    if s != "" && IsSpace(s[0]) then TrimStart(s[1..]) else s
  }

  function TrimEnd(s: string): string {
    if s != "" && IsSpace(s[|s| - 1]) then TrimEnd(s[..|s| - 1]) else s
  }

  function Trim(s: string): string { TrimEnd(TrimStart(s)) }

  /** Nothing to trim. */
  predicate Trimmed(s: string) { s == "" || (!IsSpace(s[0]) && !IsSpace(s[|s| - 1])) }

  lemma {:induction false} TrimStartShape(s: string)
    ensures |TrimStart(s)| <= |s| && TrimStart(s) == s[|s| - |TrimStart(s)|..]
    ensures TrimStart(s) != "" ==> !IsSpace(TrimStart(s)[0])
  {
    if s != "" && IsSpace(s[0]) {
      TrimStartShape(s[1..]);
    }
  }

  lemma {:induction false} TrimEndShape(s: string)
    ensures |TrimEnd(s)| <= |s| && TrimEnd(s) == s[..|TrimEnd(s)|]
    ensures TrimEnd(s) != "" ==> !IsSpace(TrimEnd(s)[|TrimEnd(s)| - 1])
    ensures forall i | |TrimEnd(s)| <= i < |s| :: IsSpace(s[i])
  {
    if s != "" && IsSpace(s[|s| - 1]) {
      TrimEndShape(s[..|s| - 1]);
    }
  }

  /** Trimming shortens exactly the texts that are not trimmed, and leaves a trimmed text. */
  lemma TrimShape(s: string)
    ensures Trimmed(Trim(s)) && |Trim(s)| <= |s|
    ensures Trim(s) == s <==> Trimmed(s)
    ensures |Trim(s)| == |s| ==> Trim(s) == s
  {
    TrimStartShape(s);
    TrimEndShape(TrimStart(s));
  }

  /** Twenty-five characters are white space. */
  lemma SpacesListed(c: char)
    ensures IsSpace(c) <==>
            || c in "\U{09}\U{0A}\U{0B}\U{0C}\U{0D}\U{20}\U{85}\U{A0}\U{1680}\U{2000}\U{2001}"
            || c in "\U{2002}\U{2003}\U{2004}\U{2005}"
            || c in "\U{2006}\U{2007}\U{2008}\U{2009}\U{200A}\U{2028}\U{2029}\U{202F}\U{205F}\U{3000}"
  {
  }

  predicate Blank(s: string) { forall i | 0 <= i < |s| :: IsSpace(s[i]) }

  lemma {:induction false} TrimStartPadded(pad: string, s: string)
    requires Blank(pad)
    ensures TrimStart(pad + s) == TrimStart(s)
  {
    if pad == "" {
      assert pad + s == s;
    } else {
      assert (pad + s)[1..] == pad[1..] + s;
      TrimStartPadded(pad[1..], s);
    }
  }

  lemma {:induction false} TrimEndPadded(s: string, pad: string)
    requires Blank(pad)
    ensures TrimEnd(s + pad) == TrimEnd(s)
  {
    if pad == "" {
      assert s + pad == s;
    } else {
      assert (s + pad)[..|s + pad| - 1] == s + pad[..|pad| - 1];
      TrimEndPadded(s, pad[..|pad| - 1]);
    }
  }

  /** White space around a trimmed text is taken off, and nothing else. */
  lemma TrimPadded(before: string, s: string, after: string)
    requires Blank(before) && Blank(after) && Trimmed(s)
    ensures Trim(before + s + after) == s
  {
    assert before + s + after == before + (s + after);
    TrimStartPadded(before, s + after);
    if s == "" {
      assert s + after == after + "";
      TrimStartPadded(after, "");
    } else {
      TrimEndPadded(s, after);
    }
  }

  /** A text that starts with a visible character keeps everything up to any visible character. */
  lemma TrimKeeps(s: string, k: nat)
    requires k < |s| && !IsSpace(s[0]) && !IsSpace(s[k])
    ensures |Trim(s)| > k
  {
    TrimEndShape(s);
  }
}

/** List-valued configuration properties (rustium-config, debezium.rs): the readers and the texts they invert. */
module TextLists {
  import opened Prelude
  import opened Whitespace

  /** What the readers keep of the raw pieces: the trimmed ones that are not blank. */
  function Kept(raw: seq<string>): seq<string> {
    if raw == [] then []
    else
      var t := Trim(raw[0]);
      if t == "" then Kept(raw[1..]) else [t] + Kept(raw[1..])
  }

  predicate Item(s: string) { s != "" && Trimmed(s) }

  lemma {:induction false} KeptItems(raw: seq<string>)
    ensures forall i | 0 <= i < |Kept(raw)| :: Item(Kept(raw)[i])
  {
    if raw != [] {
      KeptItems(raw[1..]);
      TrimShape(raw[0]);
    }
  }

  lemma {:induction false} ItemsAreKept(raw: seq<string>)
    requires forall i | 0 <= i < |raw| :: Item(raw[i])
    ensures Kept(raw) == raw
  {
    if raw != [] {
      ItemsAreKept(raw[1..]);
      TrimShape(raw[0]);
    }
  }

  // ---- Comma-separated values ----

  function Slash(escaped: bool): string { if escaped then "\\" else "" }

  /** The raw fields: a comma separates unless a backslash escapes it. */
  function Fields(s: string, current: string, escaped: bool): seq<string> {
    if s == "" then [current + Slash(escaped)]
    else if escaped then Fields(s[1..], current + ['\\', s[0]], false)
    else if s[0] == '\\' then Fields(s[1..], current, true)
    else if s[0] == ',' then [current] + Fields(s[1..], "", false)
    else Fields(s[1..], current + [s[0]], false)
  }

  function SplitCsv(value: string): seq<string> { Kept(Fields(value, "", false)) }

  method ReadCsv(value: string) returns (values: seq<string>)
    ensures values == SplitCsv(value)
  {
    hide Trim;
    values := [];
    var current, escaped := "", false;
    for i := 0 to |value|
      invariant SplitCsv(value) == values + Kept(Fields(value[i..], current, escaped))
    {
      var character := value[i];
      assert value[i..][1..] == value[i + 1..];
      if escaped {
        current := current + ['\\', character];
        escaped := false;
      } else if character == '\\' {
        escaped := true;
      } else if character == ',' {
        ghost var rest := Fields(value[i + 1..], "", false);
        assert ([current] + rest)[1..] == rest;
        if Trim(current) != "" {
          values := values + [Trim(current)];
        }
        current := "";
      } else {
        current := current + [character];
      }
    }
    current := current + Slash(escaped);
    assert Kept([current]) == if Trim(current) == "" then [] else [Trim(current)];
    if Trim(current) != "" {
      values := values + [Trim(current)];
    }
  }

  /** Items between commas. */
  function Joined(items: seq<string>): string {
    if items == [] then "" else if |items| == 1 then items[0] else items[0] + "," + Joined(items[1..])
  }

  /** Whether an escape is open at the end; nothing when a comma is not escaped. */
  function Scan(s: string, escaped: bool): Option<bool> {
    if s == "" then Some(escaped)
    else if escaped then Scan(s[1..], false)
    else if s[0] == ',' then None
    else Scan(s[1..], s[0] == '\\')
  }

  /** Every comma is escaped, and no escape is open at the end of a field that another one follows. */
  ghost predicate Separable(items: seq<string>) {
    forall i | 0 <= i < |items| ::
      Scan(items[i], false).Some? && (i < |items| - 1 ==> Scan(items[i], false) == Some(false))
  }

  /** Reading a field whose commas are escaped collects its text. */
  lemma {:induction false} FieldRead(t: string, rest: string, current: string, escaped: bool)
    requires Scan(t, escaped).Some?
    ensures var open, all := Scan(t, escaped).value, current + Slash(escaped) + t;
            && (open ==> all != "" && all[|all| - 1] == '\\')
            && Fields(t + rest, current, escaped) == Fields(rest, if open then all[..|all| - 1] else all, open)
  {
    if t == "" {
      assert t + rest == rest;
      assert current + Slash(escaped) + t == current + Slash(escaped);
      assert escaped ==> (current + "\\")[..|current|] == current;
      assert current + "" == current;
    } else {
      assert (t + rest)[1..] == t[1..] + rest;
      if escaped {
        FieldRead(t[1..], rest, current + ['\\', t[0]], false);
        assert current + ['\\', t[0]] + Slash(false) + t[1..] == current + Slash(true) + t;
      } else if t[0] == '\\' {
        FieldRead(t[1..], rest, current, true);
        assert current + Slash(true) + t[1..] == current + Slash(false) + t;
      } else {
        FieldRead(t[1..], rest, current + [t[0]], false);
        assert current + [t[0]] + Slash(false) + t[1..] == current + Slash(false) + t;
      }
    }
  }

  lemma {:induction false} FieldsOfJoined(items: seq<string>)
    requires items != [] && Separable(items)
    ensures Fields(Joined(items), "", false) == items
  {
    var t := items[0];
    assert "" + Slash(false) + t == t;
    if |items| == 1 {
      FieldRead(t, "", "", false);
      assert t + "" == t;
      if Scan(t, false).value {
        assert t[..|t| - 1] + Slash(true) == t;
      } else {
        assert t + Slash(false) == t;
      }
    } else {
      var rest := "," + Joined(items[1..]);
      assert t + "," + Joined(items[1..]) == t + rest;
      FieldRead(t, rest, "", false);
      assert rest[1..] == Joined(items[1..]);
      FieldsOfJoined(items[1..]);
    }
  }

  /** The fields joined again are the text read. */
  lemma {:induction false} JoinedFields(s: string, current: string, escaped: bool)
    ensures Fields(s, current, escaped) != []
    ensures Joined(Fields(s, current, escaped)) == current + Slash(escaped) + s
  {
    if s == "" {
      assert current + Slash(escaped) + s == current + Slash(escaped);
    } else if escaped {
      JoinedFields(s[1..], current + ['\\', s[0]], false);
      assert current + ['\\', s[0]] + Slash(false) + s[1..] == current + Slash(true) + s;
    } else if s[0] == '\\' {
      JoinedFields(s[1..], current, true);
      assert current + Slash(true) + s[1..] == current + Slash(false) + s;
    } else if s[0] == ',' {
      JoinedFields(s[1..], "", false);
      var rest := Fields(s[1..], "", false);
      assert ([current] + rest)[1..] == rest;
      assert current + "," + ("" + Slash(false) + s[1..]) == current + Slash(false) + s;
    } else {
      JoinedFields(s[1..], current + [s[0]], false);
      assert current + [s[0]] + Slash(false) + s[1..] == current + Slash(false) + s;
    }
  }

  lemma {:induction false} ScanConcat(a: string, b: string, escaped: bool)
    requires Scan(a, escaped).Some?
    ensures Scan(a + b, escaped) == Scan(b, Scan(a, escaped).value)
  {
    if a == "" {
      assert a + b == b;
    } else {
      assert (a + b)[1..] == a[1..] + b;
      ScanConcat(a[1..], b, if escaped then false else a[0] == '\\');
    }
  }

  lemma ScanSlash(escaped: bool)
    ensures Scan(Slash(escaped), false) == Some(escaped)
  {
    assert escaped ==> Slash(escaped)[1..] == "";
  }

  lemma ScanPair(c: char)
    ensures Scan(['\\', c], false) == Some(false)
  {
    assert ['\\', c][1..] == [c];
    assert [c][1..] == "";
    assert Scan([c], true) == Some(false);
  }

  /** The reader only produces fields that can be joined. */
  lemma {:induction false} FieldsAreSeparable(s: string, current: string, escaped: bool)
    requires Scan(current, false) == Some(false)
    ensures Separable(Fields(s, current, escaped))
  {
    if s == "" {
      ScanConcat(current, Slash(escaped), false);
      ScanSlash(escaped);
    } else if escaped {
      ScanConcat(current, ['\\', s[0]], false);
      ScanPair(s[0]);
      FieldsAreSeparable(s[1..], current + ['\\', s[0]], false);
    } else if s[0] == '\\' {
      FieldsAreSeparable(s[1..], current, true);
    } else if s[0] == ',' {
      FieldsAreSeparable(s[1..], "", false);
    } else {
      ScanConcat(current, [s[0]], false);
      assert [s[0]][1..] == "";
      FieldsAreSeparable(s[1..], current + [s[0]], false);
    }
  }

  /** The length of a list when joined, plus one. */
  function Weight(items: seq<string>): nat {
    if items == [] then 0 else |items[0]| + 1 + Weight(items[1..])
  }

  lemma {:induction false} JoinedLength(items: seq<string>)
    requires items != []
    ensures |Joined(items)| + 1 == Weight(items)
  {
    if |items| > 1 {
      JoinedLength(items[1..]);
    } else {
      assert items[1..] == [];
    }
  }

  /** Whatever is trimmed or dropped makes the list lighter. */
  lemma {:induction false} KeptIsLighter(raw: seq<string>)
    ensures Weight(Kept(raw)) <= Weight(raw)
    ensures Weight(Kept(raw)) == Weight(raw) ==> Kept(raw) == raw
  {
    if raw != [] {
      KeptIsLighter(raw[1..]);
      TrimShape(raw[0]);
      assert ([Trim(raw[0])] + Kept(raw[1..]))[1..] == Kept(raw[1..]);
    }
  }

  /**
   * The CSV reader inverts joining with commas exactly for lists of trimmed, non-empty items whose commas are all
   * escaped and which do not end in an open escape, the last one excepted. Backslashes are kept.
   */
  lemma {:induction false} CsvRoundTrip(items: seq<string>)
    ensures SplitCsv(Joined(items)) == items
            <==> Separable(items) && forall i | 0 <= i < |items| :: Item(items[i])
  {
    hide Trim, Trimmed, Fields, Scan;
    var raw := Fields(Joined(items), "", false);
    if items == [] {
      assert SplitCsv("") == [] by {
        NothingToSplit();
      }
    } else if Separable(items) && forall i | 0 <= i < |items| :: Item(items[i]) {
      FieldsOfJoined(items);
      ItemsAreKept(items);
    } else if SplitCsv(Joined(items)) == items {
      KeptItems(raw);
      JoinedFields(Joined(items), "", false);
      assert "" + Slash(false) + Joined(items) == Joined(items);
      JoinedLength(items);
      JoinedLength(raw);
      KeptIsLighter(raw);
      assert Scan("", false) == Some(false) by {
        ScanNothing();
      }
      FieldsAreSeparable(Joined(items), "", false);
    }
  }

  lemma ScanNothing()
    ensures Scan("", false) == Some(false)
  {
  }

  lemma NothingToSplit()
    ensures SplitCsv("") == []
  {
    assert "" + Slash(false) == "";
    assert Fields("", "", false) == [""];
    assert Kept([""]) == [];
  }

  /** White space around each item, and pieces that are blank, make no difference to the reader. */
  lemma {:induction false} CsvIgnoresPadding(raw: seq<string>, items: seq<string>)
    requires Separable(raw) && PaddedItems(raw, items)
    ensures SplitCsv(Joined(raw)) == items
  {
    hide Fields, Scan, Trim, Trimmed, Blank;
    if raw == [] {
      NothingToSplit();
    } else {
      FieldsOfJoined(raw);
      KeptOfPadded(raw, items);
    }
  }

  /** The raw pieces are these items, each with white space around it, and between them any number of blank pieces. */
  predicate PaddedItems(raw: seq<string>, items: seq<string>) {
    if raw == [] then items == []
    else
      || (Blank(raw[0]) && PaddedItems(raw[1..], items))
      || (items != [] && Item(items[0]) && Padded(raw[0], items[0]) && PaddedItems(raw[1..], items[1..]))
  }

  predicate Padded(raw: string, item: string) {
    exists i | 0 <= i <= |raw| - |item| ::
      raw[i..i + |item|] == item && Blank(raw[..i]) && Blank(raw[i + |item|..])
  }

  lemma {:induction false} KeptOfPadded(raw: seq<string>, items: seq<string>)
    requires PaddedItems(raw, items)
    ensures Kept(raw) == items
  {
    hide Trim, Trimmed, Blank;
    if raw != [] {
      if Blank(raw[0]) && PaddedItems(raw[1..], items) {
        assert raw[0] + "" + "" == raw[0] && Blank("") && Trimmed("") by {
          NothingIsBlank();
        }
        TrimPadded(raw[0], "", "");
        KeptOfPadded(raw[1..], items);
      } else {
        var i :| 0 <= i <= |raw[0]| - |items[0]| && raw[0][i..i + |items[0]|] == items[0]
                 && Blank(raw[0][..i]) && Blank(raw[0][i + |items[0]|..]);
        assert raw[0] == raw[0][..i] + items[0] + raw[0][i + |items[0]|..];
        TrimPadded(raw[0][..i], items[0], raw[0][i + |items[0]|..]);
        KeptOfPadded(raw[1..], items[1..]);
      }
    }
  }

  lemma NothingIsBlank()
    ensures Blank("") && Trimmed("")
  {
  }

  // ---- Statement lists ----

  /** The raw statements: a single semicolon separates, a doubled one stands for itself. */
  function Statements(s: string, current: string): seq<string> {
    if s == "" then [current]
    else if s[0] != ';' then Statements(s[1..], current + [s[0]])
    else if |s| > 1 && s[1] == ';' then Statements(s[2..], current + ";")
    else [current] + Statements(s[1..], "")
  }

  function InitialStatements(value: Option<string>): seq<string> {
    if value.None? then [] else Kept(Statements(value.value, ""))
  }

  method ReadInitialStatements(value: Option<string>) returns (statements: seq<string>)
    ensures statements == InitialStatements(value)
  {
    hide Trim;
    statements := [];
    if value.None? {
      return;
    }
    var text := value.value;
    var statement := "";
    var i := 0;
    while i < |text|
      invariant i <= |text|
      invariant Kept(Statements(text, "")) == statements + Kept(Statements(text[i..], statement))
    {
      var character := text[i];
      i := i + 1;
      assert text[i - 1..][1..] == text[i..];
      if character != ';' {
        statement := statement + [character];
        continue;
      }
      if i < |text| && text[i] == ';' {
        statement := statement + ";";
        i := i + 1;
        assert text[i - 2..][2..] == text[i..];
        continue;
      }
      ghost var rest := Statements(text[i..], "");
      assert ([statement] + rest)[1..] == rest;
      var trimmed := Trim(statement);
      if trimmed != "" {
        statements := statements + [trimmed];
      }
      statement := "";
    }
    var trimmed := Trim(statement);
    assert Kept([statement]) == if trimmed == "" then [] else [trimmed];
    if trimmed != "" {
      statements := statements + [trimmed];
    }
  }

  function Doubled(s: string): string {
    if s == "" then "" else (if s[0] == ';' then ";;" else [s[0]]) + Doubled(s[1..])
  }

  function JoinedStatements(items: seq<string>): string {
    if items == [] then ""
    else if |items| == 1 then Doubled(items[0])
    else Doubled(items[0]) + ";" + JoinedStatements(items[1..])
  }

  /** One step of the reader, over what a character was doubled to. */
  lemma DoubledStep(t: string, rest: string, current: string)
    requires t != ""
    ensures Statements(Doubled(t) + rest, current) == Statements(Doubled(t[1..]) + rest, current + [t[0]])
  {
    var tail := Doubled(t[1..]) + rest;
    var all := Doubled(t) + rest;
    if t[0] == ';' {
      assert all == ";;" + tail;
      assert all[2..] == tail && current + ";" == current + [t[0]];
    } else {
      assert all == [t[0]] + tail;
      assert all[1..] == tail;
    }
  }

  /** Reading a doubled text collects the text, whatever follows. */
  lemma {:induction false} StatementRead(t: string, rest: string, current: string)
    ensures Statements(Doubled(t) + rest, current) == Statements(rest, current + t)
  {
    hide Statements;
    if t == "" {
      assert Doubled(t) + rest == rest && current + t == current;
    } else {
      assert current + [t[0]] + t[1..] == current + t;
      DoubledStep(t, rest, current);
      StatementRead(t[1..], rest, current + [t[0]]);
    }
  }

  predicate StartsAfresh(s: string) { s != "" && s[0] != ';' }

  /** A statement that starts with a semicolon is read into the one before it. */
  lemma {:induction false} Separator(items: seq<string>, current: string)
    requires items != [] && items[0] != ""
    ensures Statements(";" + JoinedStatements(items), current) != []
    ensures StartsAfresh(items[0]) ==>
              Statements(";" + JoinedStatements(items), current) == [current] + Statements(JoinedStatements(items), "")
    ensures !StartsAfresh(items[0]) ==> current + ";" <= Statements(";" + JoinedStatements(items), current)[0]
  {
    var u, text := items[0], JoinedStatements(items);
    assert Doubled(u)[0] == u[0] && text[0] == u[0];
    assert (";" + text)[1..] == text;
    if u[0] == ';' {
      assert Doubled(u) == ";;" + Doubled(u[1..]);
      assert text[1] == ';';
      assert (";" + text)[2..] == text[1..];
      FirstGrows(text[1..], current + ";");
    }
  }

  /** The first raw statement begins with what has been collected. */
  lemma {:induction false} FirstGrows(s: string, current: string)
    ensures Statements(s, current) != [] && current <= Statements(s, current)[0]
  {
    if s != "" {
      if s[0] != ';' {
        FirstGrows(s[1..], current + [s[0]]);
      } else if |s| > 1 && s[1] == ';' {
        FirstGrows(s[2..], current + ";");
      }
    }
  }

  /** What the reader can give back. */
  predicate Writable(items: seq<string>) {
    AllStartAfresh(items) && forall i | 0 <= i < |items| :: Item(items[i])
  }

  predicate AllStartAfresh(items: seq<string>) { forall i | 1 <= i < |items| :: StartsAfresh(items[i]) }

  /** A statement that has swallowed a semicolon is not the one that was written. */
  lemma SwallowedDiffers(t: string, raw: seq<string>, items: seq<string>)
    requires Item(t) && raw != [] && t + ";" <= raw[0] && items != [] && items[0] == t
    ensures Kept(raw) != items
  {
    assert raw[0][|t|] == ';' && raw[0][0] == t[0];
    TrimKeeps(raw[0], |t|);
    assert Kept(raw) != [] && Kept(raw)[0] == Trim(raw[0]);
  }

  lemma {:induction false} JoinedRead(items: seq<string>)
    requires items != [] && forall i | 0 <= i < |items| :: Item(items[i])
    ensures Kept(Statements(JoinedStatements(items), "")) == items <==> AllStartAfresh(items)
  {
    hide Trim, Trimmed;
    var t := items[0];
    assert "" + t == t;
    if |items| == 1 {
      StatementRead(t, "", "");
      assert Doubled(t) + "" == Doubled(t);
      ItemsAreKept(items);
    } else {
      var tail := items[1..];
      var rest := ";" + JoinedStatements(tail);
      assert JoinedStatements(items) == Doubled(t) + rest;
      StatementRead(t, rest, "");
      Separator(tail, t);
      if StartsAfresh(tail[0]) {
        JoinedRead(tail);
        var more := Statements(JoinedStatements(tail), "");
        KeptFirst(t, more);
        assert items == [t] + tail;
        assert AllStartAfresh(items) <==> AllStartAfresh(tail) by {
          AfreshTail(items);
        }
      } else {
        SwallowedDiffers(t, Statements(rest, t), items);
      }
    }
  }

  lemma KeptFirst(t: string, more: seq<string>)
    requires Item(t)
    ensures Kept([t] + more) == [t] + Kept(more)
  {
    TrimShape(t);
    assert ([t] + more)[1..] == more;
  }

  lemma AfreshTail(items: seq<string>)
    requires |items| > 1 && StartsAfresh(items[1])
    ensures AllStartAfresh(items) <==> AllStartAfresh(items[1..])
  {
    if AllStartAfresh(items[1..]) {
      forall i | 1 <= i < |items|
        ensures StartsAfresh(items[i])
      {
        assert i > 1 ==> items[i] == items[1..][i - 1];
      }
    }
  }

  /**
   * The statement reader inverts doubling the inner semicolons and joining with single ones exactly for lists of
   * trimmed, non-empty statements of which only the first may start with a semicolon. Statements may end in any
   * number of semicolons.
   */
  lemma {:induction false} StatementsRoundTrip(items: seq<string>)
    ensures InitialStatements(Some(JoinedStatements(items))) == items <==> Writable(items)
  {
    hide Trim, Trimmed;
    if items == [] {
      assert Statements("", "") == [""];
      assert Kept([""]) == [] by {
        BlankIsDropped();
      }
    } else if forall i | 0 <= i < |items| :: Item(items[i]) {
      JoinedRead(items);
    } else {
      KeptItems(Statements(JoinedStatements(items), ""));
    }
  }

  lemma BlankIsDropped()
    ensures Kept([""]) == []
  {
    assert [""][1..] == [];
  }
}
