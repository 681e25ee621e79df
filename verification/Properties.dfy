/**
 * Java-style property texts: the reader of rustium-config (debezium.rs) and the writer of rustium-debezium
 * (source.rs).
 */
module Properties {
  import opened Prelude
  import opened Whitespace

  // ---- Escapes ----

  function HexDigit(c: char): Option<nat> {
    if '0' <= c <= '9' then Some(c as nat - '0' as nat)
    else if 'a' <= c <= 'f' then Some(c as nat - 'a' as nat + 10)
    else if 'A' <= c <= 'F' then Some(c as nat - 'A' as nat + 10)
    else None
  }

  function HexDigits(s: string): Option<nat> {
    if s == "" then Some(0)
    else
      var front, last := HexDigits(s[..|s| - 1]), HexDigit(s[|s| - 1]);
      if front.None? || last.None? then None else Some(16 * front.value + last.value)
  }

  /** `u32::from_str_radix(code, 16)`: a leading plus sign is accepted, an empty text is not. */
  function HexNumber(code: string): Option<nat> {
    if code == "" then None
    else if |code| > 1 && code[0] == '+' then HexDigits(code[1..])
    else HexDigits(code)
  }

  function CharOf(number: nat): Option<char> {
    if number < 0xD800 || 0xE000 <= number < 0x11_0000 then Some(number as char) else None
  }

  /** What one escape stands for, and how many characters follow the one after the backslash. */
  function EscapeAt(s: string): (r: Result<(char, nat)>)
    requires |s| >= 2
    ensures r.Ok? ==> r.value.1 <= |s| - 2
  {
    match s[1]
    case 'n' => Ok(('\n', 0))
    case 'r' => Ok(('\r', 0))
    case 't' => Ok(('\t', 0))
    case 'f' => Ok(('\U{0C}', 0))
    case 'u' =>
      var code := s[2..if |s| < 6 then |s| else 6];
      var number := HexNumber(code);
      if number.None? then Err("invalid Unicode property escape")
      else
        var c := CharOf(number.value);
        if c.None? then Err("invalid Unicode property code point") else Ok((c.value, |code|))
    case other => Ok((other, 0))
  }

  function Unescape(s: string): Result<string>
    decreases |s|
  {
    if s == "" then Ok("")
    else if s[0] != '\\' then Prepend(s[0], Unescape(s[1..]))
    else if |s| == 1 then Ok("\\")
    else
      match EscapeAt(s)
      case Err(m) => Err(m)
      case Ok((c, n)) => Prepend(c, Unescape(s[2 + n..]))
  }

  function Prepend(c: char, rest: Result<string>): Result<string> {
    match rest
    case Err(m) => Err(m)
    case Ok(s) => Ok([c] + s)
  }

  function Prefixed(prefix: string, rest: Result<string>): Result<string> {
    match rest
    case Err(m) => Err(m)
    case Ok(s) => Ok(prefix + s)
  }

  lemma PrefixNothing(rest: Result<string>)
    ensures Prefixed("", rest) == rest
  {
    assert rest.Ok? ==> "" + rest.value == rest.value;
  }

  lemma PrefixStep(prefix: string, c: char, rest: Result<string>)
    ensures Prefixed(prefix, Prepend(c, rest)) == Prefixed(prefix + [c], rest)
  {
    assert rest.Ok? ==> prefix + ([c] + rest.value) == prefix + [c] + rest.value;
  }

  /** The character after a backslash decides. */
  method ReadEscape(s: string) returns (result: Result<(char, nat)>)
    requires |s| >= 2
    ensures result == EscapeAt(s)
  {
    hide HexDigits;
    if s[1] == 'n' {
      return Ok(('\n', 0));
    } else if s[1] == 'r' {
      return Ok(('\r', 0));
    } else if s[1] == 't' {
      return Ok(('\t', 0));
    } else if s[1] == 'f' {
      return Ok(('\U{0C}', 0));
    } else if s[1] == 'u' {
      var code := s[2..if |s| < 6 then |s| else 6];
      var number := HexNumber(code);
      if number.None? {
        return Err("invalid Unicode property escape");
      }
      if 0xD800 <= number.value < 0xE000 || 0x11_0000 <= number.value {
        return Err("invalid Unicode property code point");
      }
      return Ok((number.value as char, |code|));
    }
    return Ok((s[1], 0));
  }

  method ReadEscaped(value: string) returns (result: Result<string>)
    ensures result == Unescape(value)
  {
    hide EscapeAt, Prefixed, Prepend;
    var output, i := "", 0;
    assert value[0..] == value;
    PrefixNothing(Unescape(value));
    while i < |value|
      invariant i <= |value|
      invariant Unescape(value) == Prefixed(output, Unescape(value[i..]))
    {
      var rest := value[i..];
      var character := value[i];
      if character != '\\' {
        PrefixStep(output, character, Unescape(rest[1..]));
        output := output + [character];
        assert rest[1..] == value[i + 1..];
        i := i + 1;
        continue;
      }
      if i + 1 == |value| {
        ReadAll(output, Ok("\\"));
        return Ok(output + "\\");
      }
      var escape := ReadEscape(rest);
      match escape {
        case Err(m) =>
          ReadAll(output, Err(m));
          return Err(m);
        case Ok((c, n)) =>
          PrefixStep(output, c, Unescape(rest[2 + n..]));
          output := output + [c];
          assert rest[2 + n..] == value[i + 2 + n..];
          i := i + 2 + n;
      }
    }
    ReadAll(output, Ok(""));
    assert output + "" == output;
    return Ok(output);
  }

  lemma ReadAll(output: string, rest: Result<string>)
    ensures Prefixed(output, rest) == if rest.Ok? then Ok(output + rest.value) else rest
  {
  }

  // ---- The writer ----

  /** `str::replace` for a single character. */
  function Replace(s: string, c: char, text: string): string {
    if s == "" then "" else (if s[0] == c then text else [s[0]]) + Replace(s[1..], c, text)
  }

  function PropertiesKey(value: string): string {
    Replace(Replace(Replace(value, '\\', "\\\\"), '=', "\\="), ':', "\\:")
  }

  function PropertiesValue(value: string): string {
    Replace(Replace(Replace(value, '\\', "\\\\"), '\n', "\\n"), '\r', "\\r")
  }

  function KeyChar(c: char): string {
    if c == '\\' then "\\\\" else if c == '=' then "\\=" else if c == ':' then "\\:" else [c]
  }

  function ValueChar(c: char): string {
    if c == '\\' then "\\\\" else if c == '\n' then "\\n" else if c == '\r' then "\\r" else [c]
  }

  lemma {:induction false} ReplaceConcat(a: string, b: string, c: char, text: string)
    ensures Replace(a + b, c, text) == Replace(a, c, text) + Replace(b, c, text)
  {
    if a == "" {
      assert a + b == b;
    } else {
      assert (a + b)[1..] == a[1..] + b;
      ReplaceConcat(a[1..], b, c, text);
    }
  }

  lemma ReplaceOne(x: char, c: char, text: string)
    ensures Replace([x], c, text) == if x == c then text else [x]
  {
    assert [x][1..] == "";
    assert text + "" == text;
  }

  lemma ReplaceTwo(x: char, y: char, c: char, text: string)
    ensures Replace([x, y], c, text) == Replace([x], c, text) + Replace([y], c, text)
  {
    assert [x, y] == [x] + [y];
    ReplaceConcat([x], [y], c, text);
  }

  lemma ReplaceStep(s: string, c: char, text: string)
    requires s != ""
    ensures Replace(s, c, text) == Replace([s[0]], c, text) + Replace(s[1..], c, text)
  {
    assert s == [s[0]] + s[1..];
    ReplaceConcat([s[0]], s[1..], c, text);
  }

  /** Escaping by three passes, one per character, is escaping character by character. */
  lemma PassesOverKeyChar(x: char)
    ensures Replace(Replace(Replace([x], '\\', "\\\\"), '=', "\\="), ':', "\\:") == KeyChar(x)
  {
    hide Replace;
    assert "\\\\" == ['\\', '\\'] && "\\=" == ['\\', '='] && "\\\\" == "\\" + "\\" && "\\=" == "\\" + "=";
    assert "\\" == ['\\'] && "=" == ['='];
    ReplaceOne(x, '\\', "\\\\");
    if x == '\\' {
      ReplaceTwo('\\', '\\', '=', "\\=");
      ReplaceTwo('\\', '\\', ':', "\\:");
    } else if x == '=' {
      ReplaceTwo('\\', '=', ':', "\\:");
      ReplaceOne('=', ':', "\\:");
    }
    ReplaceOne(x, '=', "\\=");
    ReplaceOne(x, ':', "\\:");
    ReplaceOne('\\', '=', "\\=");
    ReplaceOne('\\', ':', "\\:");
  }

  lemma PassesOverValueChar(x: char)
    ensures Replace(Replace(Replace([x], '\\', "\\\\"), '\n', "\\n"), '\r', "\\r") == ValueChar(x)
  {
    hide Replace;
    assert "\\\\" == ['\\', '\\'] && "\\n" == ['\\', 'n'] && "\\\\" == "\\" + "\\" && "\\n" == "\\" + "n";
    assert "\\" == ['\\'] && "n" == ['n'];
    ReplaceOne(x, '\\', "\\\\");
    if x == '\\' {
      ReplaceTwo('\\', '\\', '\n', "\\n");
      ReplaceTwo('\\', '\\', '\r', "\\r");
    } else if x == '\n' {
      ReplaceTwo('\\', 'n', '\r', "\\r");
      ReplaceOne('n', '\r', "\\r");
    }
    ReplaceOne(x, '\n', "\\n");
    ReplaceOne(x, '\r', "\\r");
    ReplaceOne('\\', '\n', "\\n");
    ReplaceOne('\\', '\r', "\\r");
  }

  lemma KeyStep(s: string)
    requires s != ""
    ensures PropertiesKey(s) == KeyChar(s[0]) + PropertiesKey(s[1..])
  {
    hide Replace, KeyChar;
    var a, b := Replace([s[0]], '\\', "\\\\"), Replace(s[1..], '\\', "\\\\");
    ReplaceStep(s, '\\', "\\\\");
    ReplaceConcat(a, b, '=', "\\=");
    ReplaceConcat(Replace(a, '=', "\\="), Replace(b, '=', "\\="), ':', "\\:");
    PassesOverKeyChar(s[0]);
  }

  lemma ValueStep(s: string)
    requires s != ""
    ensures PropertiesValue(s) == ValueChar(s[0]) + PropertiesValue(s[1..])
  {
    hide Replace, ValueChar;
    var a, b := Replace([s[0]], '\\', "\\\\"), Replace(s[1..], '\\', "\\\\");
    ReplaceStep(s, '\\', "\\\\");
    ReplaceConcat(a, b, '\n', "\\n");
    ReplaceConcat(Replace(a, '\n', "\\n"), Replace(b, '\n', "\\n"), '\r', "\\r");
    PassesOverValueChar(s[0]);
  }

  // ---- Escaping is undone ----

  lemma UnescapeKeyChar(c: char, rest: string)
    ensures Unescape(KeyChar(c) + rest) == Prepend(c, Unescape(rest))
  {
    var s := KeyChar(c) + rest;
    if KeyChar(c) == [c] {
      assert s[1..] == rest;
    } else {
      assert s[2..] == rest && EscapeAt(s) == Ok((c, 0));
    }
  }

  lemma UnescapeValueChar(c: char, rest: string)
    ensures Unescape(ValueChar(c) + rest) == Prepend(c, Unescape(rest))
  {
    var s := ValueChar(c) + rest;
    if ValueChar(c) == [c] {
      assert s[1..] == rest;
    } else {
      assert s[2..] == rest && EscapeAt(s) == Ok((c, 0));
    }
  }

  /** `unescape` inverts `properties_key` on every text, and whatever follows is read on its own. */
  lemma {:induction false} UnescapeKey(key: string, rest: string)
    ensures Unescape(PropertiesKey(key) + rest) == Prefixed(key, Unescape(rest))
  {
    hide Unescape, Replace, KeyChar;
    if key == "" {
      assert PropertiesKey("") + rest == rest by {
        NothingEscaped();
      }
      assert Unescape(rest).Ok? ==> "" + Unescape(rest).value == Unescape(rest).value;
    } else {
      KeyStep(key);
      assert PropertiesKey(key) + rest == KeyChar(key[0]) + (PropertiesKey(key[1..]) + rest);
      UnescapeKeyChar(key[0], PropertiesKey(key[1..]) + rest);
      UnescapeKey(key[1..], rest);
      assert Unescape(rest).Ok? ==> [key[0]] + (key[1..] + Unescape(rest).value) == key + Unescape(rest).value;
    }
  }

  lemma NothingEscaped()
    ensures PropertiesKey("") == "" && PropertiesValue("") == ""
  {
  }

  /** `unescape` inverts `properties_value` on every text. */
  lemma {:induction false} UnescapeValue(value: string)
    ensures Unescape(PropertiesValue(value)) == Ok(value)
  {
    hide Replace, ValueChar, PropertiesValue;
    if value == "" {
      NothingEscaped();
    } else {
      ValueStep(value);
      UnescapeValueChar(value[0], PropertiesValue(value[1..]));
      UnescapeValue(value[1..]);
      assert [value[0]] + value[1..] == value;
    }
  }

  /** So different texts are never escaped alike. */
  lemma EscapesAreInjective(a: string, b: string)
    ensures PropertiesKey(a) == PropertiesKey(b) ==> a == b
    ensures PropertiesValue(a) == PropertiesValue(b) ==> a == b
  {
    hide Unescape, PropertiesKey, PropertiesValue;
    assert a + "" == a && b + "" == b;
    UnescapeKey(a, "");
    UnescapeKey(b, "");
    UnescapeValue(a);
    UnescapeValue(b);
    assert PropertiesKey(a) + "" == PropertiesKey(a) && PropertiesKey(b) + "" == PropertiesKey(b);
    assert Unescape("") == Ok("") by {
      UnescapeNothing();
    }
  }

  lemma UnescapeNothing()
    ensures Unescape("") == Ok("") && Unescape("\\") == Ok("\\")
  {
  }

  // ---- The reader ----

  /** `str::lines`; carriage returns before line feeds are left to the trimming that follows. */
  function Lines(s: string): seq<string>
    decreases |s|
  {
    if s == "" then []
    else
      var i := LineEnd(s);
      if i == |s| then [s] else [s[..i]] + Lines(s[i + 1..])
  }

  /** Where the first line feed is, else the length. */
  function LineEnd(s: string): (i: nat)
    ensures i <= |s| && (i < |s| ==> s[i] == '\n') && '\n' !in s[..i]
  {
    if s == "" || s[0] == '\n' then 0
    else
      assert forall n | 0 <= n <= |s[1..]| :: s[..n + 1] == [s[0]] + s[1..][..n];
      1 + LineEnd(s[1..])
  }

  /** The number of backslashes at the end. */
  function Slashes(s: string): nat {
    if s != "" && s[|s| - 1] == '\\' then 1 + Slashes(s[..|s| - 1]) else 0
  }

  /** Logical lines: an odd number of backslashes at the end continues the line. */
  function LogicalLines(lines: seq<string>, current: string): seq<string> {
    if lines == [] then (if current == "" then [] else [current])
    else
      var trimmed := TrimEnd(lines[0]);
      if Slashes(trimmed) % 2 == 1 then LogicalLines(lines[1..], current + trimmed[..|trimmed| - 1])
      else [current + trimmed] + LogicalLines(lines[1..], "")
  }

  predicate IsSeparator(c: char) { c == '=' || c == ':' || IsSpace(c) }

  /** Where the first separator is, else the length. */
  function SeparatorAt(s: string): (i: nat)
    ensures i <= |s|
  {
    if s == "" || IsSeparator(s[0]) then 0 else 1 + SeparatorAt(s[1..])
  }

  function TrimSeparators(s: string): string {
    if s != "" && IsSeparator(s[0]) then TrimSeparators(s[1..]) else s
  }

  /** The entry of a logical line, if it is not blank or a comment. */
  function Entry(logical: string): Result<Option<(string, string)>> {
    var line := Trim(logical);
    if line == "" || line[0] == '#' || line[0] == '!' then Ok(None)
    else
      var i := SeparatorAt(line);
      if i == |line| then Err("invalid property line")
      else
        match Unescape(line[..i])
        case Err(m) => Err(m)
        case Ok(key) =>
          match Unescape(TrimSeparators(line[i..]))
          case Err(m) => Err(m)
          case Ok(value) => Ok(Some((key, value)))
  }

  function Collect(logical: seq<string>, properties: map<string, string>): Result<map<string, string>> {
    if logical == [] then Ok(properties)
    else
      match Entry(logical[0])
      case Err(m) => Err(m)
      case Ok(None) => Collect(logical[1..], properties)
      case Ok(Some((key, value))) => Collect(logical[1..], properties[key := value])
  }

  function ParseProperties(input: string): Result<map<string, string>> {
    Collect(LogicalLines(Lines(input), ""), map[])
  }

  method ReadLogicalLines(lines: seq<string>) returns (logical: seq<string>)
    ensures logical == LogicalLines(lines, "")
  {
    logical := [];
    var current := "";
    for i := 0 to |lines|
      invariant LogicalLines(lines, "") == logical + LogicalLines(lines[i..], current)
    {
      var trimmed := TrimEnd(lines[i]);
      assert lines[i..][1..] == lines[i + 1..];
      if Slashes(trimmed) % 2 == 1 {
        current := current + trimmed[..|trimmed| - 1];
      } else {
        logical := logical + [current + trimmed];
        current := "";
      }
    }
    if current != "" {
      logical := logical + [current];
    }
  }

  /** One logical line: skipped, refused for want of a separator, or split at the first one. */
  method ReadEntry(logical: string) returns (result: Result<Option<(string, string)>>)
    ensures result == Entry(logical)
  {
    hide Unescape, Trim;
    var line := Trim(logical);
    if line == "" || line[0] == '#' || line[0] == '!' {
      return Ok(None);
    }
    var i := 0;
    while i < |line| && !(line[i] == '=' || line[i] == ':' || IsSpace(line[i]))
      invariant i <= |line| && SeparatorAt(line) == i + SeparatorAt(line[i..])
    {
      assert line[i..][1..] == line[i + 1..];
      i := i + 1;
    }
    if i == |line| {
      return Err("invalid property line");
    }
    var key := ReadEscaped(line[..i]);
    if key.Err? {
      return Err(key.message);
    }
    var j := i;
    while j < |line| && (line[j] == '=' || line[j] == ':' || IsSpace(line[j]))
      invariant i <= j <= |line| && TrimSeparators(line[i..]) == TrimSeparators(line[j..])
    {
      assert line[j..][1..] == line[j + 1..];
      j := j + 1;
    }
    var value := ReadEscaped(line[j..]);
    if value.Err? {
      return Err(value.message);
    }
    return Ok(Some((key.value, value.value)));
  }

  method ReadProperties(input: string) returns (result: Result<map<string, string>>)
    ensures result == ParseProperties(input)
  {
    hide Entry, LogicalLines, Lines;
    var logical := ReadLogicalLines(Lines(input));
    var properties: map<string, string> := map[];
    for i := 0 to |logical|
      invariant ParseProperties(input) == Collect(logical[i..], properties)
    {
      assert logical[i..][1..] == logical[i + 1..];
      var entry := ReadEntry(logical[i]);
      match entry {
        case Err(m) => return Err(m);
        case Ok(None) =>
        case Ok(Some((key, value))) => properties := properties[key := value];
      }
    }
    return Ok(properties);
  }

  // ---- Escaped code points and continued lines ----

  function HexChar(d: nat): char
    requires d < 16
  {
    "0123456789abcdef"[d]
  }

  /** Four hexadecimal digits. */
  function Hex4(n: nat): string
    requires n < 0x1_0000
  {
    [HexChar(n / 0x1000), HexChar(n / 0x100 % 16), HexChar(n / 16 % 16), HexChar(n % 16)]
  }

  lemma HexDigitOf(d: nat)
    requires d < 16
    ensures HexDigit(HexChar(d)) == Some(d) && HexChar(d) != '+'
  {
  }

  lemma HexSnoc(s: string, d: nat)
    requires d < 16 && HexDigits(s).Some?
    ensures HexDigits(s + [HexChar(d)]) == Some(16 * HexDigits(s).value + d)
  {
    HexDigitOf(d);
    assert (s + [HexChar(d)])[..|s|] == s;
  }

  lemma Hex4Value(n: nat)
    requires n < 0x1_0000
    ensures HexNumber(Hex4(n)) == Some(n)
  {
    hide HexDigits, HexChar;
    var a, b, c, d := n / 0x1000, n / 0x100 % 16, n / 16 % 16, n % 16;
    assert HexDigits("") == Some(0) by {
      NoHexDigits();
    }
    var p, q, r := [HexChar(a)], [HexChar(a), HexChar(b)], [HexChar(a), HexChar(b), HexChar(c)];
    HexSnoc("", a);
    assert "" + [HexChar(a)] == p;
    HexSnoc(p, b);
    assert p + [HexChar(b)] == q;
    HexSnoc(q, c);
    assert q + [HexChar(c)] == r;
    HexSnoc(r, d);
    assert r + [HexChar(d)] == Hex4(n);
    HexDigitOf(a);
    HexParts(n);
  }

  lemma HexParts(n: nat)
    requires n < 0x1_0000
    ensures n == 16 * (16 * (16 * (n / 0x1000) + n / 0x100 % 16) + n / 16 % 16) + n % 16
  {
    assert n / 0x100 == n / 16 / 16 && n / 0x1000 == n / 0x100 / 16;
  }

  lemma NoHexDigits()
    ensures HexDigits("") == Some(0)
  {
  }

  /**
   * A backslash, `u` and four hexadecimal digits stand for the code point with that number, and are refused exactly
   * for surrogates.
   */
  lemma UnescapeCodePoint(n: nat, rest: string)
    requires n < 0x1_0000
    ensures var result := Unescape("\\u" + Hex4(n) + rest);
            if 0xD800 <= n < 0xE000 then result.Err? else result == Prepend(n as char, Unescape(rest))
  {
    hide HexNumber, Hex4;
    var s := "\\u" + Hex4(n) + rest;
    Hex4Value(n);
    assert |Hex4(n)| == 4 by {
      Hex4Length(n);
    }
    assert s[2..6] == Hex4(n) && s[6..] == rest;
  }

  lemma Hex4Length(n: nat)
    requires n < 0x1_0000
    ensures |Hex4(n)| == 4
  {
  }

  lemma {:induction false} SlashesConcat(a: string, b: string)
    ensures Slashes(a + b) == if Slashes(b) == |b| then Slashes(a) + |b| else Slashes(b)
    ensures Slashes(b) <= |b|
  {
    if b == "" {
      assert a + b == a;
    } else {
      SlashesConcat(a, b[..|b| - 1]);
      assert (a + b)[..|a + b| - 1] == a + b[..|b| - 1];
    }
  }

  lemma {:induction false} TrimEndConcat(a: string, b: string)
    requires TrimEnd(b) != ""
    ensures TrimEnd(a + b) == a + TrimEnd(b)
  {
    if IsSpace(b[|b| - 1]) {
      assert (a + b)[..|a + b| - 1] == a + b[..|b| - 1];
      TrimEndConcat(a, b[..|b| - 1]);
    }
  }

  /**
   * A single backslash at the end, after any number of escaped ones, joins a line with the next one that is not
   * blank: what is read is as if they had been one line. White space in front of the next line is kept.
   */
  lemma ContinuedLine(a: string, b: string, rest: seq<string>, current: string)
    requires Slashes(a) % 2 == 0 && TrimEnd(b) != ""
    ensures LogicalLines([a + "\\", b] + rest, current) == LogicalLines([a + b] + rest, current)
  {
    hide TrimEnd, Slashes;
    var lines, joined, next := [a + "\\", b] + rest, [a + b] + rest, [b] + rest;
    assert lines[1..] == next && next[1..] == rest && joined[1..] == rest;
    NoTrim(a + "\\");
    SlashesOf(a, '\\');
    assert (a + "\\")[..|a|] == a;
    TrimEndConcat(a, b);
    SlashesConcat(a, TrimEnd(b));
    var t := TrimEnd(b);
    if Slashes(t) % 2 == 1 {
      assert t[|t| - 1] == '\\' by {
        LastSlash(t);
      }
      assert (a + t)[..|a + t| - 1] == a + t[..|t| - 1];
      assert current + a + t[..|t| - 1] == current + (a + t[..|t| - 1]);
    }
    assert current + a + t == current + (a + t);
  }

  lemma LastSlash(s: string)
    requires Slashes(s) > 0
    ensures s[|s| - 1] == '\\'
  {
  }

  /** So two such lines in a file read as one. */
  lemma ContinuedFile(a: string, b: string, rest: seq<string>)
    requires '\n' !in a && '\n' !in b && forall i | 0 <= i < |rest| :: '\n' !in rest[i]
    requires Slashes(a) % 2 == 0 && TrimEnd(b) != ""
    ensures ParseProperties(Text([a + "\\", b] + rest)) == ParseProperties(Text([a + b] + rest))
  {
    hide TrimEnd, Slashes, Lines, LogicalLines, Collect, Text;
    LinesOfText([a + "\\", b] + rest);
    LinesOfText([a + b] + rest);
    ContinuedLine(a, b, rest, "");
  }

  /** Upper-case digits mean the same as lower-case ones, and a leading plus sign is passed over. */
  lemma OtherHexForms(d: nat, code: string)
    requires d < 16
    ensures HexDigit("0123456789ABCDEF"[d]) == Some(d)
    ensures code != "" && code[0] != '+' ==> HexNumber("+" + code) == HexNumber(code)
    ensures HexNumber("") == None && HexNumber("+") == None
  {
    assert ("+" + code)[1..] == code;
    assert "+"[..0] == "" && HexDigits("").Some?;
  }

  /** A text is a hexadecimal number only if all its characters are digits, of either case. */
  lemma {:induction false} HexDigitsOnly(s: string)
    ensures HexDigits(s).Some? <==> forall i | 0 <= i < |s| :: s[i] in "0123456789abcdefABCDEF"
  {
    if s != "" {
      HexDigitsOnly(s[..|s| - 1]);
      assert s == s[..|s| - 1] + [s[|s| - 1]];
      assert HexDigit(s[|s| - 1]).Some? <==> s[|s| - 1] in "0123456789abcdefABCDEF" by {
        HexDigitListed(s[|s| - 1]);
      }
    }
  }

  lemma HexDigitListed(c: char)
    ensures HexDigit(c).Some? <==> c in "0123456789abcdefABCDEF"
  {
  }

  /** A character in plain ASCII: control characters have a letter or a number, all else beyond it a number. */
  function PlainChar(c: char): string
    requires c < '\U{10000}'
  {
    if c == '\t' then "\\t" else if c == '\n' then "\\n" else if c == '\r' then "\\r"
    else if c == '\U{0C}' then "\\f" else if c == '\\' then "\\\\"
    else if ' ' <= c <= '~' then [c]
    else "\\u" + Hex4(c as nat)
  }

  function PlainText(s: string): string
    requires forall i | 0 <= i < |s| :: s[i] < '\U{10000}'
  {
    if s == "" then "" else PlainChar(s[0]) + PlainText(s[1..])
  }

  lemma UnescapePlainChar(c: char, rest: string)
    requires c < '\U{10000}'
    ensures Unescape(PlainChar(c) + rest) == Prepend(c, Unescape(rest))
  {
    var s := PlainChar(c) + rest;
    if PlainChar(c) == [c] {
      assert s[1..] == rest;
    } else if c == '\t' || c == '\n' || c == '\r' || c == '\U{0C}' || c == '\\' {
      assert s[2..] == rest;
    } else {
      hide Unescape;
      assert s == "\\u" + Hex4(c as nat) + rest;
      UnescapeCodePoint(c as nat, rest);
    }
  }

  /** `unescape` inverts this printer too, which uses every kind of escape. */
  lemma {:induction false} UnescapePlain(s: string)
    requires forall i | 0 <= i < |s| :: s[i] < '\U{10000}'
    ensures Unescape(PlainText(s)) == Ok(s)
  {
    hide Unescape, PlainChar;
    if s == "" {
      UnescapeNothing();
    } else {
      UnescapePlainChar(s[0], PlainText(s[1..]));
      UnescapePlain(s[1..]);
      assert [s[0]] + s[1..] == s;
    }
  }

  // ---- Lines of a file ----

  /** What may stand between a key and its value. */
  predicate Separates(text: string) {
    text != "" && forall i | 0 <= i < |text| :: text[i] in {'=', ':'} || IsSpace(text[i])
  }

  /** Neither end of the text could be taken for a separator. */
  predicate Solid(text: string) { text == "" || (text[0] !in {'=', ':'} && Trimmed(text)) }

  /** A key, anything that separates, and a value are read as this key and value, whatever white space is around. */
  lemma EntryOfParts(before: string, key: string, between: string, value: string, after: string)
    requires Blank(before) && Blank(after) && Separates(between) && Solid(value)
    requires forall i | 0 <= i < |key| :: key[i] !in {'=', ':'} && !IsSpace(key[i])
    requires key == "" || key[0] !in {'#', '!'}
    requires key == "" ==> !IsSpace(between[0])
    requires value == "" ==> !IsSpace(between[|between| - 1])
    ensures Entry(before + key + between + value + after)
            == match Unescape(key)
               case Err(m) => Err(m)
               case Ok(k) =>
                 match Unescape(value)
                 case Err(m) => Err(m)
                 case Ok(v) => Ok(Some((k, v)))
  {
    hide Unescape, IsSpace, Trim, Blank, Solid, Separates;
    var line := key + between + value;
    NotNothing(between);
    PartsTrim(before, key, between, value, after);
    assert line == key + (between + value);
    CutAtSeparator(key, between + value);
    DropSeparators(between, value);
    assert line[..|key|] == key && line[|key|..] == between + value;
    assert line[0] == if key == "" then between[0] else key[0];
    NoMarks();
  }

  lemma NotNothing(between: string)
    requires Separates(between)
    ensures between != "" && (between[0] in {'=', ':'} || IsSpace(between[0]))
  {
  }

  lemma PartsTrim(before: string, key: string, between: string, value: string, after: string)
    requires Blank(before) && Blank(after) && Separates(between) && Solid(value)
    requires key != "" ==> !IsSpace(key[0])
    requires key == "" ==> !IsSpace(between[0])
    requires value == "" ==> !IsSpace(between[|between| - 1])
    ensures Trim(before + key + between + value + after) == key + between + value
  {
    hide IsSpace, Trim, Blank;
    var line := key + between + value;
    assert before + key + between + value + after == before + line + after;
    assert line[0] == if key == "" then between[0] else key[0];
    assert line[|line| - 1] == if value == "" then between[|between| - 1] else value[|value| - 1];
    TrimPadded(before, line, after);
  }

  lemma NoMarks()
    ensures !IsSpace('#') && !IsSpace('!')
  {
  }

  lemma {:induction false} CutAtSeparator(key: string, rest: string)
    requires forall i | 0 <= i < |key| :: key[i] !in {'=', ':'} && !IsSpace(key[i])
    requires rest != "" && (rest[0] in {'=', ':'} || IsSpace(rest[0]))
    ensures SeparatorAt(key + rest) == |key|
  {
    if key == "" {
      assert key + rest == rest;
    } else {
      assert (key + rest)[1..] == key[1..] + rest;
      CutAtSeparator(key[1..], rest);
    }
  }

  lemma {:induction false} DropSeparators(between: string, value: string)
    requires (between == "" || Separates(between)) && Solid(value)
    ensures TrimSeparators(between + value) == value
  {
    if between == "" {
      assert between + value == value;
    } else {
      assert (between + value)[1..] == between[1..] + value;
      DropSeparators(between[1..], value);
    }
  }

  /** A line that is blank, or a comment. */
  predicate Ignored(line: string) {
    exists i | 0 <= i <= |line| :: Blank(line[..i]) && (i == |line| || line[i] in {'#', '!'})
  }

  lemma EntryOfIgnored(line: string)
    requires Ignored(line)
    ensures Entry(line) == Ok(None)
  {
    var i :| 0 <= i <= |line| && Blank(line[..i]) && (i == |line| || line[i] in {'#', '!'});
    assert line == line[..i] + line[i..];
    TrimStartPadded(line[..i], line[i..]);
    if i < |line| {
      NoMarks();
      TrimKeeps(line[i..], 0);
      TrimEndShape(line[i..]);
    }
  }

  /** A line without any separator is refused, when it is neither blank nor a comment. */
  lemma EntryWithoutSeparator(line: string)
    requires line != "" && line[0] !in {'#', '!'}
    requires forall i | 0 <= i < |line| :: line[i] !in {'=', ':'} && !IsSpace(line[i])
    ensures Entry(line).Err?
  {
    hide IsSpace, Trim;
    TrimShape(line);
    NoSeparator(line);
  }

  lemma {:induction false} NoSeparator(s: string)
    requires forall i | 0 <= i < |s| :: s[i] !in {'=', ':'} && !IsSpace(s[i])
    ensures SeparatorAt(s) == |s|
  {
    if s != "" {
      NoSeparator(s[1..]);
    }
  }

  /** A blank line or a comment can be left out, where neither it nor a line before it continues. */
  lemma {:induction false} IgnoredLine(before: seq<string>, line: string, after: seq<string>)
    requires forall i | 0 <= i < |before| :: '\n' !in before[i] && Slashes(TrimEnd(before[i])) % 2 == 0
    requires '\n' !in line && Ignored(line) && Slashes(TrimEnd(line)) % 2 == 0
    requires forall i | 0 <= i < |after| :: '\n' !in after[i]
    ensures ParseProperties(Text(before + [line] + after)) == ParseProperties(Text(before + after))
  {
    hide Entry, Slashes, TrimEnd, Lines, Text, Ignored;
    LinesOfText(before + [line] + after);
    LinesOfText(before + after);
    LogicalWithout(before, line, after);
    EntryOfTrimmed(line);
    CollectWithout(LogicalLines(before, ""), TrimEnd(line), LogicalLines(after, ""), map[]);
  }

  lemma EntryOfTrimmed(line: string)
    requires Ignored(line)
    ensures Entry(TrimEnd(line)) == Ok(None)
  {
    var i :| 0 <= i <= |line| && Blank(line[..i]) && (i == |line| || line[i] in {'#', '!'});
    var t := TrimEnd(line);
    TrimEndShape(line);
    NoMarks();
    if i < |t| {
      assert t[..i] == line[..i] && t[i] == line[i];
    } else {
      assert t[..|t|] == line[..i][..|t|];
    }
    EntryOfIgnored(t);
  }

  lemma {:induction false} LogicalConcat(before: seq<string>, rest: seq<string>)
    requires forall i | 0 <= i < |before| :: Slashes(TrimEnd(before[i])) % 2 == 0
    ensures LogicalLines(before + rest, "") == LogicalLines(before, "") + LogicalLines(rest, "")
  {
    hide Slashes, TrimEnd;
    if before == [] {
      assert before + rest == rest && LogicalLines(before, "") + LogicalLines(rest, "") == LogicalLines(rest, "");
    } else {
      assert (before + rest)[1..] == before[1..] + rest;
      LogicalConcat(before[1..], rest);
    }
  }

  lemma LogicalWithout(before: seq<string>, line: string, after: seq<string>)
    requires forall i | 0 <= i < |before| :: Slashes(TrimEnd(before[i])) % 2 == 0
    requires Slashes(TrimEnd(line)) % 2 == 0
    ensures LogicalLines(before + [line] + after, "")
            == LogicalLines(before, "") + [TrimEnd(line)] + LogicalLines(after, "")
    ensures LogicalLines(before + after, "") == LogicalLines(before, "") + LogicalLines(after, "")
  {
    hide Slashes, TrimEnd, LogicalLines;
    LogicalConcat(before, after);
    LogicalConcat(before, [line] + after);
    LogicalConcat([line], after);
    OneLogicalLine(line);
    assert before + [line] + after == before + ([line] + after);
  }

  lemma {:induction false} CollectWithout(
      a: seq<string>, line: string, b: seq<string>, properties: map<string, string>)
    requires Entry(line) == Ok(None)
    ensures Collect(a + [line] + b, properties) == Collect(a + b, properties)
  {
    hide Entry;
    if a == [] {
      assert a + [line] + b == [line] + b && ([line] + b)[1..] == b && a + b == b;
    } else {
      assert (a + [line] + b)[1..] == a[1..] + [line] + b && (a + b)[1..] == a[1..] + b;
      match Entry(a[0])
      case Err(_) =>
      case Ok(None) => CollectWithout(a[1..], line, b, properties);
      case Ok(Some((key, value))) => CollectWithout(a[1..], line, b, properties[key := value]);
    }
  }

  /** The last line need not be followed by a line feed. */
  lemma {:induction false} UnterminatedFile(lines: seq<string>, last: string)
    requires '\n' !in last && last != "" && forall i | 0 <= i < |lines| :: '\n' !in lines[i]
    ensures Lines(Text(lines) + last) == Lines(Text(lines + [last]))
  {
    LinesOfText(lines + [last]);
    UnterminatedLines(lines, last);
  }

  lemma LinesStep(line: string, rest: string)
    requires '\n' !in line
    ensures Lines(line + "\n" + rest) == [line] + Lines(rest)
  {
    var text := line + "\n" + rest;
    assert text == line + ("\n" + rest);
    EndsAt(line, "\n" + rest);
    assert text[..|line|] == line && text[|line| + 1..] == rest;
  }

  lemma OneLine(line: string)
    requires '\n' !in line && line != ""
    ensures Lines(line) == [line]
  {
    assert forall i | 0 <= i < |line| :: line[i] != '\n';
  }

  lemma {:induction false} UnterminatedLines(lines: seq<string>, last: string)
    requires '\n' !in last && last != "" && forall i | 0 <= i < |lines| :: '\n' !in lines[i]
    ensures Lines(Text(lines) + last) == lines + [last]
  {
    hide Lines;
    if lines == [] {
      OneLine(last);
      assert Text([]) + last == last && [] + [last] == [last];
    } else {
      var rest := Text(lines[1..]) + last;
      assert Text(lines) + last == lines[0] + "\n" + rest;
      LinesStep(lines[0], rest);
      UnterminatedLines(lines[1..], last);
    }
  }

  // ---- What is written is read back ----

  function Line(key: string, value: string): string { PropertiesKey(key) + "=" + PropertiesValue(value) }

  /** The text of a generated file: each line is followed by a line feed. */
  function Text(lines: seq<string>): string {
    if lines == [] then "" else lines[0] + "\n" + Text(lines[1..])
  }

  /** White space that the writer leaves as it is. */
  predicate IsPlainSpace(c: char) { IsSpace(c) && c != '\n' && c != '\r' }

  function StripEnd(v: string): string {
    if v != "" && IsPlainSpace(v[|v| - 1]) then StripEnd(v[..|v| - 1]) else v
  }

  function StripStart(v: string): string {
    if v != "" && (v[0] == '=' || v[0] == ':' || IsPlainSpace(v[0])) then StripStart(v[1..]) else v
  }

  /** What the reader makes of a written value. */
  function Stripped(v: string): string { StripStart(StripEnd(v)) }

  /** No separator inside, and not the mark of a comment in front. */
  predicate KeyOk(key: string) {
    && (forall i | 0 <= i < |key| :: !IsSeparator(key[i]))
    && (key == "" || (key[0] != '#' && key[0] != '!'))
  }

  /** No separator in front and no white space behind, line breaks apart. */
  predicate ValueOk(v: string) {
    v == "" || (v[0] != '=' && v[0] != ':' && !IsPlainSpace(v[0]) && !IsPlainSpace(v[|v| - 1]))
  }

  lemma {:induction false} StripShape(v: string)
    ensures |StripEnd(v)| <= |v| && |StripStart(v)| <= |v|
    ensures StripEnd(StripEnd(v)) == StripEnd(v)
    ensures |StripEnd(v)| == |v| <==> StripEnd(v) == v
    ensures |StripStart(v)| == |v| <==> StripStart(v) == v
  {
    if v != "" {
      StripShape(v[1..]);
      StripShape(v[..|v| - 1]);
    }
  }

  /** A value comes back exactly if nothing is stripped from it. */
  lemma StrippedIsSame(v: string)
    ensures Stripped(v) == v <==> ValueOk(v)
  {
    StripShape(v);
    StripShape(StripEnd(v));
    if v != "" {
      StripShape(v[1..]);
      StripShape(v[..|v| - 1]);
    }
  }

  lemma ValueConcat(a: string, b: string)
    ensures PropertiesValue(a + b) == PropertiesValue(a) + PropertiesValue(b)
  {
    hide Replace;
    ReplaceConcat(a, b, '\\', "\\\\");
    ReplaceConcat(Replace(a, '\\', "\\\\"), Replace(b, '\\', "\\\\"), '\n', "\\n");
    var x, y := Replace(Replace(a, '\\', "\\\\"), '\n', "\\n"), Replace(Replace(b, '\\', "\\\\"), '\n', "\\n");
    ReplaceConcat(x, y, '\r', "\\r");
  }

  lemma ValueLast(v: string)
    requires v != ""
    ensures PropertiesValue(v) == PropertiesValue(v[..|v| - 1]) + ValueChar(v[|v| - 1])
  {
    hide Replace, PropertiesValue;
    assert v == v[..|v| - 1] + [v[|v| - 1]];
    ValueConcat(v[..|v| - 1], [v[|v| - 1]]);
    ValueStep([v[|v| - 1]]);
    NothingEscaped();
    assert [v[|v| - 1]][1..] == "";
    assert ValueChar(v[|v| - 1]) + "" == ValueChar(v[|v| - 1]);
  }

  /** Trimming a line strips its value. */
  lemma {:induction false} TrimLine(key: string, v: string)
    ensures TrimEnd(Line(key, v)) == Line(key, StripEnd(v))
  {
    hide PropertiesKey, PropertiesValue, ValueChar, TrimEnd;
    var line := Line(key, v);
    if v == "" {
      NothingEscaped();
      NoTrim(line);
    } else {
      ValueLast(v);
      var c, front := v[|v| - 1], Line(key, v[..|v| - 1]);
      assert line == front + ValueChar(c);
      ValueCharEnd(c);
      if IsPlainSpace(c) {
        TrimOne(front, c);
        TrimLine(key, v[..|v| - 1]);
      } else {
        NoTrim(line);
      }
    }
  }

  lemma ValueCharEnd(c: char)
    ensures ValueChar(c) != "" && (IsSpace(ValueChar(c)[|ValueChar(c)| - 1]) <==> IsPlainSpace(c))
    ensures IsPlainSpace(c) ==> ValueChar(c) == [c]
  {
  }

  lemma NoTrim(s: string)
    requires s != "" && !IsSpace(s[|s| - 1])
    ensures TrimEnd(s) == s
  {
  }

  lemma TrimOne(s: string, c: char)
    requires IsSpace(c)
    ensures TrimEnd(s + [c]) == TrimEnd(s)
  {
    assert (s + [c])[..|s|] == s;
  }

  /** What is trimmed in front of a written value. */
  lemma {:induction false} TrimValue(v: string)
    ensures TrimSeparators(PropertiesValue(v)) == PropertiesValue(StripStart(v))
  {
    hide PropertiesValue;
    if v == "" {
      NothingEscaped();
    } else {
      ValueStep(v);
      var rest := PropertiesValue(v[1..]);
      assert (ValueChar(v[0]) + rest)[0] == ValueChar(v[0])[0];
      if v[0] == '=' || v[0] == ':' || IsPlainSpace(v[0]) {
        assert ([v[0]] + rest)[1..] == rest;
        TrimValue(v[1..]);
      }
    }
  }

  lemma SlashesOf(s: string, c: char)
    ensures Slashes(s + [c]) == if c == '\\' then Slashes(s) + 1 else 0
  {
    assert (s + [c])[..|s|] == s;
  }

  /** A written line never continues: its backslashes come in pairs. */
  lemma {:induction false} EvenSlashes(key: string, v: string)
    ensures Slashes(Line(key, v)) % 2 == 0
  {
    hide PropertiesKey, PropertiesValue, Slashes;
    if v == "" {
      NothingEscaped();
      SlashesOf(PropertiesKey(key), '=');
      assert Line(key, v) == PropertiesKey(key) + ['='];
    } else {
      ValueLast(v);
      var c, front := v[|v| - 1], Line(key, v[..|v| - 1]);
      var escaped := ValueChar(c);
      var n := |escaped| - 1;
      assert Line(key, v) == front + escaped[..n] + [escaped[n]];
      SlashesOf(front + escaped[..n], escaped[n]);
      if c == '\\' {
        assert escaped[..n] == ['\\'];
        SlashesOf(front, '\\');
        EvenSlashes(key, v[..|v| - 1]);
      }
    }
  }

  lemma {:induction false} KeyHasNoSeparator(key: string)
    requires forall i | 0 <= i < |key| :: !IsSeparator(key[i])
    ensures forall i | 0 <= i < |PropertiesKey(key)| :: !IsSeparator(PropertiesKey(key)[i])
    ensures key != "" ==> PropertiesKey(key) != "" && PropertiesKey(key)[0] == key[0]
  {
    hide PropertiesKey;
    if key == "" {
      NothingEscaped();
    } else {
      KeyStep(key);
      KeyHasNoSeparator(key[1..]);
    }
  }

  lemma {:induction false} FirstSeparator(a: string, rest: string)
    requires forall i | 0 <= i < |a| :: !IsSeparator(a[i])
    requires rest != "" && IsSeparator(rest[0])
    ensures SeparatorAt(a + rest) == |a|
  {
    if a == "" {
      assert a + rest == rest;
    } else {
      assert (a + rest)[1..] == a[1..] + rest;
      FirstSeparator(a[1..], rest);
    }
  }

  lemma Trims(line: string)
    requires line != "" && !IsSpace(line[0])
    ensures Trim(line) == TrimEnd(line)
  {
  }

  /** A line starts with its key, or with the equals sign. */
  lemma LineStart(key: string, v: string)
    requires key == "" || !IsSeparator(key[0])
    ensures var line := Line(key, v);
            line != "" && line[0] == (if key == "" then '=' else if key[0] == '\\' then '\\' else key[0])
    ensures !IsSpace(Line(key, v)[0])
  {
    hide PropertiesKey, PropertiesValue;
    if key == "" {
      NothingEscaped();
    } else {
      KeyStep(key);
    }
  }

  /** A trimmed line reads as its entry. */
  lemma EntryOfLine(key: string, v: string)
    requires KeyOk(key) && StripEnd(v) == v
    ensures Entry(Line(key, v)) == Ok(Some((key, StripStart(v))))
  {
    hide PropertiesKey, PropertiesValue, Trim, TrimEnd, Unescape, StripEnd, StripStart, IsSpace;
    var line, k, rest := Line(key, v), PropertiesKey(key), "=" + PropertiesValue(v);
    assert line == k + rest;
    KeyHasNoSeparator(key);
    LineStart(key, v);
    Trims(line);
    TrimLine(key, v);
    FirstSeparator(k, rest);
    assert line[..|k|] == k && line[|k|..] == rest && rest[1..] == PropertiesValue(v);
    UnescapeKey(key, "");
    UnescapeNothing();
    assert k + "" == k && key + "" == key;
    TrimValue(v);
    UnescapeValue(StripStart(v));
  }

  lemma {:induction false} LinesOfText(lines: seq<string>)
    requires forall i | 0 <= i < |lines| :: '\n' !in lines[i]
    ensures Lines(Text(lines)) == lines
  {
    if lines != [] {
      var text := Text(lines);
      assert text == lines[0] + ("\n" + Text(lines[1..]));
      EndsAt(lines[0], "\n" + Text(lines[1..]));
      assert text[..|lines[0]|] == lines[0] && text[|lines[0]| + 1..] == Text(lines[1..]);
      LinesOfText(lines[1..]);
    }
  }

  lemma {:induction false} EndsAt(a: string, rest: string)
    requires '\n' !in a && rest != "" && rest[0] == '\n'
    ensures LineEnd(a + rest) == |a|
  {
    if a == "" {
      assert a + rest == rest;
    } else {
      assert (a + rest)[1..] == a[1..] + rest;
      EndsAt(a[1..], rest);
    }
  }

  /** A line has no line feed in it unless the key has. */
  lemma {:induction false} NoLineFeed(key: string, v: string)
    requires '\n' !in key
    ensures '\n' !in Line(key, v)
  {
    hide PropertiesKey, PropertiesValue;
    if key != "" {
      KeyStep(key);
      NoLineFeed(key[1..], v);
      assert Line(key, v) == KeyChar(key[0]) + Line(key[1..], v);
    } else if v != "" {
      ValueLast(v);
      NoLineFeed(key, v[..|v| - 1]);
      assert Line(key, v) == Line(key, v[..|v| - 1]) + ValueChar(v[|v| - 1]);
    } else {
      NothingEscaped();
    }
  }

  function LinesOf(entries: seq<(string, string)>): seq<string> {
    if entries == [] then [] else [Line(entries[0].0, entries[0].1)] + LinesOf(entries[1..])
  }

  /** The map that entries build up; later ones win. */
  function MapOf(entries: seq<(string, string)>, base: map<string, string>): map<string, string> {
    if entries == [] then base else MapOf(entries[1..], base[entries[0].0 := entries[0].1])
  }

  function StrippedEntries(entries: seq<(string, string)>): seq<(string, string)> {
    if entries == [] then [] else [(entries[0].0, Stripped(entries[0].1))] + StrippedEntries(entries[1..])
  }

  lemma {:induction false} CollectLines(entries: seq<(string, string)>, base: map<string, string>)
    requires forall i | 0 <= i < |entries| :: KeyOk(entries[i].0)
    ensures Collect(LogicalLines(LinesOf(entries), ""), base) == Ok(MapOf(StrippedEntries(entries), base))
  {
    hide Line, TrimEnd, Slashes, Entry, KeyOk, StripStart, StripEnd;
    if entries != [] {
      var (key, v) := entries[0];
      var lines, line := LinesOf(entries), Line(key, StripEnd(v));
      TrimLine(key, v);
      EvenSlashes(key, StripEnd(v));
      assert lines[0] == Line(key, v) && lines[1..] == LinesOf(entries[1..]);
      assert "" + line == line;
      assert LogicalLines(lines, "") == [line] + LogicalLines(lines[1..], "");
      StripShape(v);
      EntryOfLine(key, StripEnd(v));
      var rest := LogicalLines(lines[1..], "");
      assert ([line] + rest)[1..] == rest;
      CollectLines(entries[1..], base[key := Stripped(v)]);
      assert StrippedEntries(entries)[1..] == StrippedEntries(entries[1..]);
    }
  }

  lemma {:induction false} LinesHaveNoFeed(entries: seq<(string, string)>)
    requires forall i | 0 <= i < |entries| :: KeyOk(entries[i].0)
    ensures forall i | 0 <= i < |LinesOf(entries)| :: '\n' !in LinesOf(entries)[i]
  {
    hide Line;
    if entries != [] {
      var key := entries[0].0;
      assert IsSeparator('\n');
      NoLineFeed(key, entries[0].1);
      LinesHaveNoFeed(entries[1..]);
    }
  }

  /**
   * Reading a written file gives back every key that has no separator in it and does not look like a comment, with
   * its value stripped; values may hold anything, line breaks and backslashes included.
   */
  lemma {:induction false} FileIsReadBack(entries: seq<(string, string)>)
    requires forall i | 0 <= i < |entries| :: KeyOk(entries[i].0)
    ensures ParseProperties(Text(LinesOf(entries))) == Ok(MapOf(StrippedEntries(entries), map[]))
  {
    hide Lines, LogicalLines, Collect, Text, LinesOf, KeyOk, MapOf, StrippedEntries;
    LinesHaveNoFeed(entries);
    LinesOfText(LinesOf(entries));
    CollectLines(entries, map[]);
  }

  /** So the file round-trips exactly if no value is stripped. */
  lemma {:induction false} FileRoundTrip(entries: seq<(string, string)>)
    requires forall i | 0 <= i < |entries| :: KeyOk(entries[i].0)
    requires forall i, j | 0 <= i < j < |entries| :: entries[i].0 != entries[j].0
    ensures ParseProperties(Text(LinesOf(entries))) == Ok(MapOf(entries, map[]))
            <==> forall i | 0 <= i < |entries| :: ValueOk(entries[i].1)
  {
    hide ParseProperties, KeyOk, Stripped, ValueOk;
    FileIsReadBack(entries);
    SameMap(entries, map[], map[]);
  }

  /** Entries with distinct keys determine the map they build. */
  lemma {:induction false} SameMap(entries: seq<(string, string)>, a: map<string, string>, b: map<string, string>)
    requires forall i, j | 0 <= i < j < |entries| :: entries[i].0 != entries[j].0
    requires forall i | 0 <= i < |entries| :: entries[i].0 !in a && entries[i].0 !in b
    ensures MapOf(StrippedEntries(entries), a) == MapOf(entries, b)
            <==> a == b && forall i | 0 <= i < |entries| :: ValueOk(entries[i].1)
  {
    hide Stripped, ValueOk;
    if entries != [] {
      var (key, v) := entries[0];
      var a', b' := a[key := Stripped(v)], b[key := v];
      StrippedIsSame(v);
      assert StrippedEntries(entries)[1..] == StrippedEntries(entries[1..]);
      SameMap(entries[1..], a', b');
      assert a' == b' <==> a == b && Stripped(v) == v by {
        assert a' == b' ==> a'[key] == b'[key];
        assert a == a' - {key} && b == b' - {key};
      }
    }
  }

  // ---- Keys that are not read back ----

  /** The part of the text before its first separator. */
  function Head(key: string): string { key[..SeparatorAt(key)] }

  lemma {:induction false} HeadShape(key: string)
    ensures forall i | 0 <= i < |Head(key)| :: !IsSeparator(Head(key)[i])
    ensures Head(key) != key ==> |Head(key)| < |key| && IsSeparator(key[|Head(key)|])
    ensures key == Head(key) + key[|Head(key)|..]
  {
    if key != "" && !IsSeparator(key[0]) {
      HeadShape(key[1..]);
      assert Head(key) == [key[0]] + Head(key[1..]);
    }
  }

  lemma {:induction false} KeyConcat(a: string, b: string)
    ensures PropertiesKey(a + b) == PropertiesKey(a) + PropertiesKey(b)
  {
    hide PropertiesKey, KeyChar;
    if a == "" {
      NothingEscaped();
      assert a + b == b;
    } else {
      KeyStep(a);
      KeyStep(a + b);
      assert (a + b)[1..] == a[1..] + b;
      KeyConcat(a[1..], b);
    }
  }

  /** Where the reader cuts a written line: at the first separator of the key, though the writer escaped it. */
  lemma CutAt(key: string, v: string)
    ensures var line, x, i := Line(key, v), Head(key), SeparatorAt(Line(key, v));
            i < |line|
            && line[..i] == PropertiesKey(x)
                            + if x != key && !IsSpace(key[|x|]) then "\\" else ""
  {
    hide PropertiesKey, PropertiesValue, IsSpace, SeparatorAt;
    var line, x := Line(key, v), Head(key);
    HeadShape(key);
    KeyHasNoSeparator(x);
    if x == key {
      FirstSeparator(PropertiesKey(key), "=" + PropertiesValue(v));
      assert line == PropertiesKey(key) + ("=" + PropertiesValue(v));
      assert line[..|PropertiesKey(key)|] == PropertiesKey(key) + "";
    } else {
      var rest := key[|x|..];
      KeyConcat(x, rest);
      KeyStep(rest);
      var tail := PropertiesKey(rest[1..]) + "=" + PropertiesValue(v);
      assert line == PropertiesKey(x) + (KeyChar(key[|x|]) + tail);
      CutInside(PropertiesKey(x), key[|x|], tail);
    }
  }

  lemma CutInside(before: string, c: char, tail: string)
    requires IsSeparator(c) && forall i | 0 <= i < |before| :: !IsSeparator(before[i])
    ensures var line := before + (KeyChar(c) + tail);
            && SeparatorAt(line) < |line|
            && line[..SeparatorAt(line)] == before + if IsSpace(c) then "" else "\\"
  {
    hide IsSpace, SeparatorAt;
    SeparatorKeyChar(c);
    if IsSpace(c) {
      FirstSeparator(before, KeyChar(c) + tail);
    } else {
      assert before + (KeyChar(c) + tail) == before + "\\" + ([c] + tail);
      FirstSeparator(before + "\\", [c] + tail);
    }
  }

  lemma SeparatorKeyChar(c: char)
    requires IsSeparator(c)
    ensures KeyChar(c) == if IsSpace(c) then [c] else "\\" + [c]
    ensures !IsSeparator('\\')
  {
  }

  /** The key that the reader finds has no separator in it. */
  lemma FoundKey(key: string, v: string)
    ensures var line := Line(key, v); var found := Unescape(line[..SeparatorAt(line)]);
            && SeparatorAt(line) < |line|
            && found.Ok? && forall i | 0 <= i < |found.value| :: !IsSeparator(found.value[i])
  {
    hide PropertiesKey, PropertiesValue, Unescape, IsSpace;
    CutAt(key, v);
    HeadShape(key);
    var x := Head(key);
    var extra := if x != key && !IsSpace(key[|x|]) then "\\" else "";
    UnescapeKey(x, extra);
    UnescapeNothing();
    assert !IsSeparator('\\') by {
      SeparatorKeyChar('=');
    }
  }

  lemma {:induction false} TrimKey(key: string, v: string)
    ensures TrimStart(Line(key, v)) == Line(TrimStart(key), v)
    ensures TrimStart(key) == "" || !IsSpace(TrimStart(key)[0])
  {
    hide PropertiesKey, PropertiesValue;
    if key == "" {
      NothingEscaped();
      assert Line(key, v)[0] == '=';
    } else {
      KeyStep(key);
      assert Line(key, v) == KeyChar(key[0]) + Line(key[1..], v);
      if IsSpace(key[0]) {
        assert Line(key, v)[1..] == Line(key[1..], v);
        TrimKey(key[1..], v);
      }
    }
  }

  /** What the reader makes of one written line, whatever the key. */
  lemma EntryOfAnyLine(key: string, v: string)
    requires StripEnd(v) == v
    ensures var e, k := Entry(Line(key, v)), TrimStart(key);
            && (k != "" && (k[0] == '#' || k[0] == '!') ==> e == Ok(None))
            && (e.Ok? && e.value.Some? ==> forall i | 0 <= i < |e.value.value.0| :: !IsSeparator(e.value.value.0[i]))
  {
    hide PropertiesKey, PropertiesValue, Unescape, IsSpace, StripEnd, SeparatorAt, TrimStart, TrimEnd, TrimSeparators;
    var k := TrimStart(key);
    TrimKey(key, v);
    TrimLine(k, v);
    FoundKey(k, v);
    if k != "" && (k[0] == '#' || k[0] == '!') {
      KeyStep(k);
      assert Line(k, v)[0] == k[0];
    }
  }

  /** A key on its own line comes back exactly if it has no separator in it and does not look like a comment. */
  lemma KeyComesBack(key: string, v: string)
    requires '\n' !in key
    ensures var r := ParseProperties(Text([Line(key, v)]));
            (r.Ok? && key in r.value) <==> KeyOk(key)
  {
    hide Line, Entry, Lines, LogicalLines, Slashes, Text, TrimEnd, StripEnd, StripStart, KeyOk, IsSeparator, TrimStart;
    var line := Line(key, StripEnd(v));
    NoLineFeed(key, v);
    LinesOfText([Line(key, v)]);
    TrimLine(key, v);
    EvenSlashes(key, StripEnd(v));
    OneLogicalLine(Line(key, v));
    StripShape(v);
    if KeyOk(key) {
      EntryOfLine(key, StripEnd(v));
      OneEntry(line, key, StripStart(StripEnd(v)));
    } else {
      EntryOfAnyLine(key, StripEnd(v));
      NotFound(key, line);
    }
  }

  /** Such a key: the equals sign is escaped, and yet the line is cut there. */
  lemma KeyIsCut()
    ensures ParseProperties(Text([Line("a=b", "v")])) == Ok(map["a\\" := "b=v"])
  {
    hide Unescape, PropertiesKey, PropertiesValue, LogicalLines, Lines, TrimEnd;
    var line := "a\\=b=v";
    assert PropertiesKey("a=b") == "a\\=b" && PropertiesValue("v") == "v" by {
      CutKeyWritten();
    }
    assert Line("a=b", "v") == line;
    NoLineFeed("a=b", "v");
    LinesOfText([line]);
    NoTrim(line);
    assert Slashes(line) == 0;
    OneLogicalLine(line);
    CutEntry();
    OneEntry(line, "a\\", "b=v");
  }

  lemma CutKeyWritten()
    ensures PropertiesKey("a=b") == "a\\=b" && PropertiesValue("v") == "v"
  {
    hide Replace;
    KeyStep("a=b");
    KeyStep("=b");
    KeyStep("b");
    ValueStep("v");
    NothingEscaped();
    assert "a=b"[1..] == "=b" && "=b"[1..] == "b" && "b"[1..] == "" && "v"[1..] == "";
  }

  lemma CutEntry()
    ensures Entry("a\\=b=v") == Ok(Some(("a\\", "b=v")))
  {
    hide Unescape, TrimEnd;
    var line := "a\\=b=v";
    NoTrim(line);
    Trims(line);
    FirstSeparator("a\\", "=b=v");
    assert line == "a\\" + "=b=v" && line[..2] == "a\\" && line[2..] == "=b=v";
    assert "=b=v"[1..] == "b=v" && TrimSeparators("b=v") == "b=v";
    CutParts();
  }

  lemma CutParts()
    ensures Unescape("a\\") == Ok("a\\") && Unescape("b=v") == Ok("b=v")
  {
    assert "a\\"[1..] == "\\" && "b=v"[1..] == "=v" && "=v"[1..] == "v" && "v"[1..] == "";
    UnescapeNothing();
    assert ['a'] + "\\" == "a\\" && ['v'] + "" == "v" && ['='] + "v" == "=v" && ['b'] + "=v" == "b=v";
    assert Unescape("v") == Ok("v") && Unescape("=v") == Ok("=v");
  }

  lemma OneEntry(line: string, key: string, value: string)
    requires Entry(line) == Ok(Some((key, value)))
    ensures Collect([line], map[]) == Ok(map[key := value])
  {
    hide Entry;
    assert [line][1..] == [];
  }

  lemma OneLogicalLine(line: string)
    requires Slashes(TrimEnd(line)) % 2 == 0
    ensures LogicalLines([line], "") == [TrimEnd(line)]
  {
    assert [line][1..] == [];
    assert "" + TrimEnd(line) == TrimEnd(line);
  }

  lemma NotFound(key: string, line: string)
    requires !KeyOk(key)
    requires var e, k := Entry(line), TrimStart(key);
            && (k != "" && (k[0] == '#' || k[0] == '!') ==> e == Ok(None))
            && (e.Ok? && e.value.Some? ==> forall i | 0 <= i < |e.value.value.0| :: !IsSeparator(e.value.value.0[i]))
    ensures var r := Collect([line], map[]); r.Ok? ==> key !in r.value
  {
    hide Entry;
    assert [line][1..] == [];
  }
}
