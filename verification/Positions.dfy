/** Source positions and their order (rustium-core, event.rs). */
module Positions {
  import opened Prelude
  import opened Decimals

  datatype Json =
    | JNull
    | JBool(flag: bool)
    | JNumber(digits: string)
    | JString(text: string)
    | JArray(items: seq<Json>)
    | JObject(fields: map<string, Json>)

  datatype PostgresPosition = PostgresPosition(
    lsn: nat, commitLsn: Option<nat>, transactionId: Option<nat>, xmin: Option<nat>, eventSerial: nat, snapshot: bool)

  datatype MySqlPosition = MySqlPosition(
    binlogFilename: string, binlogPosition: nat, gtidSet: Option<string>, serverId: nat, eventSerial: nat,
    snapshot: bool)

  datatype SqlServerPosition = SqlServerPosition(
    database: string, commitLsn: string, changeLsn: string, eventSerial: nat, snapshot: bool)

  datatype OraclePosition = OraclePosition(
    scn: nat, commitScn: Option<nat>, transactionId: Option<string>, rsId: Option<string>, ssn: Option<nat>,
    eventSerial: nat, snapshot: bool)

  datatype MongoDbPosition = MongoDbPosition(
    resumeToken: Option<string>, clusterTimeSeconds: Option<nat>, clusterTimeIncrement: Option<nat>,
    eventSerial: nat, snapshot: bool)

  datatype DebeziumPosition = DebeziumPosition(
    connector: string, source: map<string, Json>, recordId: string, eventSerial: nat, snapshot: bool)

  datatype SourcePosition =
    | Postgres(postgres: PostgresPosition)
    | MySql(mysql: MySqlPosition)
    | SqlServer(sqlserver: SqlServerPosition)
    | Oracle(oracle: OraclePosition)
    | MongoDb(mongodb: MongoDbPosition)
    | Debezium(debezium: DebeziumPosition)

  /** One component of a sort key: a number or a piece of text. */
  datatype KeyPart = Num(n: nat) | Text(s: string)

  predicate CharLess(a: char, b: char) { a < b }

  predicate TextLess(a: string, b: string) { LexLess(CharLess, a, b) }

  predicate PartLess(a: KeyPart, b: KeyPart) {
    match (a, b)
    case (Num(m), Num(n)) => m < n
    case (Text(s), Text(t)) => TextLess(s, t)
    case (Num(_), Text(_)) => true
    case (Text(_), Num(_)) => false
  }

  function Streaming(snapshot: bool): KeyPart { Num(if snapshot then 0 else 1) }

  function ValueOr(value: Option<nat>, default: nat): nat {
    if value.Some? then value.value else default
  }

  /** The key that `sort_key` builds for each variant; a Debezium connector name is compared separately. */
  function SortKey(p: SourcePosition): seq<KeyPart> {
    match p
    case Postgres(q) => [Num(q.lsn), Streaming(q.snapshot), Num(q.eventSerial)]
    case MySql(q) => [Text(q.binlogFilename), Num(q.binlogPosition), Streaming(q.snapshot), Num(q.eventSerial)]
    case SqlServer(q) =>
      [Text(q.database), Text(q.commitLsn), Text(q.changeLsn), Streaming(q.snapshot), Num(q.eventSerial)]
    case Oracle(q) => [Num(ValueOr(q.commitScn, q.scn)), Streaming(q.snapshot), Num(q.eventSerial)]
    case MongoDb(q) =>
      [Num(ValueOr(q.clusterTimeSeconds, 0)), Num(ValueOr(q.clusterTimeIncrement, 0)),
       Streaming(q.snapshot), Num(q.eventSerial)]
    case Debezium(q) => [Streaming(q.snapshot), Num(q.eventSerial)]
  }

  predicate SameVariant(a: SourcePosition, b: SourcePosition) {
    match (a, b)
    case (Postgres(_), Postgres(_)) => true
    case (MySql(_), MySql(_)) => true
    case (SqlServer(_), SqlServer(_)) => true
    case (Oracle(_), Oracle(_)) => true
    case (MongoDb(_), MongoDb(_)) => true
    case (Debezium(p), Debezium(q)) => p.connector == q.connector
    case _ => false
  }

  predicate IsAfter(self: SourcePosition, other: SourcePosition) {
    SameVariant(self, other) && LexLess(PartLess, SortKey(other), SortKey(self))
  }

  predicate IsAtOrBefore(self: SourcePosition, other: SourcePosition) {
    self == other || IsAfter(other, self)
  }

  lemma TextLessIsStrictTotal()
    ensures StrictTotal(TextLess)
  {
    assert StrictTotal(CharLess);
    forall x: string
      ensures !TextLess(x, x)
    {
      LexIrreflexive(CharLess, x);
    }
    forall x, y, z | TextLess(x, y) && TextLess(y, z)
      ensures TextLess(x, z)
    {
      LexTransitive(CharLess, x, y, z);
    }
    forall x, y
      ensures TextLess(x, y) || x == y || TextLess(y, x)
    {
      LexTrichotomy(CharLess, x, y);
    }
    forall x, y | TextLess(x, y)
      ensures !TextLess(y, x)
    {
      if TextLess(y, x) {
        LexTransitive(CharLess, x, y, x);
        LexIrreflexive(CharLess, x);
      }
    }
  }

  lemma PartLessIsStrictTotal()
    ensures StrictTotal(PartLess)
  {
    TextLessIsStrictTotal();
  }

  /** `is_after` is a strict order, whatever the variants. */
  lemma IsAfterIsStrictOrder(a: SourcePosition, b: SourcePosition, c: SourcePosition)
    ensures !IsAfter(a, a)
    ensures IsAfter(a, b) ==> !IsAfter(b, a)
    ensures IsAfter(a, b) && IsAfter(b, c) ==> IsAfter(a, c)
  {
    PartLessIsStrictTotal();
    LexIrreflexive(PartLess, SortKey(a));
    if IsAfter(a, b) && IsAfter(b, a) {
      LexTransitive(PartLess, SortKey(a), SortKey(b), SortKey(a));
    }
    if IsAfter(a, b) && IsAfter(b, c) {
      LexTransitive(PartLess, SortKey(c), SortKey(b), SortKey(a));
    }
  }

  /** `is_at_or_before` is a partial order. */
  lemma IsAtOrBeforeIsPartialOrder(a: SourcePosition, b: SourcePosition, c: SourcePosition)
    ensures IsAtOrBefore(a, a)
    ensures IsAtOrBefore(a, b) && IsAtOrBefore(b, a) ==> a == b
    ensures IsAtOrBefore(a, b) && IsAtOrBefore(b, c) ==> IsAtOrBefore(a, c)
  {
    IsAfterIsStrictOrder(c, b, a);
    IsAfterIsStrictOrder(b, a, b);
  }

  /** Two positions of one source are comparable exactly when their keys differ or they are equal. */
  lemma Comparable(a: SourcePosition, b: SourcePosition)
    ensures IsAtOrBefore(a, b) || IsAtOrBefore(b, a)
            <==> a == b || (SameVariant(a, b) && SortKey(a) != SortKey(b))
  {
    PartLessIsStrictTotal();
    if SameVariant(a, b) {
      LexTrichotomy(PartLess, SortKey(a), SortKey(b));
      LexIrreflexive(PartLess, SortKey(a));
    }
  }

  /** Positions of different kinds, or of different Debezium connectors, are never ordered. */
  lemma ForeignPositionsUnordered(a: SourcePosition, b: SourcePosition)
    requires || a.Postgres? != b.Postgres? || a.MySql? != b.MySql? || a.SqlServer? != b.SqlServer?
             || a.Oracle? != b.Oracle? || a.MongoDb? != b.MongoDb? || a.Debezium? != b.Debezium?
             || (a.Debezium? && b.Debezium? && a.debezium.connector != b.debezium.connector)
    ensures !IsAfter(a, b) && !IsAfter(b, a) && !IsAtOrBefore(a, b)
  {
  }

  /** `(s, m)` comes after `(t, n)`: streaming after snapshot, then by serial. */
  predicate LaterEvent(s: bool, m: nat, t: bool, n: nat) { (!s && t) || (s == t && m > n) }

  lemma EventParts(s: bool, m: nat, t: bool, n: nat)
    ensures LexLess(PartLess, [Streaming(t), Num(n)], [Streaming(s), Num(m)]) <==> LaterEvent(s, m, t, n)
  {
    KeyStep(Num(n), [], Num(m), []);
    KeyStep(Streaming(t), [Num(n)], Streaming(s), [Num(m)]);
    assert [Streaming(t)] + [Num(n)] == [Streaming(t), Num(n)] && [Streaming(s)] + [Num(m)] == [Streaming(s), Num(m)];
  }

  /** Postgres: the log sequence number, then streaming after snapshot, then the serial. */
  lemma PostgresOrder(a: PostgresPosition, b: PostgresPosition)
    ensures IsAfter(Postgres(a), Postgres(b))
            <==> || a.lsn > b.lsn
                 || (a.lsn == b.lsn && !a.snapshot && b.snapshot)
                 || (a.lsn == b.lsn && a.snapshot == b.snapshot && a.eventSerial > b.eventSerial)
  {
    var j, k := SortKey(Postgres(b)), SortKey(Postgres(a));
    KeyStep(Num(b.eventSerial), [], Num(a.eventSerial), []);
    KeyStep(Streaming(b.snapshot), [Num(b.eventSerial)], Streaming(a.snapshot), [Num(a.eventSerial)]);
    KeyStep(j[0], j[1..], k[0], k[1..]);
    assert j == [j[0]] + j[1..] && k == [k[0]] + k[1..];
    assert j[1..] == [j[1]] + [j[2]] && k[1..] == [k[1]] + [k[2]];
  }

  /** SQL Server: the database and the commit and change numbers as texts, then streaming, then the serial. */
  lemma SqlServerOrder(a: SqlServerPosition, b: SqlServerPosition)
    ensures IsAfter(SqlServer(a), SqlServer(b))
            <==> || TextLess(b.database, a.database)
                 || (a.database == b.database && TextLess(b.commitLsn, a.commitLsn))
                 || (a.database == b.database && a.commitLsn == b.commitLsn && TextLess(b.changeLsn, a.changeLsn))
                 || (a.database == b.database && a.commitLsn == b.commitLsn && a.changeLsn == b.changeLsn
                     && LaterEvent(a.snapshot, a.eventSerial, b.snapshot, b.eventSerial))
  {
    hide TextLess;
    var u, v := [Streaming(b.snapshot), Num(b.eventSerial)], [Streaming(a.snapshot), Num(a.eventSerial)];
    var x, y := [Text(b.changeLsn)] + u, [Text(a.changeLsn)] + v;
    var s, t := [Text(b.commitLsn)] + x, [Text(a.commitLsn)] + y;
    EventParts(a.snapshot, a.eventSerial, b.snapshot, b.eventSerial);
    KeyStep(Text(b.changeLsn), u, Text(a.changeLsn), v);
    KeyStep(Text(b.commitLsn), x, Text(a.commitLsn), y);
    KeyStep(Text(b.database), s, Text(a.database), t);
    assert SortKey(SqlServer(b)) == [Text(b.database)] + s && SortKey(SqlServer(a)) == [Text(a.database)] + t;
    IrreflexiveTexts(a.database, a.commitLsn, a.changeLsn);
  }

  lemma IrreflexiveTexts(a: string, b: string, c: string)
    ensures !TextLess(a, a) && !TextLess(b, b) && !TextLess(c, c)
  {
    LexIrreflexive(CharLess, a);
    LexIrreflexive(CharLess, b);
    LexIrreflexive(CharLess, c);
  }

  /** Oracle: the commit number, or the change number where there is none, then streaming, then the serial. */
  lemma OracleOrder(a: OraclePosition, b: OraclePosition)
    ensures var m := match a.commitScn case Some(n) => n case None => a.scn;
            var n := match b.commitScn case Some(n) => n case None => b.scn;
            IsAfter(Oracle(a), Oracle(b))
            <==> m > n || (m == n && LaterEvent(a.snapshot, a.eventSerial, b.snapshot, b.eventSerial))
  {
    var u, v := [Streaming(b.snapshot), Num(b.eventSerial)], [Streaming(a.snapshot), Num(a.eventSerial)];
    var j, k := SortKey(Oracle(b)), SortKey(Oracle(a));
    EventParts(a.snapshot, a.eventSerial, b.snapshot, b.eventSerial);
    KeyStep(j[0], u, k[0], v);
    assert j == [j[0]] + u && k == [k[0]] + v;
  }

  /** MongoDB: seconds and increment of the cluster time, zero where absent, then streaming, then the serial. */
  lemma MongoDbOrder(a: MongoDbPosition, b: MongoDbPosition)
    ensures var (s, t) := (match a.clusterTimeSeconds case Some(n) => n case None => 0,
                           match b.clusterTimeSeconds case Some(n) => n case None => 0);
            var (i, j) := (match a.clusterTimeIncrement case Some(n) => n case None => 0,
                           match b.clusterTimeIncrement case Some(n) => n case None => 0);
            IsAfter(MongoDb(a), MongoDb(b))
            <==> || s > t || (s == t && i > j)
                 || (s == t && i == j && LaterEvent(a.snapshot, a.eventSerial, b.snapshot, b.eventSerial))
  {
    var u, v := [Streaming(b.snapshot), Num(b.eventSerial)], [Streaming(a.snapshot), Num(a.eventSerial)];
    var j, k := SortKey(MongoDb(b)), SortKey(MongoDb(a));
    EventParts(a.snapshot, a.eventSerial, b.snapshot, b.eventSerial);
    KeyStep(j[1], u, k[1], v);
    KeyStep(j[0], [j[1]] + u, k[0], [k[1]] + v);
    assert j == [j[0]] + ([j[1]] + u) && k == [k[0]] + ([k[1]] + v);
  }

  /** The order of Debezium positions in one line: streaming beats snapshot, then the serial decides. */
  lemma DebeziumOrder(a: DebeziumPosition, b: DebeziumPosition)
    requires a.connector == b.connector
    ensures IsAfter(Debezium(a), Debezium(b))
            <==> (!a.snapshot && b.snapshot) || (a.snapshot == b.snapshot && a.eventSerial > b.eventSerial)
  {
    var j, k := SortKey(Debezium(b)), SortKey(Debezium(a));
    assert LexLess(PartLess, j[1..][1..], k[1..][1..]) == false;
    assert LexLess(PartLess, j[1..], k[1..]) <==> b.eventSerial < a.eventSerial;
  }

  // MySQL binlog names: a base followed by a decimal suffix.

  lemma {:induction false} NumericBound(s: string)
    requires Digits(s)
    ensures Numeric(s) < Pow10(|s|)
  {
    if s != [] {
      NumericFirst(s);
      NumericBound(s[1..]);
      ScaleLess(s[0] as int - '0' as int, 9, Pow10(|s| - 1));
    }
  }

  lemma {:induction false} ScaleLess(a: nat, b: nat, m: nat)
    requires a <= b
    ensures a * m <= b * m
    ensures a < b ==> a * m + m <= b * m
  {
    if a < b {
      ScaleLess(a, b - 1, m);
      assert b * m == (b - 1) * m + m;
    }
  }

  /** For suffixes of equal width the text order is the numeric order. */
  lemma {:induction false} EqualWidthOrder(a: string, b: string)
    requires Digits(a) && Digits(b) && |a| == |b|
    ensures TextLess(a, b) <==> Numeric(a) < Numeric(b)
    ensures Numeric(a) == Numeric(b) ==> a == b
  {
    if a != [] {
      NumericFirst(a);
      NumericFirst(b);
      NumericBound(a[1..]);
      NumericBound(b[1..]);
      EqualWidthOrder(a[1..], b[1..]);
      var m, x, y := Pow10(|a| - 1), a[0] as int - '0' as int, b[0] as int - '0' as int;
      if x < y {
        ScaleLess(x, y, m);
      } else if y < x {
        ScaleLess(y, x, m);
      } else {
        assert a == [a[0]] + a[1..] && b == [b[0]] + b[1..];
      }
    }
  }

  /** The order MySQL itself gives to (file number, offset, streaming, serial). */
  predicate MySqlBefore(m: nat, p: MySqlPosition, n: nat, q: MySqlPosition) {
    || m < n
    || (m == n && p.binlogPosition < q.binlogPosition)
    || (m == n && p.binlogPosition == q.binlogPosition && p.snapshot && !q.snapshot)
    || (m == n && p.binlogPosition == q.binlogPosition && p.snapshot == q.snapshot && p.eventSerial < q.eventSerial)
  }

  lemma KeyStep(x: KeyPart, a: seq<KeyPart>, y: KeyPart, b: seq<KeyPart>)
    ensures LexLess(PartLess, [x] + a, [y] + b) <==> if x == y then LexLess(PartLess, a, b) else PartLess(x, y)
  {
    assert ([x] + a)[1..] == a && ([y] + b)[1..] == b;
  }

  /** The sort key of a MySQL position is a lexicographic 4-tuple headed by the file name. */
  lemma MySqlKeyOrder(p: MySqlPosition, q: MySqlPosition)
    ensures IsAfter(MySql(q), MySql(p)) <==>
            if p.binlogFilename == q.binlogFilename then MySqlBefore(0, p, 0, q)
            else TextLess(p.binlogFilename, q.binlogFilename)
  {
    var s, t := Num(p.eventSerial), Num(q.eventSerial);
    KeyStep(s, [], t, []);
    var s', t' := Streaming(p.snapshot), Streaming(q.snapshot);
    KeyStep(s', [s], t', [t]);
    assert [s'] + [s] == [s', s] && [t'] + [t] == [t', t];
    var u, v := Num(p.binlogPosition), Num(q.binlogPosition);
    KeyStep(u, [s', s], v, [t', t]);
    assert [u] + [s', s] == [u, s', s] && [v] + [t', t] == [v, t', t];
    KeyStep(Text(p.binlogFilename), [u, s', s], Text(q.binlogFilename), [v, t', t]);
    assert [Text(p.binlogFilename)] + [u, s', s] == SortKey(MySql(p));
    assert [Text(q.binlogFilename)] + [v, t', t] == SortKey(MySql(q));
  }

  /** With one base name and suffixes of one width, `is_after` is the numeric order of the binlog. */
  lemma {:induction false} MySqlOrderIsNumeric(base: string, a: string, b: string, p: MySqlPosition, q: MySqlPosition)
    requires Digits(a) && Digits(b) && |a| == |b|
    requires p.binlogFilename == base + a && q.binlogFilename == base + b
    ensures IsAfter(MySql(q), MySql(p)) <==> MySqlBefore(Numeric(a), p, Numeric(b), q)
  {
    hide IsAfter, SortKey, PartLess, LexLess;
    MySqlKeyOrder(p, q);
    LexCommonPrefix(CharLess, base, a, b);
    EqualWidthOrder(a, b);
    if a != b {
      assert (base + a)[|base|..] == a && (base + b)[|base|..] == b;
    }
  }

  /**
   * When the suffix grows by at least one digit (file 999999 is followed by 1000000) the later file
   * is recognised as later exactly if the earlier suffix does not exceed the leading digits of the later one.
   */
  lemma {:induction false} MySqlRolloverOrder(base: string, a: string, b: string, p: MySqlPosition, q: MySqlPosition)
    requires Digits(a) && Digits(b) && |a| < |b| && b[0] != '0'
    requires p.binlogFilename == base + a && q.binlogFilename == base + b
    ensures Numeric(a) < Numeric(b)
    ensures IsAfter(MySql(q), MySql(p)) <==> Numeric(a) <= Numeric(b[..|a|])
  {
    hide IsAfter, SortKey, PartLess, LexLess, Numeric, TextLess, MySqlBefore;
    LongerIsLarger(a, b);
    MySqlKeyOrder(p, q);
    assert |p.binlogFilename| != |q.binlogFilename|;
    TextCommonPrefix(base, a, b);
    PrefixOrder(a, b);
    EqualWidthOrder(a, b[..|a|]);
  }

  lemma TextCommonPrefix(base: string, a: string, b: string)
    ensures TextLess(base + a, base + b) == TextLess(a, b)
  {
    LexCommonPrefix(CharLess, base, a, b);
  }

  lemma LongerIsLarger(a: string, b: string)
    requires Digits(a) && Digits(b) && |a| < |b| && b[0] != '0'
    ensures Numeric(a) < Numeric(b)
  {
    NumericFirst(b);
    NumericBound(a);
    Pow10Monotone(|a|, |b| - 1);
    ScaleLess(1, b[0] as int - '0' as int, Pow10(|b| - 1));
  }

  lemma {:induction false} Pow10Monotone(j: nat, k: nat)
    requires j <= k
    ensures Pow10(j) <= Pow10(k)
  {
    if j < k {
      Pow10Monotone(j, k - 1);
    }
  }

  /** Against a longer text, the comparison looks at its leading part only. */
  lemma {:induction false} PrefixOrder(a: string, b: string)
    requires |a| < |b|
    ensures TextLess(a, b) <==> TextLess(a, b[..|a|]) || a == b[..|a|]
  {
    if a != [] {
      PrefixOrder(a[1..], b[1..]);
      assert b[..|a|][1..] == b[1..][..|a| - 1];
      if a[0] == b[0] && a[1..] == b[1..][..|a| - 1] {
        assert a == [a[0]] + a[1..] == b[..|a|];
      }
    }
  }

  /** The roll-over to seven digits is such a failing case. */
  lemma MySqlRolloverCounterexample()
    ensures var p := MySqlPosition("binlog.999999", 4, None, 1, 0, false);
            var q := MySqlPosition("binlog.1000000", 4, None, 1, 0, false);
            !IsAfter(MySql(q), MySql(p)) && IsAfter(MySql(p), MySql(q))
  {
    var a, b := "binlog.999999", "binlog.1000000";
    assert a == "binlog." + "999999" && b == "binlog." + "1000000";
    LexCommonPrefix(CharLess, "binlog.", "999999", "1000000");
    LexCommonPrefix(CharLess, "binlog.", "1000000", "999999");
    assert "999999"[0] == '9' && "1000000"[0] == '1';
    assert TextLess(b, a) && !TextLess(a, b);
    var p, q := MySqlPosition(a, 4, None, 1, 0, false), MySqlPosition(b, 4, None, 1, 0, false);
    assert |a| != |b|;
    MySqlKeyOrder(p, q);
    MySqlKeyOrder(q, p);
  }
}
