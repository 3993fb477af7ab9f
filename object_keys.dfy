/**
 * The object key under which one file is uploaded: the UTC clock reading formatted
 * with `%Y-%m-%d/%s_`, immediately followed by the file name exactly as the caller sent it.
 */
module ObjectKeys {
  import opened Outcomes

  type Year = y: int | 1000 <= y <= 9999 witness 1970
  type Month = m: int | 1 <= m <= 12 witness 1
  type Day = d: int | 1 <= d <= 31 witness 1

  /** One reading of the UTC wall clock: the calendar date and the seconds counter printed by `%s`. */
  datatype Reading = Reading(year: Year, month: Month, day: Day, seconds: nat)

  predicate IsDigit(c: char) {
    '0' <= c <= '9'
  }

  predicate AllDigits(s: string) {
    forall j :: 0 <= j < |s| ==> IsDigit(s[j])
  }

  function DigitChar(d: nat): (c: char)
    requires d < 10
    ensures IsDigit(c) && c as int - '0' as int == d
  {
    ('0' as int + d) as char
  }

  /** The number a string of decimal digits denotes, most significant digit first. */
  function Value(s: string): nat
    requires AllDigits(s)
    decreases |s|
  {
    if s == [] then 0
    else
      var front := s[..|s| - 1];
      assert forall j :: 0 <= j < |front| ==> front[j] == s[j];
      Value(front) * 10 + (s[|s| - 1] as int - '0' as int)
  }

  function Pow10(n: nat): nat {
    if n == 0 then 1 else 10 * Pow10(n - 1)
  }

  lemma ShiftDigit(x: int, p: int, y: int, d: int)
    ensures (x * p + y) * 10 + d == x * (p * 10) + (y * 10 + d)
  {
  }

  lemma {:induction false} ValueConcat(a: string, b: string)
    requires AllDigits(a) && AllDigits(b)
    ensures AllDigits(a + b)
    ensures Value(a + b) == Value(a) * Pow10(|b|) + Value(b)
    decreases |b|
  {
    assert AllDigits(a + b) by {
      forall j | 0 <= j < |a + b| ensures IsDigit((a + b)[j]) {
        if j < |a| { assert (a + b)[j] == a[j]; } else { assert (a + b)[j] == b[j - |a|]; }
      }
    }
    if b == [] {
      assert a + b == a;
    } else {
      var n := |b| - 1;
      var b' := b[..n];
      assert AllDigits(b') by {
        forall j | 0 <= j < n ensures IsDigit(b'[j]) { assert b'[j] == b[j]; }
      }
      ValueConcat(a, b');
      assert (a + b)[..|a + b| - 1] == a + b';
      assert b[..|b| - 1] == b';
      var digit := b[n] as int - '0' as int;
      assert Value(a + b) == Value(a + b') * 10 + digit;
      assert Value(b) == Value(b') * 10 + digit;
      assert Pow10(|b|) == Pow10(n) * 10;
      ShiftDigit(Value(a), Pow10(n), Value(b'), digit);
    }
  }

  /** `n` in decimal without leading zeros, as `%s` prints it; reading the digits back gives `n`. */
  function Decimal(n: nat): (s: string)
    ensures |s| >= 1 && AllDigits(s)
    ensures Value(s) == n
    ensures s[0] == '0' ==> s == "0"
    decreases n
  {
    if n < 10 then
      var s := [DigitChar(n)];
      assert s[..0] == [];
      s
    else
      var front := Decimal(n / 10);
      var s := front + [DigitChar(n % 10)];
      assert s[..|s| - 1] == front;
      s
  }

  /** A non-empty digit string whose first digit is not '0' denotes a positive number. */
  lemma {:induction false} LeadingDigitPositive(t: string)
    requires |t| >= 1 && AllDigits(t) && t[0] != '0'
    ensures Value(t) >= 1
    decreases |t|
  {
    if |t| > 1 {
      var front := t[..|t| - 1];
      assert AllDigits(front) by {
        forall j | 0 <= j < |front| ensures IsDigit(front[j]) { assert front[j] == t[j]; }
      }
      LeadingDigitPositive(front);
    }
  }

  /**
   * `%s` is the only way to write `n` in decimal without leading zeros: any digit string that
   * reads back as `n` and starts with '0' only when it is "0" is `Decimal(n)`.
   */
  lemma {:induction false} DecimalUnique(s: string, n: nat)
    requires |s| >= 1 && AllDigits(s) && Value(s) == n
    requires s[0] == '0' ==> s == "0"
    ensures s == Decimal(n)
    decreases |s|
  {
    var front := s[..|s| - 1];
    var digit := s[|s| - 1] as int - '0' as int;
    assert AllDigits(front) by {
      forall j | 0 <= j < |front| ensures IsDigit(front[j]) { assert front[j] == s[j]; }
    }
    assert Value(s) == Value(front) * 10 + digit;
    if |s| == 1 {
      assert front == [];
      assert s == [DigitChar(n)];
    } else {
      assert front[0] == s[0] != '0';
      LeadingDigitPositive(front);
      assert n / 10 == Value(front) && n % 10 == digit;
      DecimalUnique(front, n / 10);
      assert s == front + [DigitChar(n % 10)];
    }
  }

  /** `n` as exactly two digits with a leading zero, as `%m` and `%d` print it. */
  function TwoDigits(n: nat): (s: string)
    requires n < 100
    ensures |s| == 2 && AllDigits(s)
    ensures Value(s) == n
  {
    var s := [DigitChar(n / 10), DigitChar(n % 10)];
    assert s[..1] == [s[0]] && s[..1][..0] == [];
    assert Value(s[..1]) == n / 10;
    s
  }

  /** `n` as exactly four digits, as `%Y` prints a year from 1000 to 9999. */
  function FourDigits(n: nat): (s: string)
    requires n < 10000
    ensures |s| == 4 && AllDigits(s)
    ensures Value(s) == n
  {
    var s := TwoDigits(n / 100) + TwoDigits(n % 100);
    ValueConcat(TwoDigits(n / 100), TwoDigits(n % 100));
    assert Pow10(2) == 100;
    s
  }

  /** `%Y-%m-%d/%s_` of a reading. */
  function KeyPrefix(r: Reading): string {
    FourDigits(r.year) + "-" + TwoDigits(r.month) + "-" + TwoDigits(r.day) + "/" + Decimal(r.seconds) + "_"
  }

  /**
   * The prefix reads back field by field: four digits of the year, '-', two of the month,
   * '-', two of the day, '/', the seconds in decimal without leading zeros, and a closing '_'.
   */
  lemma KeyPrefixShape(r: Reading)
    ensures var p := KeyPrefix(r);
      && |p| >= 13
      && p[4] == '-' && p[7] == '-' && p[10] == '/' && p[|p| - 1] == '_'
      && AllDigits(p[..4]) && AllDigits(p[5..7]) && AllDigits(p[8..10]) && AllDigits(p[11..|p| - 1])
      && Value(p[..4]) == r.year && Value(p[5..7]) == r.month && Value(p[8..10]) == r.day
      && Value(p[11..|p| - 1]) == r.seconds
      && (p[11] == '0' ==> r.seconds == 0 && |p| == 13)
  {
    var y, m, d, s := FourDigits(r.year), TwoDigits(r.month), TwoDigits(r.day), Decimal(r.seconds);
    var p := KeyPrefix(r);
    assert p == y + "-" + m + "-" + d + "/" + s + "_";
    assert p[..4] == y && p[5..7] == m && p[8..10] == d && p[11..|p| - 1] == s;
  }

  /** The object key for a file name read at `r`: the name is kept verbatim at the end of the key. */
  function Key(r: Reading, name: string): (k: string)
    ensures |k| == |KeyPrefix(r)| + |name|
    ensures k[..|KeyPrefix(r)|] == KeyPrefix(r)
    ensures k[|k| - |name|..] == name
  {
    KeyPrefix(r) + name
  }

  /** The first index at or after `from` holding `c`, if any. */
  function FirstIndexOf(s: string, c: char, from: nat): (r: Option<nat>)
    requires from <= |s|
    ensures r.Some? ==> from <= r.value < |s| && s[r.value] == c
    ensures r.Some? ==> forall l :: from <= l < r.value ==> s[l] != c
    ensures r.None? ==> forall l :: from <= l < |s| ==> s[l] != c
    decreases |s| - from
  {
    if from == |s| then None
    else if s[from] == c then Some(from)
    else FirstIndexOf(s, c, from + 1)
  }

  /**
   * Splits a key back into the clock reading and the file name: the date fields sit at
   * fixed positions, the seconds run from position 11 to the first '_', and the name is the rest.
   */
  function ParseKey(k: string): Option<(Reading, string)> {
    if |k| < 13 || k[4] != '-' || k[7] != '-' || k[10] != '/' then None
    else if !AllDigits(k[..4]) || !AllDigits(k[5..7]) || !AllDigits(k[8..10]) then None
    else
      var year, month, day := Value(k[..4]), Value(k[5..7]), Value(k[8..10]);
      match FirstIndexOf(k, '_', 11)
      case None => None
      case Some(j) =>
        if 1000 <= year <= 9999 && 1 <= month <= 12 && 1 <= day <= 31 && 11 < j && AllDigits(k[11..j])
        then Some((Reading(year, month, day, Value(k[11..j])), k[j + 1..]))
        else None
  }

  /** Reading a key back recovers both the clock reading and the unmodified file name. */
  lemma ParseKeyInvertsKey(r: Reading, name: string)
    ensures ParseKey(Key(r, name)) == Some((r, name))
  {
    var p, k := KeyPrefix(r), Key(r, name);
    KeyPrefixShape(r);
    var j := |p| - 1;
    assert k[..4] == p[..4] && k[5..7] == p[5..7] && k[8..10] == p[8..10] && k[11..j] == p[11..j];
    assert forall l :: 11 <= l < j ==> k[l] != '_' by {
      forall l | 11 <= l < j ensures k[l] != '_' {
        assert k[l] == p[11..j][l - 11];
      }
    }
    assert k[j] == '_';
    assert FirstIndexOf(k, '_', 11) == Some(j);
    assert k[j + 1..] == name;
  }

  /**
   * Two keys coincide exactly when they were built from the same clock reading and the same
   * name: files of one batch collide only if they share a name and their readings agree.
   */
  lemma KeyInjective(r1: Reading, n1: string, r2: Reading, n2: string)
    ensures Key(r1, n1) == Key(r2, n2) <==> r1 == r2 && n1 == n2
  {
    if Key(r1, n1) == Key(r2, n2) {
      ParseKeyInvertsKey(r1, n1);
      ParseKeyInvertsKey(r2, n2);
    }
  }

  /** A worked key: the name is appended as sent, spaces, '#' and '/' included. */
  lemma ExampleKey(r: Reading, name: string)
    requires r == Reading(2024, 5, 7, 1715040000) && name == "../My File #1.PNG"
    ensures Key(r, name) == "2024-05-07/1715040000_../My File #1.PNG"
  {
    ExamplePrefix(r);
    JoinParts(KeyPrefix(r), name, "2024-05-07/1715040000_", "../My File #1.PNG");
    ExampleJoin();
  }

  lemma ExamplePrefix(r: Reading)
    requires r == Reading(2024, 5, 7, 1715040000)
    ensures KeyPrefix(r) == "2024-05-07/1715040000_"
  {
    ExampleDate();
    ExampleSeconds();
    PrefixFromParts(r, "2024", "05", "07", "1715040000");
    ExampleFields();
  }

  // ExampleJoin, ExampleFields, JoinParts and PrefixFromParts split the worked example into
  // steps small enough for the solver: a literal string fact is proved away from the clock reading.
  lemma ExampleJoin()
    ensures "2024-05-07/1715040000_" + "../My File #1.PNG" == "2024-05-07/1715040000_../My File #1.PNG"
  {
  }

  lemma ExampleFields()
    ensures "2024" + "-" + "05" + "-" + "07" + "/" + "1715040000" + "_" == "2024-05-07/1715040000_"
  {
  }

  lemma JoinParts(a: string, b: string, a': string, b': string)
    requires a == a' && b == b'
    ensures a + b == a' + b'
  {
  }

  lemma PrefixFromParts(r: Reading, y: string, m: string, d: string, s: string)
    requires FourDigits(r.year) == y && TwoDigits(r.month) == m && TwoDigits(r.day) == d && Decimal(r.seconds) == s
    ensures KeyPrefix(r) == y + "-" + m + "-" + d + "/" + s + "_"
  {
  }

  lemma ExampleDate()
    ensures FourDigits(2024) == "2024" && TwoDigits(5) == "05" && TwoDigits(7) == "07"
  {
    assert DigitChar(2) == '2' && DigitChar(0) == '0' && DigitChar(4) == '4';
    assert TwoDigits(20) == "20" && TwoDigits(24) == "24";
    assert 2024 / 100 == 20 && 2024 % 100 == 24;
    assert FourDigits(2024) == TwoDigits(20) + TwoDigits(24);
  }

  lemma ExampleSeconds()
    ensures Decimal(1715040000) == "1715040000"
  {
    ExampleSecondsFront();
    assert Decimal(1715040) == Decimal(171504) + "0" == "1715040";
    assert Decimal(17150400) == Decimal(1715040) + "0" == "17150400";
    assert Decimal(171504000) == Decimal(17150400) + "0" == "171504000";
    assert 1715040000 / 10 == 171504000 && 1715040000 % 10 == 0;
    assert Decimal(1715040000) == Decimal(171504000) + [DigitChar(0)];
  }

  lemma ExampleSecondsFront()
    ensures Decimal(171504) == "171504"
  {
    assert Decimal(1) == "1";
    assert Decimal(17) == Decimal(1) + "7" == "17";
    assert Decimal(171) == Decimal(17) + "1" == "171";
    assert Decimal(1715) == Decimal(171) + "5" == "1715";
    assert Decimal(17150) == Decimal(1715) + "0" == "17150";
    assert Decimal(171504) == Decimal(17150) + "4" == "171504";
  }
}
