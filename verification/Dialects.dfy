/** The two SQL dialects of the aggregate query: the bucket expressions and the `last` aggregate. */
module Dialects {
  import opened Calendar
  import opened Decimal

  // ---- last ---------------------------------------------------------------------------------

  /** GROUP_CONCAT without a length limit: the quantities printed and joined with commas. */
  function Joined(qs: seq<int>): string
    requires qs != []
  {
    Print(qs[0]) + (if |qs| == 1 then "" else "," + Joined(qs[1..]))
  }

  /** group_concat_max_len keeps the first `limit` characters. */
  function Truncated(s: string, limit: nat): string {
    if |s| <= limit then s else s[..limit]
  }

  /** SUBSTRING_INDEX(s, ',', 1) */
  function BeforeComma(s: string): string {
    if s == "" || s[0] == ',' then "" else [s[0]] + BeforeComma(s[1..])
  }

  /** CAST(SUBSTRING_INDEX(GROUP_CONCAT(quantity ORDER BY ...), ',', 1) AS SIGNED) on quantities in ORDER BY order. */
  function MysqlLast(qs: seq<int>, limit: nat): int
    requires qs != []
  {
    Parse(BeforeComma(Truncated(Joined(qs), limit)))
  }

  /** (ARRAY_AGG(quantity ORDER BY ...))[1] on the same quantities. */
  function PostgresLast(qs: seq<int>): int
    requires qs != []
  {
    qs[0]
  }

  lemma {:induction false} BeforeCommaStops(a: string, b: string)
    requires ',' !in a
    requires b == "" || b[0] == ','
    ensures BeforeComma(a + b) == a
  {
    if a == "" {
      assert a + b == b;
    } else {
      assert (a + b)[1..] == a[1..] + b;
      BeforeCommaStops(a[1..], b);
    }
  }

  /**
   * The two `last` expressions agree exactly when the length limit leaves the newest quantity whole, or that
   * quantity is 0, the one number a cut cannot change.
   */
  lemma LastAgreesExactly(qs: seq<int>, limit: nat)
    requires qs != []
    ensures MysqlLast(qs, limit) == PostgresLast(qs) <==> qs[0] == 0 || |Print(qs[0])| <= limit
  {
    var head, all := Print(qs[0]), Joined(qs);
    var rest := all[|head|..];
    assert all == head + rest && (rest == "" || rest[0] == ',');
    if |head| <= limit {
      var cut := Truncated(rest, limit - |head|);
      assert Truncated(all, limit) == head + cut;
      assert cut == "" || cut[0] == rest[0];
      BeforeCommaStops(head, cut);
      ParsePrint(qs[0]);
    } else {
      assert Truncated(all, limit) == head[..limit] + "";
      BeforeCommaStops(head[..limit], "");
      if qs[0] != 0 {
        ParsePrefixDiffers(qs[0], limit);
      } else {
        assert head[..limit] == "";
      }
    }
  }

  /** Twenty characters are enough for every 64-bit quantity, and nineteen are not. */
  lemma LastAgreesFromTwenty(qs: seq<int>, limit: nat)
    requires qs != [] && MIN_INT64 <= qs[0] <= MAX_INT64
    ensures limit >= 20 ==> MysqlLast(qs, limit) == PostgresLast(qs)
    ensures limit < 20 ==> MysqlLast([MIN_INT64], limit) != PostgresLast([MIN_INT64])
  {
    Int64Length(qs[0]);
    LastAgreesExactly(qs, limit);
    LastAgreesExactly([MIN_INT64], limit);
  }

  // ---- bucket -------------------------------------------------------------------------------

  /** A timestamp without time zone. */
  datatype Civil = Civil(year: int, month: int, day: int, hour: int, minute: int, second: int, nano: int)

  /** t AT TIME ZONE 'Asia/Shanghai' */
  function ToCivil(t: int): Civil {
    var n, rest := DayOf(t, SHANGHAI), TimeOfDay(t, SHANGHAI);
    var k := MonthOf(n);
    Civil(k / 12, k % 12 + 1, n - MonthStart(k) + 1, rest / 3_600_000_000_000,
          rest / 60_000_000_000 % 60, rest / 1_000_000_000 % 60, rest % 1_000_000_000)
  }

  /** c AT TIME ZONE 'Asia/Shanghai' */
  function ToInstant(c: Civil): int {
    Days(MonthStart(12 * c.year + (c.month - 1)) + (c.day - 1)) + Hours(c.hour)
      + c.minute * 60_000_000_000 + c.second * 1_000_000_000 + c.nano - SHANGHAI
  }

  /** date_trunc(g, c) */
  function DateTrunc(g: Granularity, c: Civil): Civil {
    match g
    case Hour => c.(minute := 0, second := 0, nano := 0)
    case Day => c.(hour := 0, minute := 0, second := 0, nano := 0)
    case Month => c.(day := 1, hour := 0, minute := 0, second := 0, nano := 0)
  }

  function PostgresBucket(g: Granularity, t: int): int {
    ToInstant(DateTrunc(g, ToCivil(t)))
  }

  predicate Printable(c: Civil) {
    0 <= c.year < 10_000 && 0 <= c.month < 100 && 0 <= c.day < 100 && 0 <= c.hour < 100
  }

  /** DATE_FORMAT(c, ...) with the format string of each granularity. */
  function DateFormat(g: Granularity, c: Civil): string
    requires Printable(c)
  {
    Padded(c.year, 4) + "-" + Padded(c.month, 2) + "-" + (if g.Month? then "01" else Padded(c.day, 2)) + " "
    + (if g.Hour? then Padded(c.hour, 2) else "00") + ":00:00"
  }

  /** CAST(s AS DATETIME) of a YYYY-MM-DD hh:mm:ss text. */
  function ParseDateTime(s: string): Civil
    requires |s| == 19
  {
    Civil(ReadDigits(s[0..4], 0), ReadDigits(s[5..7], 0), ReadDigits(s[8..10], 0), ReadDigits(s[11..13], 0),
          ReadDigits(s[14..16], 0), ReadDigits(s[17..19], 0), 0)
  }

  function MysqlBucket(g: Granularity, t: int): int
    requires Printable(ToCivil(t))
  {
    ToInstant(ParseDateTime(DateFormat(g, ToCivil(t))))
  }

  lemma CivilParts(t: int)
    ensures var c := ToCivil(t);
      && 1 <= c.month <= 12 && 1 <= c.day <= 31 && 0 <= c.hour < 24
      && 12 * c.year + (c.month - 1) == WindowIndex(Month, t)
      && MonthStart(12 * c.year + (c.month - 1)) + (c.day - 1) == WindowIndex(Day, t)
      && 24 * WindowIndex(Day, t) + c.hour == WindowIndex(Hour, t)
  {
    MonthLength(WindowIndex(Month, t));
    HourIndex(t);
  }

  lemma HourIndex(t: int)
    ensures (t + SHANGHAI) / 3_600_000_000_000
         == 24 * DayOf(t, SHANGHAI) + TimeOfDay(t, SHANGHAI) / 3_600_000_000_000
  {
  }

  /** Postgres' bucket is the window start. */
  lemma PostgresBucketIsBucket(g: Granularity, t: int)
    ensures PostgresBucket(g, t) == Bucket(g, t)
  {
    CivilParts(t);
  }

  lemma TwoDigits(n: nat)
    requires n < 100
    ensures ReadDigits(Padded(n, 2), 0) == n
  {
    assert Pow10(2) == 100;
    ReadPadded(n, 2);
  }

  lemma FormatParses(g: Granularity, c: Civil)
    requires Printable(c)
    ensures |DateFormat(g, c)| == 19 && ParseDateTime(DateFormat(g, c)) == DateTrunc(g, c).(minute := 0, second := 0, nano := 0)
  {
    var s := DateFormat(g, c);
    assert Pow10(4) == 10_000;
    ReadPadded(c.year, 4);
    TwoDigits(c.month);
    TwoDigits(c.day);
    TwoDigits(c.hour);
    TwoDigits(0);
    TwoDigits(1);
    assert Padded(0, 2) == "00" && Padded(1, 2) == "01";
    assert s[0..4] == Padded(c.year, 4);
    assert s[5..7] == Padded(c.month, 2);
    assert s[8..10] == (if g.Month? then "01" else Padded(c.day, 2));
    assert s[11..13] == (if g.Hour? then Padded(c.hour, 2) else "00");
    assert s[14..16] == "00" && s[17..19] == "00";
  }

  /** The text round trip of MySQL and the field truncation of Postgres denote the same window start. */
  lemma BucketsAgree(g: Granularity, t: int)
    requires 0 <= ToCivil(t).year < 10_000
    ensures Printable(ToCivil(t))
    ensures MysqlBucket(g, t) == PostgresBucket(g, t) == Bucket(g, t)
  {
    CivilParts(t);
    FormatParses(g, ToCivil(t));
    PostgresBucketIsBucket(g, t);
  }
}
