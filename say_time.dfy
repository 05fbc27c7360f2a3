/** SayTime.py: the time of day as a spoken Chinese phrase, such as "兩點半"
    for 2:30 or "十點零五分" for 10:05. */
module SayTime {
  import opened Builtins

  /** The numerals zero to ten, indexed by their value. */
  const Ch: string := "零一二三四五六七八九十"

  /** `num_to_chinese(n)`. Python's negative indexing makes -11..-1 pick a
      numeral from the end of `Ch` (-1 gives "十"), and any smaller n raises
      IndexError; 100 and above raise ValueError. */
  function NumToChinese(n: int): (r: Raising<string>)
    ensures r.Return? <==> -11 <= n < 100
    ensures n >= 100 ==> r == Raise(ValueError)
    ensures n < -11 ==> r == Raise(IndexError)
    ensures 0 <= n < 100 ==> |r.value| == (if n <= 10 then 1 else if n < 20 || n % 10 == 0 then 2 else 3)
    ensures r.Return? ==> forall k :: 0 <= k < |r.value| ==> r.value[k] in Ch
  {
    if n <= 10 then
      if n < -11 then Raise(IndexError)
      else Return([Ch[if n < 0 then n + 11 else n]])
    else if n < 20 then
      Return([Ch[10], Ch[n - 10]])
    else if n < 100 then
      if n % 10 == 0 then Return([Ch[n / 10], Ch[10]])
      else Return([Ch[n / 10], Ch[10], Ch[n % 10]])
    else
      Raise(ValueError)
  }

  /** A negative n in -11..-1 reads the same numeral as n + 11. */
  lemma NegativeIndexing(n: int)
    requires -11 <= n < 0
    ensures NumToChinese(n) == NumToChinese(n + 11)
  {
  }

  // ---------------------------------------------------------------------------
  // Reading numerals back
  // ---------------------------------------------------------------------------

  /** The value of one numeral character. */
  function NumeralValue(c: char): Option<nat> {
    if c == '零' then Some(0)
    else if c == '一' then Some(1)
    else if c == '二' then Some(2)
    else if c == '三' then Some(3)
    else if c == '四' then Some(4)
    else if c == '五' then Some(5)
    else if c == '六' then Some(6)
    else if c == '七' then Some(7)
    else if c == '八' then Some(8)
    else if c == '九' then Some(9)
    else if c == '十' then Some(10)
    else None
  }

  /** A digit from one to nine. */
  predicate Unit(c: char) {
    NumeralValue(c).Some? && 1 <= NumeralValue(c).value <= 9
  }

  /** The number a Chinese numeral of zero to ninety-nine spells: one numeral;
      "十" then a unit; a unit of two or more then "十"; or that, then a unit. */
  function ParseChinese(s: string): Option<nat> {
    if |s| == 1 then NumeralValue(s[0])
    else if |s| == 2 && s[0] == '十' && Unit(s[1]) then
      Some(10 + NumeralValue(s[1]).value)
    else if |s| == 2 && Unit(s[0]) && NumeralValue(s[0]).value >= 2 && s[1] == '十' then
      Some(10 * NumeralValue(s[0]).value)
    else if |s| == 3 && Unit(s[0]) && NumeralValue(s[0]).value >= 2 && s[1] == '十' && Unit(s[2]) then
      Some(10 * NumeralValue(s[0]).value + NumeralValue(s[2]).value)
    else
      None
  }

  lemma NumeralAt(d: nat)
    requires d <= 10
    ensures NumeralValue(Ch[d]) == Some(d)
  {
  }

  /** Reading back the spelling of 0..99 gives the number: the spelling is
      correct and no two numbers share one. */
  lemma {:induction false} ChineseRoundTrip(n: nat)
    requires n < 100
    ensures NumToChinese(n).Return? && ParseChinese(NumToChinese(n).value) == Some(n)
  {
    if n <= 10 {
      NumeralAt(n);
    } else if n < 20 {
      NumeralAt(10);
      NumeralAt(n - 10);
    } else {
      NumeralAt(10);
      NumeralAt(n / 10);
      NumeralAt(n % 10);
    }
  }

  lemma NumToChineseInjective(a: nat, b: nat)
    requires a < 100 && b < 100
    requires NumToChinese(a) == NumToChinese(b)
    ensures a == b
  {
    ChineseRoundTrip(a);
    ChineseRoundTrip(b);
  }

  // ---------------------------------------------------------------------------
  // get_chinese_time
  // ---------------------------------------------------------------------------

  /** The hour on a twelve-hour dial: `h % 12` (Python's `%` is non-negative for
      a positive divisor, as here), with 0 read as 12. */
  function DialHour(h: int): (d: int)
    ensures 1 <= d <= 12 && d % 12 == h % 12
  {
    if h % 12 == 0 then 12 else h % 12
  }

  /** The hour word: "兩" for two, the numeral of the dial hour otherwise. */
  function HourWord(h: int): (r: string)
    ensures r == "兩" <==> DialHour(h) == 2
    ensures DialHour(h) != 2 ==> r == NumToChinese(DialHour(h)).value && 1 <= |r| <= 2
  {
    var d := DialHour(h);
    if d == 2 then "兩" else NumToChinese(d).value
  }

  /** `get_chinese_time(h, m)`: the hour word and "點", then "整" on the hour,
      "半" at half past, or the minutes (after "零" below ten) and "分". */
  function GetChineseTime(h: int, m: int): (r: Raising<string>)
    ensures r.Raise? <==> m >= 100 || m < -11
    ensures r.Return? ==> HourWord(h) + "點" <= r.value
  {
    var res := HourWord(h) + "點";
    if m == 0 then Return(res + "整")
    else if m == 30 then Return(res + "半")
    else
      match NumToChinese(m)
      case Raise(e) => Raise(e)
      case Return(w) => Return(res + (if m < 10 then "零" else "") + w + "分")
  }

  /** h and h + 12 are spoken alike. */
  lemma HalfDayPeriodic(h: int, m: int)
    ensures GetChineseTime(h, m) == GetChineseTime(h + 12, m)
  {
    assert (h + 12) % 12 == h % 12;
  }

  /** The phrase ends in "整" exactly on the hour, in "半" exactly at half past,
      and in "分" otherwise. */
  lemma TimeSuffix(h: int, m: int)
    requires GetChineseTime(h, m).Return?
    ensures var s := GetChineseTime(h, m).value;
            && |s| > 0
            && (s[|s| - 1] == '整' <==> m == 0)
            && (s[|s| - 1] == '半' <==> m == 30)
            && (s[|s| - 1] == '分' <==> m != 0 && m != 30)
  {
  }

  /** The hour read back from its word. */
  function ParseHour(t: string): Option<nat> {
    if t == "兩" then Some(2) else ParseChinese(t)
  }

  /** The minute read back from what follows "點". */
  function ParseMinute(t: string): Option<nat> {
    if t == "整" then Some(0)
    else if t == "半" then Some(30)
    else if |t| >= 2 && t[|t| - 1] == '分' then
      var body := t[..|t| - 1];
      if |body| == 2 && body[0] == '零' then ParseChinese(body[1..]) else ParseChinese(body)
    else None
  }

  /** Reading a phrase back: the hour word up to the first "點", then the minute part. */
  function ParseTime(s: string): Option<(int, int)> {
    if '點' !in s then None
    else
      var i := IndexOf(s, '點');
      var hour := ParseHour(s[..i]);
      var minute := ParseMinute(s[i + 1..]);
      if hour.Some? && minute.Some? then Some((hour.value as int, minute.value as int)) else None
  }

  /** What the phrase holds after "點" for a minute of 0..99. */
  function MinuteTail(m: int): string
    requires 0 <= m < 100
  {
    if m == 0 then "整"
    else if m == 30 then "半"
    else ((if m < 10 then "零" else "") + NumToChinese(m).value) + "分"
  }

  lemma PhraseShape(h: int, m: int)
    requires 0 <= m < 100
    ensures GetChineseTime(h, m) == Return((HourWord(h) + "點") + MinuteTail(m))
  {
    if m != 0 && m != 30 {
      var res := HourWord(h) + "點";
      var z := if m < 10 then "零" else "";
      var w := NumToChinese(m).value;
      assert res + z + w + "分" == res + ((z + w) + "分");
    }
  }

  lemma HourWordRoundTrip(h: int)
    ensures '點' !in HourWord(h)
    ensures ParseHour(HourWord(h)) == Some(DialHour(h))
  {
    var d := DialHour(h);
    ChineseRoundTrip(d);
    if d != 2 {
      assert HourWord(h) != "兩";
    }
  }

  lemma {:induction false} MinuteRoundTrip(m: int)
    requires 0 <= m < 100
    ensures ParseMinute(MinuteTail(m)) == Some(m)
  {
    if m != 0 && m != 30 {
      ChineseRoundTrip(m);
      var w := NumToChinese(m).value;
      var body := (if m < 10 then "零" else "") + w;
      var t := MinuteTail(m);
      assert t[..|t| - 1] == body;
      if m < 10 {
        assert body[1..] == w;
      } else {
        assert body == w;
      }
    }
  }

  /** The first "點" of `hw + "點" + tail` is the one after `hw` when `hw` has none. */
  lemma SplitAtMark(hw: string, tail: string)
    requires '點' !in hw
    ensures var s := (hw + "點") + tail;
            && '點' in s && IndexOf(s, '點') == |hw|
            && s[..|hw|] == hw && s[|hw| + 1..] == tail
  {
    var s := (hw + "點") + tail;
    assert s[|hw|] == '點';
    assert s[..|hw|] == hw;
    assert s[|hw| + 1..] == tail;
  }

  /** Reading back the phrase for any hour and a minute of 0..99 gives the dial
      hour and the minute: two times on the same dial never sound alike. */
  lemma TimeRoundTrip(h: int, m: int)
    requires 0 <= m < 100
    ensures GetChineseTime(h, m).Return?
    ensures ParseTime(GetChineseTime(h, m).value) == Some((DialHour(h), m))
  {
    PhraseShape(h, m);
    HourWordRoundTrip(h);
    MinuteRoundTrip(m);
    SplitAtMark(HourWord(h), MinuteTail(m));
  }
}
