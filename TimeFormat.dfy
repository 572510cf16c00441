/** Rendering of a millisecond count as the "HH:MM:SS" text shown in the
    elapsed-time and total-time labels of the music player, together with
    the reader that recovers the whole seconds from such a text. */
module TimeFormat {

  import opened Wrappers

  /** The three fields a millisecond count is split into. */
  datatype Clock = Clock(hour: nat, minute: nat, second: nat)

  /** The hour, minute and second fields of `ms`, computed as the source does
      with successive divisions: seconds below 60, minutes below 60, hours
      unbounded, and together they give `ms` truncated to whole seconds. */
  function ClockOf(ms: nat): (c: Clock)
    ensures c.second < 60 && c.minute < 60
    ensures c.hour * 3600000 + c.minute * 60000 + c.second * 1000 == ms - ms % 1000
  {
    var totalSeconds := ms / 1000;
    var totalMinutes := totalSeconds / 60;
    var c := Clock(totalMinutes / 60, totalMinutes % 60, totalSeconds % 60);
    assert ms - ms % 1000 == totalSeconds * 1000;
    assert totalSeconds == totalMinutes * 60 + c.second;
    assert totalMinutes == c.hour * 60 + c.minute;
    c
  }

  /** Any fields within the bounds that add up to the same whole seconds are
      the ones ClockOf computes: the split is unique. */
  lemma ClockOfUnique(ms: nat, h: nat, m: nat, s: nat)
    requires s < 60 && m < 60
    requires h * 3600000 + m * 60000 + s * 1000 == ms - ms % 1000
    ensures ClockOf(ms) == Clock(h, m, s)
  {
    var c := ClockOf(ms);
    var t := ms / 1000;
    assert ms - ms % 1000 == t * 1000;
    assert h * 3600 + m * 60 + s == t;
    assert c.hour * 3600 + c.minute * 60 + c.second == t;
    assert (h * 60 + m) * 60 + s == t;
    assert s == t % 60 && h * 60 + m == t / 60;
    assert c.second == t % 60 && c.hour * 60 + c.minute == t / 60;
    assert m == (t / 60) % 60 && h == (t / 60) / 60;
  }

  predicate IsDigit(ch: char) {
    '0' <= ch <= '9'
  }

  predicate AllDigits(s: string) {
    forall i :: 0 <= i < |s| ==> IsDigit(s[i])
  }

  function DigitChar(d: nat): (ch: char)
    requires d < 10
    ensures IsDigit(ch) && ch as int - '0' as int == d
  {
    ('0' as int + d) as char
  }

  /** The number a string of decimal digits denotes, most significant first. */
  function DecimalValue(s: string): nat
    requires AllDigits(s)
  {
    if s == [] then 0
    else DecimalValue(s[..|s| - 1]) * 10 + (s[|s| - 1] as int - '0' as int)
  }

  /** The shortest decimal rendering of `n`: no leading zero, and it reads
      back as `n`. */
  function Digits(n: nat): (r: string)
    ensures 1 <= |r| && AllDigits(r)
    ensures |r| > 1 ==> r[0] != '0'
    ensures n < 10 <==> |r| == 1
    ensures n < 100 ==> |r| <= 2
    ensures DecimalValue(r) == n
  {
    if n < 10 then [DigitChar(n)]
    else
      var prefix := Digits(n / 10);
      var r := prefix + [DigitChar(n % 10)];
      assert r[..|r| - 1] == prefix;
      r
  }

  /** The text of one field: the decimal value of `n` left-padded with '0'
      to at least two characters, and no further. */
  function Pad2(n: nat): (r: string)
    ensures AllDigits(r) && DecimalValue(r) == n
    ensures |r| >= 2 && (n < 100 <==> |r| == 2)
    ensures |r| > 2 ==> r[0] != '0'
  {
    if n < 10 then
      var r := ['0'] + Digits(n);
      assert r[..1] == ['0'];
      r
    else Digits(n)
  }

  /** The label text for a millisecond count: empty for a negative count (no
      duration known yet), "HH:MM:SS" otherwise, with the hours field widened
      as far as the hours need. */
  function FormatTime(ms: int): (r: string)
    ensures r == [] <==> ms < 0
    ensures ms >= 0 ==> |r| >= 8 && r[|r| - 3] == ':' && r[|r| - 6] == ':'
    ensures 0 <= ms < 360000000 ==> |r| == 8
  {
    if ms < 0 then ""
    else
      var c := ClockOf(ms);
      Pad2(c.hour) + ":" + Pad2(c.minute) + ":" + Pad2(c.second)
  }

  /** Reads a "H...H:MM:SS" text back into milliseconds (whole seconds), or
      None when the text does not have that shape. */
  function ReadClock(t: string): Option<nat> {
    var n := |t|;
    if n < 8 || t[n - 3] != ':' || t[n - 6] != ':' then None
    else
      var h, m, s := t[..n - 6], t[n - 5..n - 3], t[n - 2..];
      if !(AllDigits(h) && AllDigits(m) && AllDigits(s)) then None
      else
        var hv, mv, sv := DecimalValue(h), DecimalValue(m), DecimalValue(s);
        if mv < 60 && sv < 60 then Some(hv * 3600000 + mv * 60000 + sv * 1000) else None
  }

  /** Formatting loses exactly the milliseconds below a whole second: reading
      the text back gives `ms` truncated to seconds, and a negative count
      gives a text that does not read as a time at all. */
  lemma ReadFormatTime(ms: int)
    ensures ms >= 0 ==> ReadClock(FormatTime(ms)) == Some(ms - ms % 1000)
    ensures ms < 0 ==> ReadClock(FormatTime(ms)) == None
  {
    if ms >= 0 {
      var c := ClockOf(ms);
      var h, m, s := Pad2(c.hour), Pad2(c.minute), Pad2(c.second);
      var t := h + ":" + m + ":" + s;
      assert t == FormatTime(ms);
      var n := |t|;
      assert t[..n - 6] == h;
      assert t[n - 5..n - 3] == m;
      assert t[n - 2..] == s;
    }
  }

  /** Two counts give the same text exactly when both are negative or both
      fall in the same whole second. */
  lemma FormatTimeSameText(a: int, b: int)
    ensures FormatTime(a) == FormatTime(b) <==>
            (a < 0 && b < 0) || (a >= 0 && b >= 0 && a / 1000 == b / 1000)
  {
    if a >= 0 && b >= 0 {
      if FormatTime(a) == FormatTime(b) {
        ReadFormatTime(a);
        ReadFormatTime(b);
        assert a - a % 1000 == b - b % 1000;
      }
      if a / 1000 == b / 1000 {
        assert a - a % 1000 == b - b % 1000;
        var c := ClockOf(a);
        ClockOfUnique(b, c.hour, c.minute, c.second);
      }
    }
  }

  /** The rendered fields, read one by one, are the hours, minutes and seconds
      of ClockOf: the text is hours ":" minutes ":" seconds. */
  lemma FormatTimeFields(ms: nat)
    ensures var t, c := FormatTime(ms), ClockOf(ms);
            var n := |t|;
            t[..n - 6] == Pad2(c.hour) && DecimalValue(t[..n - 6]) == c.hour &&
            t[n - 5..n - 3] == Pad2(c.minute) && t[n - 2..] == Pad2(c.second)
  {
    var c := ClockOf(ms);
    var h := Pad2(c.hour);
    var t := h + ":" + Pad2(c.minute) + ":" + Pad2(c.second);
    assert t == FormatTime(ms);
    var n := |t|;
    assert t[..n - 6] == h;
    assert t[n - 5..n - 3] == Pad2(c.minute);
    assert t[n - 2..] == Pad2(c.second);
  }

  lemma FormatTimeExamples()
    ensures FormatTime(-1) == ""
    ensures FormatTime(0) == "00:00:00"
    ensures FormatTime(61000) == "00:01:01"
    ensures FormatTime(3723999) == "01:02:03"
    ensures FormatTime(360000000) == "100:00:00"
  {
    assert ClockOf(0) == Clock(0, 0, 0);
    assert ClockOf(61000) == Clock(0, 1, 1);
    assert ClockOf(3723999) == Clock(1, 2, 3);
    assert ClockOf(360000000) == Clock(100, 0, 0);
    assert Digits(100) == Digits(10) + ['0'];
    assert Digits(10) == Digits(1) + ['0'];
  }
}
