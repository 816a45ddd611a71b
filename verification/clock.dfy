/**
 Time arithmetic of the timer screen: slider positions to a duration in
 seconds, remaining milliseconds of a tick to whole seconds, and the "MM:SS"
 text drawn in the time view, together with an independent reader of that
 text.
 */
module Clock {
  import opened Decimal
  import opened Optional

  /** Largest positions of the minutes and seconds sliders. */
  const MaxMinutes: nat := 59
  const MaxSeconds: nat := 59
  /** The longest countdown the sliders can select, in seconds. */
  const MaxDuration: nat := MaxMinutes * 60 + MaxSeconds

  /** The countdown length selected by the two sliders (`minutes*60+seconds`). */
  function Duration(minutes: nat, seconds: nat): (total: nat)
    ensures seconds < 60 ==> total / 60 == minutes && total % 60 == seconds
    ensures minutes <= MaxMinutes && seconds <= MaxSeconds ==> total <= MaxDuration
  {
    minutes * 60 + seconds
  }

  /** The whole seconds left when a tick reports `ms` remaining milliseconds (rounded down). */
  function WholeSeconds(ms: nat): (secs: nat)
    ensures secs * 1000 <= ms < secs * 1000 + 1000
    ensures secs == 0 <==> ms < 1000
  {
    ms / 1000
  }

  datatype Split = Split(minutes: nat, seconds: nat)

  /** Minutes and leftover seconds of a time, as the time view shows them. */
  function SplitClock(time: nat): (c: Split)
    ensures c.seconds < 60
    ensures Duration(c.minutes, c.seconds) == time
  {
    var minutes := time / 60;
    Split(minutes, time - minutes * 60)
  }

  /** `%02d`: the decimal rendering, padded on the left with '0' to at least two characters. */
  function TwoDigits(n: nat): (r: string)
    ensures IsDigits(r) && |r| >= 2
    ensures n < 100 <==> |r| == 2
    ensures |r| > 2 ==> r[0] != '0'
    ensures ParseDecimal(r) == n
  {
    ParseToDecimal(n);
    if n < 10 then "0" + ToDecimal(n) else ToDecimal(n)
  }

  /** The text the time view shows for `time` seconds. */
  function DrawTime(time: nat): (r: string)
    ensures time < 6000 ==> |r| == 5 && r[2] == ':'
    ensures time < 6000 ==> IsDigits(r[..2]) && IsDigits(r[3..])
  {
    var c := SplitClock(time);
    TwoDigits(c.minutes) + ":" + TwoDigits(c.seconds)
  }

  /** The position of the first ':' in `text`, if any. */
  function ColonAt(text: string): (r: Option<nat>)
    ensures r.Some? ==> r.value < |text| && text[r.value] == ':'
    ensures r.Some? ==> forall j :: 0 <= j < r.value ==> text[j] != ':'
    ensures r.None? ==> forall j :: 0 <= j < |text| ==> text[j] != ':'
  {
    if |text| == 0 then None
    else if text[0] == ':' then Some(0)
    else match ColonAt(text[1..])
      case None => None
      case Some(k) => Some(k + 1)
  }

  /**
   Reads a clock text: at least two minute digits, ':', exactly two second
   digits denoting less than 60. Returns the total number of seconds.
   */
  function ParseTime(text: string): Option<nat> {
    match ColonAt(text)
    case None => None
    case Some(i) =>
      var mm := text[..i];
      var ss := text[i + 1..];
      if |mm| >= 2 && |ss| == 2 && IsDigits(mm) && IsDigits(ss) && ParseDecimal(ss) < 60
      then Some(Duration(ParseDecimal(mm), ParseDecimal(ss)))
      else None
  }

  /** Splitting a duration gives back the slider positions it came from. */
  lemma SplitDuration(minutes: nat, seconds: nat)
    requires seconds < 60
    ensures SplitClock(Duration(minutes, seconds)) == Split(minutes, seconds)
  {
  }

  /** Reading the drawn text gives back the time it was drawn for. */
  lemma DrawTimeRoundTrip(time: nat)
    ensures ParseTime(DrawTime(time)) == Some(time)
  {
    var c := SplitClock(time);
    var mm := TwoDigits(c.minutes);
    var ss := TwoDigits(c.seconds);
    var r := DrawTime(time);
    assert r == mm + ":" + ss;
    assert forall j :: 0 <= j < |mm| ==> r[j] == mm[j] && r[j] != ':';
    assert r[|mm|] == ':';
    assert ColonAt(r) == Some(|mm|);
    assert r[..|mm|] == mm;
    assert r[|mm| + 1..] == ss;
  }

  /** Two different times are drawn differently. */
  lemma DrawTimeInjective(a: nat, b: nat)
    requires DrawTime(a) == DrawTime(b)
    ensures a == b
  {
    DrawTimeRoundTrip(a);
    DrawTimeRoundTrip(b);
  }

  /** Every two-digit string is the `%02d` rendering of its value. */
  lemma TwoDigitsParse(w: string)
    requires |w| == 2 && IsDigits(w)
    ensures TwoDigits(ParseDecimal(w)) == w
  {
    var v := ParseDecimal(w);
    assert w[..1] == [w[0]];
    if w[0] == '0' {
      assert w[..1][..0] == [];
      assert ParseDecimal(w[..1]) == 0;
      assert v == DigitValue(w[1]);
      assert v < 10;
      assert ToDecimal(v) == [w[1]];
    } else {
      ToDecimalParse(w);
    }
  }

  /**
   Conversely, every five-character text of two digits, ':' and two digits
   denoting less than 60 reads as some time, and is exactly the text drawn
   for that time.
   */
  lemma DrawTimeCanonical(text: string)
    requires |text| == 5 && text[2] == ':'
    requires IsDigits(text[..2]) && IsDigits(text[3..]) && ParseDecimal(text[3..]) < 60
    ensures ParseTime(text).Some? && ParseTime(text).value < 6000
    ensures DrawTime(ParseTime(text).value) == text
  {
    var mm := text[..2];
    var ss := text[3..];
    assert forall j :: 0 <= j < 2 ==> text[j] == mm[j] && text[j] != ':';
    assert ColonAt(text) == Some(2);
    var m := ParseDecimal(mm);
    var s := ParseDecimal(ss);
    assert ParseTime(text) == Some(Duration(m, s));
    SplitDuration(m, s);
    TwoDigitsParse(mm);
    TwoDigitsParse(ss);
    assert text == mm + ":" + ss;
  }
}
