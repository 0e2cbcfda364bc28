/** The session-time codecs of the SCORM wrapper. SCORM 1.2 (Run-Time
    Environment, section 3.4) writes a CMITimespan `HHHH:MM:SS.SS`; SCORM 2004
    (Run-Time Environment, section 4.2) writes a timeinterval, an ISO 8601
    duration with designators (ISO 8601:2004 section 4.4.3.2), here always of
    the form `PTHHHHhMMmSSs` with four padded hour digits. */
module ScormTime {
  import opened Text

  datatype Version = V12 | V2004

  /** What a JavaScript decoder hands back: a number, `NaN`, or a thrown `TypeError`. */
  datatype Decoded = Seconds(value: int) | NotANumber | TypeError

  /** `convertSecondsToSCORM12Time`. */
  function Encode12(seconds: nat): string
  {
    var hours := seconds / 3600;
    var minutes := (seconds % 3600) / 60;
    var remaining := seconds % 60;
    Pad4(hours) + ":" + Pad2(minutes) + ":" + Pad2(remaining)
  }

  /** `convertSecondsToSCORM2004Time`. */
  function Encode2004(seconds: nat): string
  {
    var hours := seconds / 3600;
    var minutes := (seconds % 3600) / 60;
    var remaining := seconds % 60;
    "PT" + Pad4(hours) + "H" + Pad2(minutes) + "M" + Pad2(remaining) + "S"
  }

  /** `hours * 3600 + minutes * 60 + seconds`, where one `NaN` makes the sum `NaN`. */
  function Combine(hours: Option<int>, minutes: Option<int>, seconds: Option<int>): Decoded
  {
    if hours.Some? && minutes.Some? && seconds.Some?
    then Seconds(hours.value * 3600 + minutes.value * 60 + seconds.value)
    else NotANumber
  }

  /** `convertSCORM12TimeToSeconds`: colon-separated fields, anything after a
      dot in the third one ignored; fewer than three fields make
      `timeArray[2].split` throw. */
  function Decode12(time: string): Decoded
  {
    var fields := Split(time, ':');
    if |fields| < 3 then TypeError
    else Combine(ParseInt(fields[0]), ParseInt(fields[1]), ParseInt(Split(fields[2], '.')[0]))
  }

  /** `convertSCORM2004TimeToSeconds`: the first "PT" is removed, then each of
      `H`, `M`, `S` that occurs introduces a field; a field read from the piece
      after a designator that is absent makes the decoder throw. */
  function Decode2004(time: string): Decoded
  {
    var ts := RemoveFirst(time, "PT");
    var byH := Split(ts, 'H');
    var byM := Split(ts, 'M');
    var hours := if 'H' in ts then ParseInt(byH[0]) else Some(0);
    if 'M' in ts && |byH| < 2 then TypeError
    else
      var minutes := if 'M' in ts then ParseInt(Split(byH[1], 'M')[0]) else Some(0);
      if 'S' in ts && |byM| < 2 then TypeError
      else
        var seconds := if 'S' in ts then ParseInt(Split(byM[1], 'S')[0]) else Some(0);
        Combine(hours, minutes, seconds)
  }

  function Encode(v: Version, seconds: nat): string
  {
    match v
    case V12 => Encode12(seconds)
    case V2004 => Encode2004(seconds)
  }

  function Decode(v: Version, time: string): Decoded
  {
    match v
    case V12 => Decode12(time)
    case V2004 => Decode2004(time)
  }

  /** `getTotalTime` once the LMS has answered: an absent (`null`) or empty
      value counts as zero seconds, anything else goes through the decoder of
      the wrapper's version. */
  function TotalTime(v: Version, stored: Option<string>): (r: Decoded)
    ensures stored == None || stored == Some("") ==> r == Seconds(0)
  {
    match stored
    case None => Seconds(0)
    case Some(text) => if text == "" then Seconds(0) else Decode(v, text)
  }

  // ---------------------------------------------------------------------------
  // Properties

  /** A field the decoders read as `v`, holding none of the separators. */
  predicate Field(s: string, v: int)
  {
    && ParseInt(s) == Some(v)
    && ':' !in s && '.' !in s && 'H' !in s && 'M' !in s && 'S' !in s
  }

  lemma NoSeparators(s: string)
    requires AllDigits(s)
    ensures ':' !in s && '.' !in s && 'H' !in s && 'M' !in s && 'S' !in s
  {
    DigitsHaveNoSeparator(s, ':');
    DigitsHaveNoSeparator(s, '.');
    DigitsHaveNoSeparator(s, 'H');
    DigitsHaveNoSeparator(s, 'M');
    DigitsHaveNoSeparator(s, 'S');
  }

  lemma HourField(h: nat)
    ensures Field(Pad4(h), h % 10000)
  {
    Pad4Value(h);
    ParseIntDigits(Pad4(h));
    NoSeparators(Pad4(h));
  }

  lemma SixtyField(m: nat)
    requires m < 60
    ensures Field(Pad2(m), m)
  {
    Pad2Value(m);
    ModUnique(m, 0, 100, m);
    ParseIntDigits(Pad2(m));
    NoSeparators(Pad2(m));
  }

  lemma Clock(n: nat)
    ensures (n % 3600) / 60 < 60 && n % 60 < 60
    ensures ((n / 3600) % 10000) * 3600 + ((n % 3600) / 60) * 60 + n % 60 == n % 36000000
  {
    var h, q, r := n / 3600, n % 3600, n % 60;
    assert n == h * 3600 + q;
    assert q == (q / 60) * 60 + q % 60;
    assert n == (h * 60 + q / 60) * 60 + q % 60;
    ModUnique(n, h * 60 + q / 60, 60, q % 60);
    assert h == (h / 10000) * 10000 + h % 10000;
    assert n == (h / 10000) * 36000000 + ((h % 10000) * 3600 + q);
    ModUnique(n, h / 10000, 36000000, (h % 10000) * 3600 + q);
  }

  /** How `convertSCORM12TimeToSeconds` reads a text that splits into three fields. */
  lemma Decode12Of(t: string, a: string, b: string, c: string)
    requires Split(t, ':') == [a, b, c]
    ensures Decode12(t) == Combine(ParseInt(a), ParseInt(b), ParseInt(Split(c, '.')[0]))
  {
  }

  lemma Decode12Fields(a: string, b: string, c: string, x: int, y: int, z: int)
    requires Field(a, x) && Field(b, y) && Field(c, z)
    ensures Decode12(a + ":" + b + ":" + c) == Seconds(x * 3600 + y * 60 + z)
  {
    SplitThree(a, b, c, ':');
    assert a + ":" + b + ":" + c == a + [':'] + b + [':'] + c;
    SplitNone(c, '.');
    Decode12Of(a + ":" + b + ":" + c, a, b, c);
  }

  lemma Decode12Text(h: nat, m: nat, r: nat)
    requires m < 60 && r < 60
    ensures Decode12(Pad4(h) + ":" + Pad2(m) + ":" + Pad2(r)) == Seconds((h % 10000) * 3600 + m * 60 + r)
  {
    HourField(h);
    SixtyField(m);
    SixtyField(r);
    Decode12Fields(Pad4(h), Pad2(m), Pad2(r), h % 10000, m, r);
  }

  /** The 1.2 encoder writes `HHHH:MM:SS`: four hour digits holding the hours
      modulo 10000 (longer hour counts lose their leading digits), then two
      minute and two second digits, both below 60. */
  lemma Encode12Fields(n: nat)
    ensures |Encode12(n)| == 10
    ensures var fields := Split(Encode12(n), ':');
      && |fields| == 3
      && |fields[0]| == 4 && AllDigits(fields[0]) && DigitsValue(fields[0]) == (n / 3600) % 10000
      && |fields[1]| == 2 && AllDigits(fields[1]) && DigitsValue(fields[1]) == (n % 3600) / 60 < 60
      && |fields[2]| == 2 && AllDigits(fields[2]) && DigitsValue(fields[2]) == n % 60 < 60
  {
    var h, m, r := n / 3600, (n % 3600) / 60, n % 60;
    Clock(n);
    Pad4Value(h);
    Pad2Value(m);
    ModUnique(m, 0, 100, m);
    Pad2Value(r);
    ModUnique(r, 0, 100, r);
    DigitsHaveNoSeparator(Pad4(h), ':');
    DigitsHaveNoSeparator(Pad2(m), ':');
    DigitsHaveNoSeparator(Pad2(r), ':');
    SplitThree(Pad4(h), Pad2(m), Pad2(r), ':');
    assert Encode12(n) == Pad4(h) + [':'] + Pad2(m) + [':'] + Pad2(r);
  }

  /** Decoding what the 1.2 encoder wrote gives the seconds back modulo
      10000 hours. */
  lemma RoundTrip12Truncated(n: nat)
    ensures Decode12(Encode12(n)) == Seconds(n % 36000000)
  {
    var h, m, r := n / 3600, (n % 3600) / 60, n % 60;
    Clock(n);
    Decode12Text(h, m, r);
    assert Encode12(n) == Pad4(h) + ":" + Pad2(m) + ":" + Pad2(r);
  }

  /** Below 10000 hours the 1.2 codec is exact to the second. */
  lemma RoundTrip12(n: nat)
    requires n < 36000000
    ensures Decode12(Encode12(n)) == Seconds(n)
  {
    RoundTrip12Truncated(n);
    ModUnique(n, 0, 36000000, n);
  }

  /** The 1.2 decoder ignores the hundredths after the dot of a CMITimespan. */
  lemma Decode12IgnoresFraction(hh: string, mm: string, ss: string, fraction: string)
    requires ':' !in hh && ':' !in mm && ':' !in ss && ':' !in fraction && '.' !in ss
    ensures Decode12(hh + ":" + mm + ":" + ss + "." + fraction) == Decode12(hh + ":" + mm + ":" + ss)
  {
    var withFraction := ss + "." + fraction;
    assert ':' !in withFraction;
    SplitThree(hh, mm, withFraction, ':');
    assert hh + ":" + mm + ":" + ss + "." + fraction == hh + [':'] + mm + [':'] + withFraction;
    Decode12Of(hh + ":" + mm + ":" + ss + "." + fraction, hh, mm, withFraction);
    SplitThree(hh, mm, ss, ':');
    assert hh + ":" + mm + ":" + ss == hh + [':'] + mm + [':'] + ss;
    Decode12Of(hh + ":" + mm + ":" + ss, hh, mm, ss);
    SplitFirst(ss, fraction, '.');
    assert withFraction == ss + ['.'] + fraction;
    SplitNone(ss, '.');
  }

  /** How `convertSCORM2004TimeToSeconds` reads `PT` followed by three
      designated fields. */
  lemma Decode2004Of(time: string, ts: string, a: string, b: string, c: string)
    requires RemoveFirst(time, "PT") == ts
    requires 'H' in ts && 'M' in ts && 'S' in ts
    requires Split(ts, 'H') == [a, b + "M" + c + "S"]
    requires Split(ts, 'M') == [a + "H" + b, c + "S"]
    requires Split(b + "M" + c + "S", 'M') == [b, c + "S"]
    requires Split(c + "S", 'S') == [c, ""]
    ensures Decode2004(time) == Combine(ParseInt(a), ParseInt(b), ParseInt(c))
  {
  }

  lemma SplitHours(a: string, b: string, c: string)
    requires 'H' !in a && 'H' !in b && 'H' !in c
    ensures Split(a + "H" + b + "M" + c + "S", 'H') == [a, b + "M" + c + "S"]
  {
    var afterH := b + "M" + c + "S";
    assert 'H' !in afterH;
    SplitTwo(a, afterH, 'H');
    assert a + "H" + b + "M" + c + "S" == a + ['H'] + afterH;
  }

  lemma SplitMinutes(a: string, b: string, c: string)
    requires 'M' !in a && 'M' !in b && 'M' !in c
    ensures Split(a + "H" + b + "M" + c + "S", 'M') == [a + "H" + b, c + "S"]
    ensures Split(b + "M" + c + "S", 'M') == [b, c + "S"]
  {
    assert 'M' !in a + "H" + b && 'M' !in c + "S";
    SplitTwo(a + "H" + b, c + "S", 'M');
    assert a + "H" + b + "M" + c + "S" == (a + "H" + b) + ['M'] + (c + "S");
    SplitTwo(b, c + "S", 'M');
    assert b + "M" + c + "S" == b + ['M'] + (c + "S");
  }

  lemma SplitSeconds(c: string)
    requires 'S' !in c
    ensures Split(c + "S", 'S') == [c, ""]
  {
    SplitTwo(c, "", 'S');
    assert c + "S" == c + ['S'] + "";
  }

  lemma Decode2004Fields(a: string, b: string, c: string, x: int, y: int, z: int)
    requires Field(a, x) && Field(b, y) && Field(c, z)
    ensures Decode2004("PT" + a + "H" + b + "M" + c + "S") == Seconds(x * 3600 + y * 60 + z)
  {
    var ts := a + "H" + b + "M" + c + "S";
    StripPrefix(a, b, c);
    SplitHours(a, b, c);
    SplitMinutes(a, b, c);
    SplitSeconds(c);
    Decode2004Of("PT" + a + "H" + b + "M" + c + "S", ts, a, b, c);
  }

  lemma StripPrefix(a: string, b: string, c: string)
    ensures var ts := a + "H" + b + "M" + c + "S";
      && RemoveFirst("PT" + a + "H" + b + "M" + c + "S", "PT") == ts
      && 'H' in ts && 'M' in ts && 'S' in ts
  {
    var ts := a + "H" + b + "M" + c + "S";
    var time := "PT" + a + "H" + b + "M" + c + "S";
    assert time == "PT" + ts && time[..2] == "PT" && time[2..] == ts;
    assert ts[|a|] == 'H' && ts[|a| + 1 + |b|] == 'M' && ts[|ts| - 1] == 'S';
  }

  lemma Decode2004Text(h: nat, m: nat, r: nat)
    requires m < 60 && r < 60
    ensures Decode2004("PT" + Pad4(h) + "H" + Pad2(m) + "M" + Pad2(r) + "S")
         == Seconds((h % 10000) * 3600 + m * 60 + r)
  {
    HourField(h);
    SixtyField(m);
    SixtyField(r);
    Decode2004Fields(Pad4(h), Pad2(m), Pad2(r), h % 10000, m, r);
  }

  /** Decoding what the 2004 encoder wrote gives the seconds back modulo
      10000 hours. */
  lemma RoundTrip2004Truncated(n: nat)
    ensures Decode2004(Encode2004(n)) == Seconds(n % 36000000)
  {
    var h, m, r := n / 3600, (n % 3600) / 60, n % 60;
    Clock(n);
    Decode2004Text(h, m, r);
    assert Encode2004(n) == "PT" + Pad4(h) + "H" + Pad2(m) + "M" + Pad2(r) + "S";
  }

  /** Below 10000 hours the 2004 codec is exact to the second. */
  lemma RoundTrip2004(n: nat)
    requires n < 36000000
    ensures Decode2004(Encode2004(n)) == Seconds(n)
  {
    RoundTrip2004Truncated(n);
    ModUnique(n, 0, 36000000, n);
  }

  /** A total time the LMS holds in the wrapper's own format reads back exactly. */
  lemma TotalTimeOfEncoded(v: Version, n: nat)
    requires n < 36000000
    ensures TotalTime(v, Some(Encode(v, n))) == Seconds(n)
  {
    var text := Encode(v, n);
    if v == V12 {
      RoundTrip12(n);
      assert |text| >= 1;
    } else {
      RoundTrip2004(n);
      assert |text| >= 1;
    }
  }
}
