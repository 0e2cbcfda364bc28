/** Display helpers of the course player: the chronometer text of a number of
    seconds and the first name taken from a "Last, First" learner name. */
module Format {
  import opened Text

  /** `formatChrono`: `H:MM:SS` from one hour on, `M:SS` from one minute on,
      and the bare number of seconds below a minute. */
  function FormatChrono(seconds: nat): string
  {
    var hours := seconds / 3600;
    var minutes := (seconds % 3600) / 60;
    var remaining := seconds % 60;
    if hours > 0 then NatToString(hours) + ":" + Pad2(minutes) + ":" + Pad2(remaining)
    else if minutes > 0 then NatToString(minutes) + ":" + Pad2(remaining)
    else NatToString(seconds)
  }

  /** Reads clock fields separated by colons, most significant first, each
      field worth 60 of the next; `None` when a field is not a digit string. */
  function ClockValue(fields: seq<string>): Option<nat>
  {
    if fields == [] then Some(0)
    else
      var last := fields[|fields| - 1];
      match ClockValue(fields[..|fields| - 1])
      case None => None
      case Some(v) => if last != [] && AllDigits(last) then Some(v * 60 + DigitsValue(last)) else None
  }

  /** The seconds a chronometer text stands for. */
  function ReadChrono(s: string): Option<nat>
  {
    ClockValue(Split(s, ':'))
  }

  lemma HourArithmetic(n: nat)
    ensures n == (n / 3600) * 3600 + ((n % 3600) / 60) * 60 + n % 60
  {
    var q, r := n / 3600, n % 3600;
    assert n == q * 3600 + r;
    assert r == (r / 60) * 60 + r % 60;
    assert n == (q * 60 + r / 60) * 60 + r % 60;
    ModUnique(n, q * 60 + r / 60, 60, r % 60);
  }

  lemma MinuteArithmetic(n: nat)
    requires n < 3600
    ensures n % 3600 == n && n == (n / 60) * 60 + n % 60
  {
    ModUnique(n, 0, 3600, n);
  }

  lemma ClockValueOne(c: string)
    requires c != [] && AllDigits(c)
    ensures ClockValue([c]) == Some(DigitsValue(c))
  {
    var empty: seq<string> := [];
    ClockValueAppend(empty, c, 0);
    assert empty + [c] == [c];
  }

  lemma ClockValueTwo(b: string, c: string)
    requires b != [] && c != [] && AllDigits(b) && AllDigits(c)
    ensures ClockValue([b, c]) == Some(DigitsValue(b) * 60 + DigitsValue(c))
  {
    ClockValueOne(b);
    ClockValueAppend([b], c, DigitsValue(b));
    assert [b] + [c] == [b, c];
  }

  lemma ClockValueThree(a: string, b: string, c: string)
    requires a != [] && b != [] && c != [] && AllDigits(a) && AllDigits(b) && AllDigits(c)
    ensures ClockValue([a, b, c]) == Some(DigitsValue(a) * 3600 + DigitsValue(b) * 60 + DigitsValue(c))
  {
    ClockValueTwo(a, b);
    ClockValueAppend([a, b], c, DigitsValue(a) * 60 + DigitsValue(b));
    assert [a, b] + [c] == [a, b, c];
  }

  lemma ClockValueAppend(fields: seq<string>, last: string, v: nat)
    requires last != [] && AllDigits(last) && ClockValue(fields) == Some(v)
    ensures ClockValue(fields + [last]) == Some(v * 60 + DigitsValue(last))
  {
    assert (fields + [last])[..|fields|] == fields;
  }

  /** Splits `a:b:c` and `b:c` when the fields are digit strings. */
  lemma SplitClock(a: string, b: string, c: string)
    requires AllDigits(a) && AllDigits(b) && AllDigits(c)
    ensures Split(c, ':') == [c]
    ensures Split(b + ":" + c, ':') == [b, c]
    ensures Split(a + ":" + b + ":" + c, ':') == [a, b, c]
  {
    DigitsHaveNoSeparator(a, ':');
    DigitsHaveNoSeparator(b, ':');
    DigitsHaveNoSeparator(c, ':');
    SplitNone(c, ':');
    SplitFirst(b, c, ':');
    SplitThree(a, b, c, ':');
  }

  lemma ReadClockThree(a: string, b: string, c: string)
    requires a != [] && b != [] && c != [] && AllDigits(a) && AllDigits(b) && AllDigits(c)
    ensures Split(a + ":" + b + ":" + c, ':') == [a, b, c]
    ensures ReadChrono(a + ":" + b + ":" + c) == Some(DigitsValue(a) * 3600 + DigitsValue(b) * 60 + DigitsValue(c))
  {
    SplitClock(a, b, c);
    ClockValueThree(a, b, c);
  }

  lemma ReadClockTwo(b: string, c: string)
    requires b != [] && c != [] && AllDigits(b) && AllDigits(c)
    ensures Split(b + ":" + c, ':') == [b, c]
    ensures ReadChrono(b + ":" + c) == Some(DigitsValue(b) * 60 + DigitsValue(c))
  {
    SplitClock(b, b, c);
    ClockValueTwo(b, c);
  }

  lemma ReadClockOne(c: string)
    requires c != [] && AllDigits(c)
    ensures Split(c, ':') == [c]
    ensures ReadChrono(c) == Some(DigitsValue(c))
  {
    SplitClock(c, c, c);
    ClockValueOne(c);
  }

  lemma ReadHourText(h: nat, m: nat, r: nat)
    requires m < 60 && r < 60
    ensures Split(NatToString(h) + ":" + Pad2(m) + ":" + Pad2(r), ':') == [NatToString(h), Pad2(m), Pad2(r)]
    ensures ReadChrono(NatToString(h) + ":" + Pad2(m) + ":" + Pad2(r)) == Some(h * 3600 + m * 60 + r)
  {
    Pad2Value(m);
    Pad2Value(r);
    ModUnique(m, 0, 100, m);
    ModUnique(r, 0, 100, r);
    NatToStringValue(h);
    ReadClockThree(NatToString(h), Pad2(m), Pad2(r));
  }

  lemma ReadMinuteText(m: nat, r: nat)
    requires r < 60
    ensures Split(NatToString(m) + ":" + Pad2(r), ':') == [NatToString(m), Pad2(r)]
    ensures ReadChrono(NatToString(m) + ":" + Pad2(r)) == Some(m * 60 + r)
  {
    Pad2Value(r);
    ModUnique(r, 0, 100, r);
    NatToStringValue(m);
    ReadClockTwo(NatToString(m), Pad2(r));
  }

  lemma ChronoHours(n: nat)
    requires n >= 3600
    ensures Split(FormatChrono(n), ':') == [NatToString(n / 3600), Pad2((n % 3600) / 60), Pad2(n % 60)]
    ensures ReadChrono(FormatChrono(n)) == Some(n)
  {
    HourArithmetic(n);
    ReadHourText(n / 3600, (n % 3600) / 60, n % 60);
  }

  lemma ChronoMinutes(n: nat)
    requires 60 <= n < 3600
    ensures Split(FormatChrono(n), ':') == [NatToString(n / 60), Pad2(n % 60)]
    ensures ReadChrono(FormatChrono(n)) == Some(n)
  {
    assert n / 3600 == 0 && n % 3600 == n;
    ReadMinuteText(n / 60, n % 60);
  }

  lemma ChronoSeconds(n: nat)
    requires n < 60
    ensures Split(FormatChrono(n), ':') == [NatToString(n)]
    ensures ReadChrono(FormatChrono(n)) == Some(n)
  {
    assert n / 3600 == 0 && n % 3600 == n && n / 60 == 0;
    NatToStringValue(n);
    ReadClockOne(NatToString(n));
  }

  /** The chronometer text splits into one, two or three fields: the first is
      written without leading zeros, every later one with exactly two digits
      below 60, and together they read back as the given number of seconds. */
  lemma FormatChronoFields(n: nat)
    ensures var fields := Split(FormatChrono(n), ':');
      && |fields| == (if n >= 3600 then 3 else if n >= 60 then 2 else 1)
      && (|fields[0]| > 1 ==> fields[0][0] != '0')
      && (forall i :: 1 <= i < |fields| ==> |fields[i]| == 2 && AllDigits(fields[i]) && DigitsValue(fields[i]) < 60)
      && ReadChrono(FormatChrono(n)) == Some(n)
  {
    if n >= 3600 {
      NatToStringShape(n / 3600);
      ChronoHours(n);
      TwoDigitField((n % 3600) / 60);
      TwoDigitField(n % 60);
    } else if n >= 60 {
      NatToStringShape(n / 60);
      ChronoMinutes(n);
      TwoDigitField(n % 60);
    } else {
      NatToStringShape(n);
      ChronoSeconds(n);
    }
  }

  lemma TwoDigitField(m: nat)
    requires m < 60
    ensures |Pad2(m)| == 2 && AllDigits(Pad2(m)) && DigitsValue(Pad2(m)) == m
  {
    Pad2Value(m);
    ModUnique(m, 0, 100, m);
  }

  /** `formatFirstName`: split on commas, trim every piece, and take the
      second piece, or the first when there is no second. */
  function FormatFirstName(userName: string): string
  {
    var pieces := Split(userName, ',');
    if |pieces| >= 2 then Trim(pieces[1]) else Trim(pieces[0])
  }

  /** Without a comma the whole trimmed name is returned. */
  lemma FirstNameWithoutComma(userName: string)
    requires ',' !in userName
    ensures FormatFirstName(userName) == Trim(userName)
  {
    SplitNone(userName, ',');
  }

  /** "Last, First" and "Last, First, more" give the trimmed second piece. */
  lemma FirstNameIsSecondPiece(last: string, first: string, more: string)
    requires ',' !in last && ',' !in first
    requires more == [] || more[0] == ','
    ensures FormatFirstName(last + "," + first + more) == Trim(first)
  {
    if more == [] {
      SplitNone(first, ',');
      SplitFirst(last, first, ',');
      assert last + "," + first + more == last + [','] + first;
    } else {
      SplitFirst(first, more[1..], ',');
      assert first + more == first + [','] + more[1..];
      SplitFirst(last, first + more, ',');
      assert last + "," + first + more == last + [','] + (first + more);
    }
  }

  /** A trailing comma gives the empty string: the first piece is used only
      when there is no second piece at all, not when it is empty. */
  lemma FirstNameAfterTrailingComma(last: string)
    requires ',' !in last
    ensures FormatFirstName(last + ",") == ""
  {
    FirstNameIsSecondPiece(last, "", "");
    assert last + "," + "" + "" == last + ",";
  }

  /** The welcome and final views call `formatFirstName` on the learner's
      name, which the shell may have loaded as `null`; `split` on `null`
      throws, shown here as `None`. */
  function FirstNameAsWritten(userName: Option<string>): Option<string>
  {
    if userName.Some? then Some(FormatFirstName(userName.value)) else None
  }

  /** The first name greeted, where a missing name greets with the empty
      first name instead of throwing. */
  function GreetedName(userName: Option<string>): string
  {
    if userName.Some? then FormatFirstName(userName.value) else ""
  }

  /** The greeting never fails: it is the first name wherever the view as
      written renders, the empty first name for a missing name, and for a
      given name it holds no comma and no surrounding whitespace. */
  lemma GreetedNameAgrees(userName: Option<string>)
    ensures FirstNameAsWritten(userName).Some? ==> GreetedName(userName) == FirstNameAsWritten(userName).value
    ensures FirstNameAsWritten(userName).None? <==> userName.None?
    ensures userName.None? ==> GreetedName(userName) == ""
    ensures var g := GreetedName(userName); g == [] || (!IsSpace(g[0]) && !IsSpace(g[|g| - 1]))
  {
  }
}
