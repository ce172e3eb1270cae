/**
 * The system-status helpers: the colour of a service status, the colour of
 * a deployment environment, and the compact uptime text.
 */
module SystemApi {
  import opened JsText
  import opened ClockText

  const SecondsPerDay: int := 86400
  const SecondsPerHour: int := 3600
  const SecondsPerMinute: int := 60

  datatype Uptime = Uptime(days: int, hours: int, minutes: int)

  /** The three fields `formatUptime` computes (whole seconds; see below for fractions). */
  function UptimeParts(seconds: int): (u: Uptime)
    ensures seconds >= 0 ==> u.days >= 0 && 0 <= u.hours < 24 && 0 <= u.minutes < 60
    ensures seconds >= 0 ==>
              u.days * SecondsPerDay + u.hours * SecondsPerHour + u.minutes * SecondsPerMinute <= seconds <
              u.days * SecondsPerDay + u.hours * SecondsPerHour + u.minutes * SecondsPerMinute + SecondsPerMinute
  {
    var u := Uptime(FloorDiv(seconds, SecondsPerDay),
                    FloorDiv(JsRem(seconds, SecondsPerDay), SecondsPerHour),
                    FloorDiv(JsRem(seconds, SecondsPerHour), SecondsPerMinute));
    if seconds >= 0 then UptimeSplit(seconds); u else u
  }

  /** The arithmetic behind the decomposition: an hour count modulo a day, then minutes modulo an hour. */
  lemma UptimeSplit(s: nat)
    ensures s % SecondsPerDay / SecondsPerHour < 24
    ensures s == (s / SecondsPerDay) * SecondsPerDay + (s % SecondsPerDay / SecondsPerHour) * SecondsPerHour +
                 (s % SecondsPerHour / SecondsPerMinute) * SecondsPerMinute + s % SecondsPerMinute
  {
    var d, r := s / SecondsPerDay, s % SecondsPerDay;
    var h, q := r / SecondsPerHour, r % SecondsPerHour;
    assert s == d * SecondsPerDay + h * SecondsPerHour + q;
    assert s == (d * 24 + h) * SecondsPerHour + q;
    assert s % SecondsPerHour == q by {
      HourRemainder(s, d * 24 + h, q);
    }
    assert q == (q / SecondsPerMinute) * SecondsPerMinute + q % SecondsPerMinute;
    assert s == ((d * 24 + h) * 60 + q / SecondsPerMinute) * SecondsPerMinute + q % SecondsPerMinute;
    assert s % SecondsPerMinute == q % SecondsPerMinute by {
      MinuteRemainder(s, (d * 24 + h) * 60 + q / SecondsPerMinute, q % SecondsPerMinute);
    }
  }

  /** `formatUptime`: days, hours and minutes, dropping leading zero fields (but always the minutes). */
  function FormatUptime(seconds: int): (text: string)
    ensures |text| >= 2 && text[|text| - 1] == 'm'
    ensures seconds >= 0 ==> ('d' in text <==> UptimeParts(seconds).days > 0)
    ensures seconds >= 0 ==> ('h' in text <==> UptimeParts(seconds).days > 0 || UptimeParts(seconds).hours > 0)
  {
    var u := UptimeParts(seconds);
    UnitLetters(u);
    FormatParts(u)
  }

  /** The text of the three fields. */
  function FormatParts(u: Uptime): string {
    if u.days > 0 then IntToString(u.days) + "d " + IntToString(u.hours) + "h " + IntToString(u.minutes) + "m"
    else if u.hours > 0 then IntToString(u.hours) + "h " + IntToString(u.minutes) + "m"
    else IntToString(u.minutes) + "m"
  }

  /** Which unit letters the text holds. */
  lemma UnitLetters(u: Uptime)
    ensures |FormatParts(u)| >= 2 && FormatParts(u)[|FormatParts(u)| - 1] == 'm'
    ensures u.hours >= 0 && u.minutes >= 0 ==> ('d' in FormatParts(u) <==> u.days > 0)
    ensures u.days >= 0 && u.minutes >= 0 ==> ('h' in FormatParts(u) <==> u.days > 0 || u.hours > 0)
  {
  }

  /** Seconds per unit letter. */
  function UnitSeconds(c: char): nat {
    if c == 'd' then 86400 else if c == 'h' then 3600 else if c == 'm' then 60 else 0
  }

  /** The value of one `<digits><unit>` field, or zero for anything else. */
  function FieldValue(f: string): nat {
    if f != [] && AllDigits(f[..|f| - 1]) then DigitsValue(f[..|f| - 1]) * UnitSeconds(f[|f| - 1]) else 0
  }

  function SumFields(fs: seq<string>): nat {
    if fs == [] then 0 else FieldValue(fs[0]) + SumFields(fs[1..])
  }

  /** Reads an uptime text back as a number of seconds. */
  function ParseUptime(text: string): nat {
    SumFields(Split(text, ' '))
  }

  lemma FieldRoundTrip(n: nat, unit: char)
    ensures FieldValue(Decimal(n) + [unit]) == n * UnitSeconds(unit)
  {
    var f := Decimal(n) + [unit];
    assert f[..|f| - 1] == Decimal(n);
    DecimalRoundTrip(n);
  }

  /** The space-separated fields of the uptime text. */
  function Fields(u: Uptime): seq<string>
    requires u.days >= 0 && u.hours >= 0 && u.minutes >= 0
  {
    var d, h, m := Decimal(u.days) + "d", Decimal(u.hours) + "h", Decimal(u.minutes) + "m";
    if u.days > 0 then [d, h, m] else if u.hours > 0 then [h, m] else [m]
  }

  lemma FormatIsJoin(u: Uptime)
    requires u.days >= 0 && u.hours >= 0 && u.minutes >= 0
    ensures FormatParts(u) == Join(Fields(u), ' ')
  {
    var d, h, m := Decimal(u.days) + "d", Decimal(u.hours) + "h", Decimal(u.minutes) + "m";
    assert IntToString(u.days) == Decimal(u.days) && IntToString(u.hours) == Decimal(u.hours);
    assert IntToString(u.minutes) == Decimal(u.minutes);
    if u.days > 0 {
      assert FormatParts(u) == d + " " + h + " " + m;
      JoinThree(d, h, m, ' ');
    } else if u.hours > 0 {
      assert FormatParts(u) == h + " " + m;
      JoinTwo(h, m, ' ');
    } else {
      assert Join([m], ' ') == m;
    }
  }

  lemma FieldsSum(u: Uptime)
    requires u.days >= 0 && u.hours >= 0 && u.minutes >= 0
    ensures SumFields(Fields(u)) == u.days * 86400 + u.hours * 3600 + u.minutes * 60
    ensures forall i :: 0 <= i < |Fields(u)| ==> ' ' !in Fields(u)[i]
  {
    var fields := Fields(u);
    var d, h, m := Decimal(u.days) + "d", Decimal(u.hours) + "h", Decimal(u.minutes) + "m";
    FieldRoundTrip(u.days, 'd');
    FieldRoundTrip(u.hours, 'h');
    FieldRoundTrip(u.minutes, 'm');
    assert forall i :: 0 <= i < |Fields(u)| ==> ' ' !in Fields(u)[i] by {
      assert ' ' !in Decimal(u.days) && ' ' !in Decimal(u.hours) && ' ' !in Decimal(u.minutes);
    }
    assert SumFields([m]) == u.minutes * 60 by {
      assert [m][1..] == [];
    }
    assert SumFields([h, m]) == u.hours * 3600 + u.minutes * 60 by {
      assert [h, m][1..] == [m];
    }
    assert SumFields([d, h, m]) == u.days * 86400 + u.hours * 3600 + u.minutes * 60 by {
      assert [d, h, m][1..] == [h, m];
    }
  }

  /** The uptime text reads back as the uptime rounded down to whole minutes. */
  lemma UptimeRoundTrip(seconds: nat)
    ensures ParseUptime(FormatUptime(seconds)) == seconds - seconds % SecondsPerMinute
  {
    var u := UptimeParts(seconds);
    UptimeSplit(seconds);
    FormatIsJoin(u);
    FieldsSum(u);
    SplitJoin(Fields(u), ' ');
  }

  /** `getServiceStatusColor`. */
  function ServiceStatusColor(status: string): (c: string)
    ensures status == "connected" <==> c == "text-green-600"
    ensures status == "disconnected" <==> c == "text-red-600"
    ensures status == "connecting" <==> c == "text-yellow-600"
    ensures status !in {"connected", "disconnected", "connecting"} <==> c == "text-gray-600"
  {
    match status
    case "connected" => "text-green-600"
    case "disconnected" => "text-red-600"
    case "connecting" => "text-yellow-600"
    case _ => "text-gray-600"
  }

  /** `getEnvironmentColor`. */
  function EnvironmentColor(environment: string): (c: string)
    ensures environment == "production" <==> c == "bg-green-100 text-green-800"
    ensures environment == "development" <==> c == "bg-yellow-100 text-yellow-800"
    ensures environment == "staging" <==> c == "bg-blue-100 text-blue-800"
    ensures environment !in {"production", "development", "staging"} <==> c == "bg-gray-100 text-gray-800"
  {
    match environment
    case "production" => "bg-green-100 text-green-800"
    case "development" => "bg-yellow-100 text-yellow-800"
    case "staging" => "bg-blue-100 text-blue-800"
    case _ => "bg-gray-100 text-gray-800"
  }
}
