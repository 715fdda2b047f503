/** Clock strings as both reconciliation pages read and write them:
    fields of "H:M:S" read with `Number`, the h/m/s breakdown of a
    difference in seconds, and `calculateEndTime`, whose text is the
    same in src/app/geocercas/page.tsx and in
    src/app/dashboard/controlDespacho/DataOffLineGps.tsx. */
module Clock {
  import opened Wrappers
  import opened Text

  /** `Number(part)` for one field of a clock string: a string of decimal
      digits (the empty string reads as 0); anything else is `NaN`, here `None`. */
  function NumberOf(part: string): Option<nat> {
    if AllDigits(part) then Some(DecimalValue(part)) else None
  }

  /** `parts[i] || 0`: a missing field and `NaN` both count as zero. */
  function FieldOrZero(parts: seq<string>, i: nat): nat {
    if i < |parts| then NumberOf(parts[i]).GetOr(0) else 0
  }

  /** `timeToSeconds`, the helper inside both `calculateTimeDifference` functions. */
  function TimeToSeconds(time: string): nat {
    var parts := Split(time, ':');
    FieldOrZero(parts, 0) * 3600 + FieldOrZero(parts, 1) * 60 + FieldOrZero(parts, 2)
  }

  lemma NumberOfPad2(n: nat)
    ensures NumberOf(Pad2(n)) == Some(n)
  {
  }

  /** A zero-padded "HH:MM:SS" clock string reads back as the seconds it encodes. */
  lemma TimeToSecondsOfClock(h: nat, m: nat, s: nat)
    ensures TimeToSeconds(Pad2(h) + ":" + Pad2(m) + ":" + Pad2(s)) == h * 3600 + m * 60 + s
  {
    NoCharInDigits(Pad2(h), ':');
    NoCharInDigits(Pad2(m), ':');
    NoCharInDigits(Pad2(s), ':');
    SplitThree(Pad2(h), Pad2(m), Pad2(s), ':');
  }

  /** An "HH:MM" clock string, as `calculateEndTime` writes, reads as whole minutes. */
  lemma TimeToSecondsOfHoursMinutes(h: nat, m: nat)
    ensures TimeToSeconds(Pad2(h) + ":" + Pad2(m)) == h * 3600 + m * 60
  {
    NoCharInDigits(Pad2(h), ':');
    NoCharInDigits(Pad2(m), ':');
    SplitTwo(Pad2(h), Pad2(m), ':');
  }

  /** Missing and empty fields count as zero: "" is midnight, "H" and "H:" are H o'clock. */
  lemma MissingFieldsAreZero(h: nat)
    ensures TimeToSeconds("") == 0
    ensures TimeToSeconds(Digits(h)) == h * 3600
    ensures TimeToSeconds(Digits(h) + ":") == h * 3600
  {
    assert Split("", ':') == [""];
    NoCharInDigits(Digits(h), ':');
    assert Split(Digits(h), ':') == [Digits(h)];
    DecimalValueOfDigits(h);
    SplitTwo(Digits(h), "", ':');
    assert Digits(h) + ":" == Digits(h) + [':'] + "";
  }

  // ---------------------------------------------------------------- h/m/s breakdown

  datatype Hms = Hms(hours: nat, minutes: nat, seconds: nat)

  /** The `Math.floor(d / 3600)`, `Math.floor((d % 3600) / 60)`, `d % 60` breakdown. */
  function ToHms(total: nat): (t: Hms)
    ensures t.minutes < 60 && t.seconds < 60
    ensures t.hours * 3600 + t.minutes * 60 + t.seconds == total
  {
    Hms(total / 3600, (total % 3600) / 60, total % 60)
  }

  /** The unit suffixes a page writes after hours, minutes and seconds. */
  datatype Units = Units(hour: string, minute: string, second: string)

  predicate SpaceFree(u: Units) {
    ' ' !in u.hour && ' ' !in u.minute && ' ' !in u.second
  }

  /** One "<digits><unit>" part of the text, such as "5min". */
  function Token(n: nat, unit: string): string {
    Digits(n) + unit
  }

  /** The three-way format shared by both `calculateTimeDifference` functions:
      hours, minutes and seconds when there are hours, minutes and seconds
      when there are minutes, seconds alone otherwise. */
  function HmsText(total: nat, u: Units): string {
    var t := ToHms(total);
    if t.hours > 0 then
      Token(t.hours, u.hour) + " " + Token(t.minutes, u.minute) + " " + Token(t.seconds, u.second)
    else if t.minutes > 0 then
      Token(t.minutes, u.minute) + " " + Token(t.seconds, u.second)
    else
      Token(t.seconds, u.second)
  }

  /** Reads one "<digits><unit>" token. */
  function ReadToken(token: string, unit: string): Option<nat> {
    var k := |token| - |unit|;
    if 0 < k && token[k..] == unit && AllDigits(token[..k]) then Some(DecimalValue(token[..k])) else None
  }

  lemma ReadTokenOfDigits(n: nat, unit: string)
    ensures ReadToken(Token(n, unit), unit) == Some(n)
    ensures ' ' !in unit ==> ' ' !in Token(n, unit)
  {
    var token := Token(n, unit);
    assert token[..|Digits(n)|] == Digits(n);
    assert token[|Digits(n)|..] == unit;
    DecimalValueOfDigits(n);
    NoCharInDigits(Digits(n), ' ');
  }

  /** Reads text in the format of `HmsText` back into seconds. */
  function ReadHmsText(text: string, u: Units): Option<nat> {
    var tokens := Split(text, ' ');
    if |tokens| == 3 then
      match (ReadToken(tokens[0], u.hour), ReadToken(tokens[1], u.minute), ReadToken(tokens[2], u.second))
      case (Some(h), Some(m), Some(s)) => Some(h * 3600 + m * 60 + s)
      case _ => None
    else if |tokens| == 2 then
      match (ReadToken(tokens[0], u.minute), ReadToken(tokens[1], u.second))
      case (Some(m), Some(s)) => Some(m * 60 + s)
      case _ => None
    else if |tokens| == 1 then
      ReadToken(tokens[0], u.second)
    else None
  }

  lemma ReadThreeTokens(th: string, tm: string, ts: string, h: nat, m: nat, sec: nat, u: Units)
    requires ' ' !in th && ' ' !in tm && ' ' !in ts
    requires ReadToken(th, u.hour) == Some(h) && ReadToken(tm, u.minute) == Some(m)
    requires ReadToken(ts, u.second) == Some(sec)
    ensures ReadHmsText(th + " " + tm + " " + ts, u) == Some(h * 3600 + m * 60 + sec)
  {
    SplitThree(th, tm, ts, ' ');
    ReadOfThreeParts(th + " " + tm + " " + ts, th, tm, ts, h, m, sec, u);
  }

  lemma ReadOfThreeParts(text: string, th: string, tm: string, ts: string, h: nat, m: nat, sec: nat, u: Units)
    requires Split(text, ' ') == [th, tm, ts]
    requires ReadToken(th, u.hour) == Some(h) && ReadToken(tm, u.minute) == Some(m)
    requires ReadToken(ts, u.second) == Some(sec)
    ensures ReadHmsText(text, u) == Some(h * 3600 + m * 60 + sec)
  {
  }

  lemma ReadTwoTokens(tm: string, ts: string, m: nat, sec: nat, u: Units)
    requires ' ' !in tm && ' ' !in ts
    requires ReadToken(tm, u.minute) == Some(m) && ReadToken(ts, u.second) == Some(sec)
    ensures ReadHmsText(tm + " " + ts, u) == Some(m * 60 + sec)
  {
    SplitTwo(tm, ts, ' ');
  }

  lemma ReadOneToken(ts: string, sec: nat, u: Units)
    requires ' ' !in ts && ReadToken(ts, u.second) == Some(sec)
    ensures ReadHmsText(ts, u) == Some(sec)
  {
    assert Split(ts, ' ') == [ts];
  }

  /** Whatever the number of seconds, its h/m/s text reads back as that number. */
  lemma ReadHmsTextRoundTrip(total: nat, u: Units)
    requires SpaceFree(u)
    ensures ReadHmsText(HmsText(total, u), u) == Some(total)
  {
    var t := ToHms(total);
    ReadTokenOfDigits(t.hours, u.hour);
    ReadTokenOfDigits(t.minutes, u.minute);
    ReadTokenOfDigits(t.seconds, u.second);
    var th, tm, ts := Token(t.hours, u.hour), Token(t.minutes, u.minute), Token(t.seconds, u.second);
    HmsTextCases(total, u, t);
    if t.hours > 0 {
      ReadThreeTokens(th, tm, ts, t.hours, t.minutes, t.seconds, u);
    } else if t.minutes > 0 {
      ReadTwoTokens(tm, ts, t.minutes, t.seconds, u);
    } else {
      ReadOneToken(ts, t.seconds, u);
    }
  }

  lemma HmsTextCases(total: nat, u: Units, t: Hms)
    requires t == ToHms(total)
    ensures t.hours > 0 ==>
              HmsText(total, u) == Token(t.hours, u.hour) + " " + Token(t.minutes, u.minute) + " " + Token(t.seconds, u.second)
    ensures t.hours == 0 && t.minutes > 0 ==> HmsText(total, u) == Token(t.minutes, u.minute) + " " + Token(t.seconds, u.second)
    ensures t.hours == 0 && t.minutes == 0 ==> HmsText(total, u) == Token(t.seconds, u.second)
  {
  }

  // ---------------------------------------------------------------- calculateEndTime

  /** The hours and minutes fields of a clock string, both read with `Number`;
      `None` when either is `NaN` or the minutes field is missing. */
  function ClockFields(time: string): Option<(nat, nat)> {
    var parts := Split(time, ':');
    if |parts| >= 2 && NumberOf(parts[0]).Some? && NumberOf(parts[1]).Some? then
      Some((NumberOf(parts[0]).value, NumberOf(parts[1]).value))
    else None
  }

  /** `calculateEndTime`: the start time plus a number of minutes as a
      zero-padded "HH:MM", with no wrap at 24 hours; a start time that
      `Number` cannot read gives "NaN:NaN". */
  function CalculateEndTime(startTime: string, minutesToAdd: nat): string {
    var fields := ClockFields(startTime);
    if fields.None? then "NaN:NaN" else MinutesText(fields.value.0 * 60 + fields.value.1 + minutesToAdd)
  }

  /** A count of minutes written as zero-padded "HH:MM". */
  function MinutesText(total: nat): string {
    Pad2(total / 60) + ":" + Pad2(total % 60)
  }

  lemma ClockFieldsOfPadded(h: nat, m: nat)
    ensures ClockFields(Pad2(h) + ":" + Pad2(m)) == Some((h, m))
  {
    NoCharInDigits(Pad2(h), ':');
    NoCharInDigits(Pad2(m), ':');
    SplitTwo(Pad2(h), Pad2(m), ':');
  }

  /** The end time reads back as the start plus the minutes added: its
      fields satisfy HH * 60 + MM = h * 60 + m + add with MM below 60,
      both are zero-padded, and in seconds it is that many minutes. */
  lemma EndTimeReadsBack(startTime: string, minutesToAdd: nat)
    requires ClockFields(startTime).Some?
    ensures var (h, m) := ClockFields(startTime).value;
            var r := CalculateEndTime(startTime, minutesToAdd);
            && ClockFields(r).Some?
            && ClockFields(r).value.0 * 60 + ClockFields(r).value.1 == h * 60 + m + minutesToAdd
            && ClockFields(r).value.1 < 60
            && |Split(r, ':')| == 2 && |Split(r, ':')[0]| >= 2 && |Split(r, ':')[1]| == 2
            && TimeToSeconds(r) == (h * 60 + m + minutesToAdd) * 60
  {
    var (h, m) := ClockFields(startTime).value;
    var total := h * 60 + m + minutesToAdd;
    var r := CalculateEndTime(startTime, minutesToAdd);
    EndTimeOfFields(startTime, minutesToAdd, total);
    assert r == Pad2(total / 60) + ":" + Pad2(total % 60);
    PaddedHoursMinutes(r, total / 60, total % 60);
    MinutesInSeconds(total / 60, total % 60, total);
  }

  /** A zero-padded "HH:MM" text: two fields, the minutes two digits wide,
      reading back as its hours and minutes. */
  lemma PaddedHoursMinutes(r: string, hh: nat, mm: nat)
    requires mm < 60 && r == Pad2(hh) + ":" + Pad2(mm)
    ensures ClockFields(r) == Some((hh, mm))
    ensures Split(r, ':') == [Pad2(hh), Pad2(mm)] && |Pad2(hh)| >= 2 && |Pad2(mm)| == 2
    ensures TimeToSeconds(r) == hh * 3600 + mm * 60
  {
    ClockFieldsOfPadded(hh, mm);
    NoCharInDigits(Pad2(hh), ':');
    NoCharInDigits(Pad2(mm), ':');
    SplitTwo(Pad2(hh), Pad2(mm), ':');
    TimeToSecondsOfHoursMinutes(hh, mm);
  }

  lemma EndTimeOfFields(startTime: string, minutesToAdd: nat, total: nat)
    requires ClockFields(startTime).Some?
    requires total == ClockFields(startTime).value.0 * 60 + ClockFields(startTime).value.1 + minutesToAdd
    ensures CalculateEndTime(startTime, minutesToAdd) == MinutesText(total)
  {
  }

  lemma MinutesInSeconds(q: nat, rem: nat, total: nat)
    requires total == q * 60 + rem
    ensures q * 3600 + rem * 60 == total * 60
  {
  }

  lemma ClockFieldsOfMinutesText(total: nat)
    ensures ClockFields(MinutesText(total)) == Some((total / 60, total % 60))
  {
    ClockFieldsOfPadded(total / 60, total % 60);
  }

  lemma NaNEndTime(b: nat)
    ensures CalculateEndTime("NaN:NaN", b) == "NaN:NaN"
  {
    assert "NaN:NaN" == "NaN" + [':'] + "NaN";
    SplitTwo("NaN", "NaN", ':');
    assert !IsDigit("NaN"[0]);
    assert NumberOf("NaN") == None;
    assert ClockFields("NaN:NaN") == None;
  }
}
