/**
 * The timestamps of the script. `add_event` writes the current month, day and
 * year in front of a time token (`f'{month}-{day}-{year} {token}'`) and parses
 * the result against the fixed format 'M-D-YYYY h:mmA' (INTERNAL_TIME_FORMAT).
 * The time zone the parse attaches is fixed and is not modelled.
 */
module Timestamp {
  import opened Wrappers
  import opened Numerals

  /** A calendar day; for the current date the clock always gives a `ValidDate`. */
  datatype Date = Date(month: nat, day: nat, year: nat)

  /** A wall-clock time on the 24-hour dial. */
  datatype Clock = Clock(hour: nat, minute: nat)

  /** A wall-clock time on a given day, in the script's one fixed time zone. */
  datatype Instant = Instant(date: Date, clock: Clock)

  predicate IsLeapYear(y: nat) {
    y % 4 == 0 && (y % 100 != 0 || y % 400 == 0)
  }

  function DaysInMonth(month: nat, year: nat): (n: nat)
    requires 1 <= month <= 12
    ensures 28 <= n <= 31
  {
    if month == 2 then (if IsLeapYear(year) then 29 else 28)
    else if month == 4 || month == 6 || month == 9 || month == 11 then 30
    else 31
  }

  /** A day a Gregorian `datetime` can hold. */
  predicate ValidDate(d: Date) {
    1 <= d.year <= 9999 && 1 <= d.month <= 12 && 1 <= d.day <= DaysInMonth(d.month, d.year)
  }

  predicate ValidClock(c: Clock) {
    c.hour < 24 && c.minute < 60
  }

  /** The first index of `c` in `s`, or `|s|` when `c` does not occur. */
  function IndexOf(s: string, c: char): (i: nat)
    ensures i <= |s|
    ensures i < |s| ==> s[i] == c
    ensures forall k :: 0 <= k < i ==> s[k] != c
  {
    if s == [] || s[0] == c then 0 else 1 + IndexOf(s[1..], c)
  }

  /** The `A` token: "am" or "pm" in any letter case; `Some(true)` for pm. */
  function ParseMeridiem(m: string): (r: Option<bool>)
    ensures r == Some(false) <==> m in {"am", "aM", "Am", "AM"}
    ensures r == Some(true) <==> m in {"pm", "pM", "Pm", "PM"}
  {
    if |m| == 2 && (m[1] == 'm' || m[1] == 'M') then
      assert m == [m[0], m[1]];
      if m[0] == 'a' || m[0] == 'A' then Some(false)
      else if m[0] == 'p' || m[0] == 'P' then Some(true)
      else None
    else None
  }

  /** A 12-hour dial reading with its meridiem, on the 24-hour dial. */
  function To24(hour: nat, pm: bool): nat
    requires 1 <= hour <= 12
  {
    if pm then (if hour == 12 then 12 else hour + 12)
    else (if hour == 12 then 0 else hour)
  }

  /**
   * The `h:mmA` part of the format: a one- or two-digit hour from 1 to 12, a
   * colon, a two-digit minute below 60 and the meridiem, nothing before or after.
   */
  function ParseClock(tok: string): (r: Option<Clock>)
    ensures r.Some? ==> ValidClock(r.value)
  {
    var colon := IndexOf(tok, ':');
    var h := tok[..colon];
    var rest := if colon < |tok| then tok[colon + 1..] else [];
    if colon == |tok| || !(1 <= |h| <= 2 && AllDigits(h)) || |rest| != 4 || !AllDigits(rest[..2]) then
      None
    else
      match ParseMeridiem(rest[2..])
      case None => None
      case Some(pm) =>
        var hour, minute := Value(h), Value(rest[..2]);
        if 1 <= hour <= 12 && minute < 60 then Some(Clock(To24(hour, pm), minute)) else None
  }

  /** The three fields of `s` around its first two '-' characters, if it has two. */
  function DateFields(s: string): Option<(string, string, string)> {
    var i := IndexOf(s, '-');
    if i == |s| then None
    else
      var rest := s[i + 1..];
      var j := IndexOf(rest, '-');
      if j == |rest| then None else Some((s[..i], rest[..j], rest[j + 1..]))
  }

  /** The `M-D-YYYY` part of the format: one or two digits, '-', one or two digits, '-', four digits. */
  function ParseDate(s: string): (r: Option<Date>)
    ensures r.Some? ==> ValidDate(r.value)
  {
    match DateFields(s)
    case None => None
    case Some((m, dd, y)) =>
      if !(1 <= |m| <= 2 && AllDigits(m)) || !(1 <= |dd| <= 2 && AllDigits(dd)) || !(|y| == 4 && AllDigits(y)) then
        None
      else
        var date := Date(Value(m), Value(dd), Value(y));
        if ValidDate(date) then Some(date) else None
  }

  /** `arrow.get(s, 'M-D-YYYY h:mmA')`: the date part, one space, the time part. */
  function ParseStamp(s: string): (r: Option<Instant>)
    ensures r.Some? ==> ValidDate(r.value.date) && ValidClock(r.value.clock)
  {
    var sp := IndexOf(s, ' ');
    if sp == |s| then None
    else
      match ParseDate(s[..sp])
      case None => None
      case Some(d) =>
        match ParseClock(s[sp + 1..])
        case None => None
        case Some(c) => Some(Instant(d, c))
  }

  /** `f'{month}-{day}-{year}'`. */
  function DateText(d: Date): string {
    Decimal(d.month) + "-" + Decimal(d.day) + "-" + Decimal(d.year)
  }

  /** `f'{month}-{day}-{year} {token}'`: the string `add_event` hands to the parser. */
  function Stamp(d: Date, tok: string): string {
    DateText(d) + " " + tok
  }

  /** A canonical shorthand for a clock reading, e.g. "3:00pm" for 15:00. */
  function ClockText(c: Clock): string
    requires ValidClock(c)
  {
    var h12 := if c.hour % 12 == 0 then 12 else c.hour % 12;
    Decimal(h12) + ":" + TwoDigits(c.minute) + (if c.hour < 12 then "am" else "pm")
  }

  /** A date the script's stamps can carry: a real day whose year prints as the four digits `YYYY` reads. */
  predicate Stampable(d: Date) {
    ValidDate(d) && 1000 <= d.year
  }

  lemma IndexOfAfter(a: string, c: char, b: string)
    requires forall k :: 0 <= k < |a| ==> a[k] != c
    ensures IndexOf(a + [c] + b, c) == |a|
  {
    var s := a + [c] + b;
    assert s[|a|] == c;
    assert forall k :: 0 <= k < |a| ==> s[k] == a[k];
  }

  /** How the `h:mmA` parse reads a token made of an hour, a colon, two digits and two more characters. */
  lemma ParseClockOf(hs: string, ms: string, mk: string)
    requires 1 <= |hs| <= 2 && AllDigits(hs)
    requires |ms| == 2 && AllDigits(ms) && |mk| == 2
    ensures ParseClock(hs + ":" + ms + mk) ==
      match ParseMeridiem(mk)
      case None => None
      case Some(pm) =>
        if 1 <= Value(hs) <= 12 && Value(ms) < 60 then Some(Clock(To24(Value(hs), pm), Value(ms))) else None
  {
    var tok := hs + ":" + ms + mk;
    assert tok == hs + [':'] + (ms + mk);
    IndexOfAfter(hs, ':', ms + mk);
    assert tok[..|hs|] == hs;
    var rest := tok[|hs| + 1..];
    assert rest == ms + mk;
    assert rest[..2] == ms && rest[2..] == mk;
  }

  /**
   * The parse is strict: only a token of exactly the `h:mmA` shape (one or two
   * digits, a colon, two digits, a meridiem) can parse, so "15:00", "3pm" and
   * "3:00" are all rejected. With `ParseClockOf` this fixes the tokens that parse.
   */
  lemma ParseClockShape(tok: string)
    requires ParseClock(tok).Some?
    ensures exists hs: string, ms: string, mk: string ::
      tok == hs + ":" + ms + mk && 1 <= |hs| <= 2 && AllDigits(hs)
      && |ms| == 2 && AllDigits(ms) && ParseMeridiem(mk).Some?
  {
    var colon := IndexOf(tok, ':');
    var hs := tok[..colon];
    var rest := tok[colon + 1..];
    assert tok == hs + ":" + rest[..2] + rest[2..];
  }

  /** Every clock reading is printed by `ClockText` in a form the `h:mmA` parse reads back exactly. */
  lemma ParseClockText(c: Clock)
    requires ValidClock(c)
    ensures ParseClock(ClockText(c)) == Some(c)
  {
    var h12 := if c.hour % 12 == 0 then 12 else c.hour % 12;
    var mk := if c.hour < 12 then "am" else "pm";
    DecimalLength(h12, 2);
    ValueOfDecimal(h12);
    ParseClockOf(Decimal(h12), TwoDigits(c.minute), mk);
    assert ParseMeridiem(mk) == Some(c.hour >= 12);
    To24Of(c.hour);
  }

  /** Reading an hour of the 24-hour dial on the 12-hour dial and back gives that hour. */
  lemma To24Of(hour: nat)
    requires hour < 24
    ensures var h12 := if hour % 12 == 0 then 12 else hour % 12;
      1 <= h12 <= 12 && To24(h12, hour >= 12) == hour
  {
    if hour < 12 {
      assert hour % 12 == hour;
    } else {
      assert hour % 12 == hour - 12;
    }
  }

  /** The shorthand printed by `ClockText` holds no whitespace. */
  lemma ClockTextChars(c: Clock)
    requires ValidClock(c)
    ensures ClockText(c) != []
    ensures forall i :: 0 <= i < |ClockText(c)| ==> IsDigit(ClockText(c)[i]) || ClockText(c)[i] in ":apm"
  {
  }

  lemma DateFieldsOfText(d: Date)
    ensures DateFields(DateText(d)) == Some((Decimal(d.month), Decimal(d.day), Decimal(d.year)))
  {
    var ms, ds, ys := Decimal(d.month), Decimal(d.day), Decimal(d.year);
    var s := DateText(d);
    assert s == ms + ['-'] + (ds + "-" + ys);
    IndexOfAfter(ms, '-', ds + "-" + ys);
    assert s[..|ms|] == ms;
    var rest := s[|ms| + 1..];
    assert rest == ds + ['-'] + ys;
    IndexOfAfter(ds, '-', ys);
    assert rest[..|ds|] == ds;
    assert rest[|ds| + 1..] == ys;
  }

  /**
   * The date text the script writes parses back to that date exactly when the
   * date is stampable; otherwise the date part of every stamp fails to parse.
   */
  lemma ParseDateText(d: Date)
    ensures ParseDate(DateText(d)) == if Stampable(d) then Some(d) else None
  {
    DateFieldsOfText(d);
    DecimalLength(d.month, 2);
    DecimalLength(d.day, 2);
    DecimalLength(d.year, 3);
    DecimalLength(d.year, 4);
    ValueOfDecimal(d.month);
    ValueOfDecimal(d.day);
    ValueOfDecimal(d.year);
  }

  /**
   * What `add_event` gets from one time token: on a stampable date, the
   * instant at the token's clock reading on that very date, or a failure
   * exactly when the token fails the `h:mmA` grammar.
   */
  lemma ParseStampOf(d: Date, tok: string)
    ensures ParseStamp(Stamp(d, tok)) ==
      if Stampable(d) && ParseClock(tok).Some? then Some(Instant(d, ParseClock(tok).value)) else None
  {
    var t := DateText(d);
    assert forall k :: 0 <= k < |t| ==> t[k] != ' ' by {
      assert t == Decimal(d.month) + "-" + Decimal(d.day) + "-" + Decimal(d.year);
    }
    IndexOfAfter(t, ' ', tok);
    var s := Stamp(d, tok);
    assert s == t + [' '] + tok;
    assert s[..|t|] == t;
    assert s[|t| + 1..] == tok;
    ParseDateText(d);
  }
}
