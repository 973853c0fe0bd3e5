// Durations: parsing numbers of seconds and texts such as "5m", and formatting seconds as a text.
module Durations {

  const MAX_DURATION_SECONDS := 365 * 86400

  datatype Duration = NotFinite | Number(seconds: real) | Text(text: string)

  datatype Failure = Infinite | Negative | TooLong | BadFormat

  datatype Result = Ok(seconds: real) | Err(failure: Failure)

  predicate IsDigit(c: char) { '0' <= c <= '9' }

  function ToLower(c: char): char {
    if 'A' <= c <= 'Z' then (c as int - 'A' as int + 'a' as int) as char else c
  }

  // The seconds in one unit, or 0 for an unknown unit.
  function Multiplier(unit: char): nat {
    match unit
    case 's' => 1
    case 'm' => 60
    case 'h' => 3600
    case 'd' => 86400
    case _ => 0
  }

  predicate AllDigits(s: string) { s != "" && forall i :: 0 <= i < |s| ==> IsDigit(s[i]) }

  function ParseInt(s: string): nat
    requires forall i :: 0 <= i < |s| ==> IsDigit(s[i])
  {
    if s == "" then 0
    else
      assert IsDigit(s[|s| - 1]);
      10 * ParseInt(s[..|s| - 1]) + (s[|s| - 1] as int - '0' as int)
  }

  function ParseText(s: string): Result {
    if s == "" then Err(BadFormat)
    else if s == "0" then Ok(0.0)
    else
      var digits, unit := s[..|s| - 1], ToLower(s[|s| - 1]);
      if !AllDigits(digits) || Multiplier(unit) == 0 then Err(BadFormat)
      else
        var seconds := ParseInt(digits) * Multiplier(unit);
        if seconds > MAX_DURATION_SECONDS then Err(TooLong) else Ok(seconds as real)
  }

  // Every accepted duration is within a year.
  function ParseDuration(d: Duration): (r: Result)
    ensures r.Ok? ==> 0.0 <= r.seconds <= MAX_DURATION_SECONDS as real
  {
    match d
    case NotFinite => Err(Infinite)
    case Number(seconds) =>
      if seconds < 0.0 then Err(Negative)
      else if seconds > MAX_DURATION_SECONDS as real then Err(TooLong)
      else Ok(seconds)
    case Text(s) => ParseText(s)
  }

  function Decimal(n: nat): string {
    var digit := (n % 10 + '0' as int) as char;
    if n < 10 then [digit] else Decimal(n / 10) + [digit]
  }

  // Prefers the largest unit that divides the seconds evenly.
  function FormatDuration(n: nat): string {
    if n == 0 then "0s"
    else if n >= 86400 && n % 86400 == 0 then Decimal(n / 86400) + "d"
    else if n >= 3600 && n % 3600 == 0 then Decimal(n / 3600) + "h"
    else if n >= 60 && n % 60 == 0 then Decimal(n / 60) + "m"
    else Decimal(n) + "s"
  }

  lemma {:induction false} DecimalRoundTrip(n: nat)
    ensures AllDigits(Decimal(n)) && ParseInt(Decimal(n)) == n
  {
    if n >= 10 {
      DecimalRoundTrip(n / 10);
      var s := Decimal(n);
      assert s[..|s| - 1] == Decimal(n / 10);
    } else {
      var s := Decimal(n);
      assert s[..|s| - 1] == "";
    }
  }

  lemma UnitRoundTrip(n: nat, unit: char)
    requires unit in {'s', 'm', 'h', 'd'}
    ensures ParseText(Decimal(n) + [unit]) ==
      if n * Multiplier(unit) > MAX_DURATION_SECONDS then Err(TooLong) else Ok((n * Multiplier(unit)) as real)
  {
    DecimalRoundTrip(n);
    var s := Decimal(n) + [unit];
    assert s[..|s| - 1] == Decimal(n);
    assert |s| >= 2;
  }

  // Parsing undoes formatting for exactly the durations of at most a year; longer ones are refused.
  lemma ParsingUndoesFormatting(n: nat)
    ensures ParseDuration(Text(FormatDuration(n))) == if n <= MAX_DURATION_SECONDS then Ok(n as real) else Err(TooLong)
  {
    if n == 0 {
      UnitRoundTrip(0, 's');
      assert Decimal(0) == "0";
      assert Decimal(0) + ['s'] == "0s";
    } else if n >= 86400 && n % 86400 == 0 {
      UnitRoundTrip(n / 86400, 'd');
      assert n / 86400 * 86400 == n;
    } else if n >= 3600 && n % 3600 == 0 {
      UnitRoundTrip(n / 3600, 'h');
      assert n / 3600 * 3600 == n;
    } else if n >= 60 && n % 60 == 0 {
      UnitRoundTrip(n / 60, 'm');
      assert n / 60 * 60 == n;
    } else {
      UnitRoundTrip(n, 's');
    }
  }

  // A finite number of seconds is accepted as it is exactly when it lies between zero and a year.
  lemma NumbersAreKept(seconds: real)
    ensures var r := ParseDuration(Number(seconds));
      if seconds < 0.0 then r == Err(Negative)
      else if seconds <= 31536000.0 then r == Ok(seconds)
      else r == Err(TooLong)
    ensures ParseDuration(NotFinite) == Err(Infinite)
  {
  }

  // A text has the format exactly when it is "0" or digits before one of the units, in either case. One
  // that has is accepted, or refused for being longer than a year.
  lemma FormatIsExact(s: string)
    ensures ParseDuration(Text(s)) == Err(BadFormat) <==>
      !(s == "0" || (|s| >= 2 && (forall i :: 0 <= i < |s| - 1 ==> '0' <= s[i] <= '9') && s[|s| - 1] in "smhdSMHD"))
    ensures ParseDuration(Text(s)).Ok? || ParseDuration(Text(s)).failure in {BadFormat, TooLong}
  {
    if s != "" {
      var digits := s[..|s| - 1];
      assert forall i :: 0 <= i < |digits| ==> digits[i] == s[i];
      UnitsAreKnown(s[|s| - 1]);
    }
  }

  lemma UnitsAreKnown(c: char)
    ensures Multiplier(ToLower(c)) != 0 <==> c in "smhdSMHD"
  {
  }

  lemma {:induction false} LeadingZero(s: string)
    requires forall i :: 0 <= i < |s| ==> IsDigit(s[i])
    ensures ParseInt("0" + s) == ParseInt(s)
  {
    if s == "" {
      assert ("0" + s)[..0] == "";
    } else {
      LeadingZero(s[..|s| - 1]);
      assert ("0" + s)[..|s|] == "0" + s[..|s| - 1];
    }
  }

  // Leading zeros and the case of the unit make no difference.
  lemma SpellingIsIgnored(digits: string, unit: char, upper: char)
    requires AllDigits(digits) && (unit, upper) in {('s', 'S'), ('m', 'M'), ('h', 'H'), ('d', 'D')}
    ensures ParseDuration(Text("0" + digits + [unit])) == ParseDuration(Text(digits + [unit]))
    ensures ParseDuration(Text(digits + [upper])) == ParseDuration(Text(digits + [unit]))
  {
    LeadingZero(digits);
    assert ("0" + digits + [unit])[..|digits| + 1] == "0" + digits;
    assert (digits + [unit])[..|digits|] == digits == (digits + [upper])[..|digits|];
  }

  // The text uses the largest unit that divides the seconds.
  lemma LargestUnitIsChosen(n: nat)
    ensures n == 0 ==> FormatDuration(n) == "0s"
    ensures n > 0 ==> exists unit, seconds: nat ::
      && (unit, seconds) in {('d', 86400), ('h', 3600), ('m', 60), ('s', 1)}
      && n % seconds == 0 && FormatDuration(n) == Decimal(n / seconds) + [unit]
      && forall larger: nat :: larger in {60, 3600, 86400} && larger > seconds ==> n % larger != 0
  {
    if n > 0 {
      var (unit, seconds: nat) :=
        if n % 86400 == 0 then ('d', 86400) else if n % 3600 == 0 then ('h', 3600)
        else if n % 60 == 0 then ('m', 60) else ('s', 1);
      assert (unit, seconds) in {('d', 86400), ('h', 3600), ('m', 60), ('s', 1)};
    }
  }

  lemma DurationExamples()
    ensures ParseDuration(Text("5m")) == Ok(300.0) && ParseDuration(Text("1h")) == Ok(3600.0)
    ensures ParseDuration(Text("30s")) == Ok(30.0) && ParseDuration(Text("1d")) == Ok(86400.0)
  {
    UnitRoundTrip(5, 'm');
    UnitRoundTrip(1, 'h');
    UnitRoundTrip(30, 's');
    UnitRoundTrip(1, 'd');
    assert Decimal(30) == "30" && Decimal(5) == "5" && Decimal(1) == "1";
    assert "5" + ['m'] == "5m" && "1" + ['h'] == "1h" && "30" + ['s'] == "30s" && "1" + ['d'] == "1d";
  }
}
