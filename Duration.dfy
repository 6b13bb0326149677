/**
 * `time_to_seconds`: a duration written like `"2h"` or `"50m"` read as a number of
 * seconds. The accepted form is the regular expression `^(\d+)([wdhms])?$`: one or more
 * ASCII digits, then at most one unit letter.
 */
module Duration {
  import opened Wrappers

  predicate IsDigit(c: char)
  {
    '0' <= c <= '9'
  }

  predicate AllDigits(s: string)
  {
    forall i :: 0 <= i < |s| ==> IsDigit(s[i])
  }

  /** Seconds per unit letter: week, day, hour, minute, second. */
  const Multipliers: map<char, nat> := map['w' := 604800, 'd' := 86400, 'h' := 3600, 'm' := 60, 's' := 1]

  function DigitValue(c: char): (d: nat)
    requires IsDigit(c)
    ensures d < 10
  {
    c as int - '0' as int
  }

  /** `int(digits)` for a run of ASCII digits, leading zeros allowed. */
  function DecimalValue(digits: string): nat
    requires AllDigits(digits)
  {
    if digits == [] then 0
    else 10 * DecimalValue(digits[..|digits| - 1]) + DigitValue(digits[|digits| - 1])
  }

  /** The number of digits `s` starts with. */
  function DigitRun(s: string): (k: nat)
    ensures k <= |s| && AllDigits(s[..k])
    ensures k < |s| ==> !IsDigit(s[k])
  {
    if s != [] && IsDigit(s[0]) then 1 + DigitRun(s[1..]) else 0
  }

  /** The whole of `s` has the form `\d+[wdhms]?`. */
  predicate IsDuration(s: string)
  {
    || (s != [] && AllDigits(s))
    || (|s| >= 2 && AllDigits(s[..|s| - 1]) && s[|s| - 1] in Multipliers)
  }

  /** `re.match(r'^(\d+)([wdhms])?$', inp)` succeeds: the pattern covers the whole input or,
      since Python's `$` also matches just before a final newline, all of it but that newline. */
  predicate Matches(inp: string)
  {
    IsDuration(inp) || (inp != [] && inp[|inp| - 1] == '\n' && IsDuration(inp[..|inp| - 1]))
  }

  /** `time_to_seconds(inp)`: the digits' value times the unit's multiplier (a missing unit
      counts as seconds), or `None` when the input does not match. */
  function TimeToSeconds(inp: string): (r: Option<nat>)
    ensures r.None? <==> !Matches(inp)
  {
    var subject := if inp != [] && inp[|inp| - 1] == '\n' then inp[..|inp| - 1] else inp;
    var k := DigitRun(subject);
    if k == 0 then None
    else if k == |subject| then Some(DecimalValue(subject))
    else if k + 1 == |subject| && subject[k] in Multipliers then
      Some(DecimalValue(subject[..k]) * Multipliers[subject[k]])
    else None
  }

  /** The digit run of a number followed by a non-digit (or by nothing) is that number. */
  lemma {:induction false} DigitRunOf(digits: string, rest: string)
    requires AllDigits(digits)
    requires rest == [] || !IsDigit(rest[0])
    ensures DigitRun(digits + rest) == |digits|
    decreases |digits|
  {
    if digits != [] {
      assert (digits + rest)[1..] == digits[1..] + rest;
      DigitRunOf(digits[1..], rest);
    }
  }

  /** A bare number is read as seconds, and so is the same number with `s` or a final newline. */
  lemma TimeToSecondsOfDigits(digits: string)
    requires digits != [] && AllDigits(digits)
    ensures TimeToSeconds(digits) == Some(DecimalValue(digits))
    ensures TimeToSeconds(digits + ['s']) == TimeToSeconds(digits)
    ensures TimeToSeconds(digits + ['\n']) == TimeToSeconds(digits)
  {
    DigitRunOf(digits, []);
    assert digits + [] == digits;
    DigitRunOf(digits, ['s']);
    assert (digits + ['s'])[..|digits|] == digits;
    assert (digits + ['\n'])[..|digits|] == digits;
  }

  /** A number followed by a unit letter is read as that many units, and so is the same
      input with a final newline. */
  lemma TimeToSecondsOfUnit(digits: string, unit: char)
    requires digits != [] && AllDigits(digits) && unit in Multipliers
    ensures TimeToSeconds(digits + [unit]) == Some(DecimalValue(digits) * Multipliers[unit])
    ensures TimeToSeconds(digits + [unit] + ['\n']) == TimeToSeconds(digits + [unit])
  {
    DigitRunOf(digits, [unit]);
    assert (digits + [unit])[..|digits|] == digits;
    assert (digits + [unit] + ['\n'])[..|digits| + 1] == digits + [unit];
  }

  /** Python's `str(n)`: the decimal digits of `n` without leading zeros. */
  function Decimal(n: nat): (s: string)
    ensures s != [] && AllDigits(s)
  {
    if n < 10 then ['0' + n as char]
    else Decimal(n / 10) + ['0' + (n % 10) as char]
  }

  lemma {:induction false} DecimalValueOfDecimal(n: nat)
    ensures DecimalValue(Decimal(n)) == n
  {
    if n >= 10 {
      var s := Decimal(n);
      assert s[..|s| - 1] == Decimal(n / 10);
      DecimalValueOfDecimal(n / 10);
    }
  }

  /** Every number of seconds, minutes, hours, days or weeks written in decimal reads back
      as that duration in seconds. */
  lemma TimeToSecondsOfDecimal(n: nat, unit: char)
    requires unit in Multipliers
    ensures TimeToSeconds(Decimal(n)) == Some(n)
    ensures TimeToSeconds(Decimal(n) + [unit]) == Some(n * Multipliers[unit])
  {
    DecimalValueOfDecimal(n);
    TimeToSecondsOfDigits(Decimal(n));
    TimeToSecondsOfUnit(Decimal(n), unit);
  }

  /** The exception `time_to_seconds` raises as written. */
  datatype PyError = NameError(undefined: string)

  /** `time_to_seconds` as the module is written: it imports only `sys`, so looking up `re`
      fails before any input is examined. */
  function TimeToSecondsAsWritten(inp: string): (r: Result<Option<nat>, PyError>)
    ensures r.Failure? && r.error == NameError("re")
  {
    Failure(NameError("re"))
  }

  /** The missing import makes every call fail, even on the documented example `"2h"`,
      which the intended function reads as 7200 seconds. */
  lemma MissingImportFailsOnExample()
    ensures TimeToSecondsAsWritten("2h").Failure?
    ensures TimeToSeconds("2h") == Some(7200)
  {
    TimeToSecondsOfUnit("2", 'h');
    assert "2h" == "2" + ['h'];
  }
}
