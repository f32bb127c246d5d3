/** `MonthUtil.convertMonthNameToInt`: `Month.valueOf(name.toUpperCase()).getValue()`. */
module MonthUtil {
  import opened Wrappers
  import opened Errors
  import opened Dates
  import Text

  /** The constant names of `java.time.Month`, in calendar order. */
  const MonthNames: seq<string> := [
    "JANUARY", "FEBRUARY", "MARCH", "APRIL", "MAY", "JUNE",
    "JULY", "AUGUST", "SEPTEMBER", "OCTOBER", "NOVEMBER", "DECEMBER"]

  /** `Month.name()`, which is also `String.valueOf(month)`. */
  function MonthName(m: MonthNumber): string
  {
    MonthNames[m - 1]
  }

  /** `Month.valueOf(name)`: exact match against the constant names. */
  function MonthValueOf(name: string): Result<MonthNumber, Error>
  {
    if name == "JANUARY" then Success(1)
    else if name == "FEBRUARY" then Success(2)
    else if name == "MARCH" then Success(3)
    else if name == "APRIL" then Success(4)
    else if name == "MAY" then Success(5)
    else if name == "JUNE" then Success(6)
    else if name == "JULY" then Success(7)
    else if name == "AUGUST" then Success(8)
    else if name == "SEPTEMBER" then Success(9)
    else if name == "OCTOBER" then Success(10)
    else if name == "NOVEMBER" then Success(11)
    else if name == "DECEMBER" then Success(12)
    else Failure(IllegalArgument("No enum constant java.time.Month." + name))
  }

  function ConvertMonthNameToInt(monthName: string): (r: Result<MonthNumber, Error>)
    ensures r.Success? <==> Text.Upper(monthName) in MonthNames
    ensures r.Success? ==> 1 <= r.value <= 12 && MonthName(r.value) == Text.Upper(monthName)
    ensures r.Failure? ==>
      r.error == IllegalArgument("No enum constant java.time.Month." + Text.Upper(monthName))
  {
    MonthValueOf(Text.Upper(monthName))
  }

  /** Round trip: a month's own name converts back to that month's number. */
  lemma MonthNameRoundTrip(m: MonthNumber)
    ensures ConvertMonthNameToInt(MonthName(m)) == Success(m)
  {
    assert Text.IsUpperLetters(MonthName(m));
    Text.UpperOfUpperLetters(MonthName(m));
    ValueOfOwnName(m);
  }

  /** `Month.valueOf(m.name()) == m` for each of the twelve constants. */
  lemma ValueOfOwnName(m: MonthNumber)
    ensures MonthValueOf(MonthName(m)) == Success(m)
  {
    if m <= 6 {
      if m == 1 { assert MonthName(m) == "JANUARY"; }
      else if m == 2 { assert MonthName(m) == "FEBRUARY"; }
      else if m == 3 { assert MonthName(m) == "MARCH"; }
      else if m == 4 { assert MonthName(m) == "APRIL"; }
      else if m == 5 { assert MonthName(m) == "MAY"; }
      else { assert MonthName(m) == "JUNE"; }
    } else {
      if m == 7 { assert MonthName(m) == "JULY"; }
      else if m == 8 { assert MonthName(m) == "AUGUST"; }
      else if m == 9 { assert MonthName(m) == "SEPTEMBER"; }
      else if m == 10 { assert MonthName(m) == "OCTOBER"; }
      else if m == 11 { assert MonthName(m) == "NOVEMBER"; }
      else { assert MonthName(m) == "DECEMBER"; }
    }
  }

  /** The lookup ignores case: inputs that upper-case alike convert alike. */
  lemma ConvertIgnoresCase(a: string, b: string)
    requires Text.Upper(a) == Text.Upper(b)
    ensures ConvertMonthNameToInt(a) == ConvertMonthNameToInt(b)
  {
  }

  /** A lower-case month name converts to the same number as the canonical name. */
  lemma LowerCaseMonthName(m: MonthNumber)
    ensures ConvertMonthNameToInt(Text.Lower(MonthName(m))) == Success(m)
  {
    var name := MonthName(m);
    assert Text.IsUpperLetters(name);
    Text.UpperOfLower(name);
    MonthNameRoundTrip(m);
  }

  /** A string that is no month name, in any case, fails. */
  lemma NonMonthFails(s: string)
    requires forall m: MonthNumber :: Text.Upper(s) != MonthName(m)
    ensures ConvertMonthNameToInt(s).Failure?
  {
    if Text.Upper(s) in MonthNames {
      var k :| 0 <= k < 12 && MonthNames[k] == Text.Upper(s);
      assert Text.Upper(s) == MonthName(k + 1);
    }
  }
}
