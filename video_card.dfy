/** The video card's labels (src/components/VideoCard.tsx): the view count and the
    age of a video as relative text, both over integers. */
module VideoCard {
  import opened Wrappers
  import opened Text

  // ----- view counts -----

  /** A count label. Below a thousand it is the decimal text of the count; the K and M
      branches format a fraction with `toFixed(1)`, which is not modelled, so they carry
      the count they were given. */
  datatype CountLabel = Plain(text: string) | Thousands(count: int) | Millions(count: int)

  /** `formatViews`. */
  function FormatViews(views: int): CountLabel {
    if views >= 1000000 then Millions(views)
    else if views >= 1000 then Thousands(views)
    else Plain(IntToString(views))
  }

  /** The branches of `formatViews`: the M branch from a million, the K branch from a
      thousand, and below a thousand the plain decimal text, which reads back as the count. */
  lemma FormatViewsMeaning(views: int)
    ensures FormatViews(views).Millions? <==> views >= 1000000
    ensures FormatViews(views).Thousands? <==> 1000 <= views < 1000000
    ensures FormatViews(views).Plain? <==> views < 1000
    ensures FormatViews(views).Plain? ==> ParseInt(FormatViews(views).text) == Some(views)
    ensures !FormatViews(views).Plain? ==> FormatViews(views).count == views
  {
    if views < 1000 {
      IntToStringRoundTrip(views);
    }
  }

  // ----- relative dates -----

  /** The bucket a whole number of days falls into. */
  datatype Age = Today | Yesterday | Days(n: int) | Weeks(n: int) | Months(n: int) | Years(n: int)

  /** The if-chain of `formatDate` over `diffDays`. */
  function AgeOf(days: int): Age {
    if days == 0 then Today
    else if days == 1 then Yesterday
    else if days < 7 then Days(days)
    else if days < 30 then Weeks(days / 7)
    else if days < 365 then Months(days / 30)
    else Years(days / 365)
  }

  const DaysUnit: string := "dias atrás"
  const WeeksUnit: string := "semanas atrás"
  const MonthsUnit: string := "meses atrás"
  const YearsUnit: string := "anos atrás"

  /** The text shown for a bucket. */
  function AgeText(a: Age): string {
    match a
    case Today => "Hoje"
    case Yesterday => "Ontem"
    case Days(n) => IntToString(n) + " " + DaysUnit
    case Weeks(n) => IntToString(n) + " " + WeeksUnit
    case Months(n) => IntToString(n) + " " + MonthsUnit
    case Years(n) => IntToString(n) + " " + YearsUnit
  }

  /** `formatDate` with the day difference given as an integer. */
  function FormatDate(days: int): string {
    AgeText(AgeOf(days))
  }

  /** Which days each bucket holds: 0 is today, 1 yesterday, every other count below 7
      (negative ones included) is shown as is, 7 to 29 in whole weeks, 30 to 364 in whole
      months of 30 days and from 365 in whole years of 365 days. */
  lemma AgeOfMeaning(days: int)
    ensures AgeOf(days) == Today <==> days == 0
    ensures AgeOf(days) == Yesterday <==> days == 1
    ensures AgeOf(days).Days? <==> days < 7 && days != 0 && days != 1
    ensures AgeOf(days).Days? ==> AgeOf(days).n == days
    ensures AgeOf(days).Weeks? <==> 7 <= days < 30
    ensures AgeOf(days).Weeks? ==> 1 <= AgeOf(days).n <= 4 && 7 * AgeOf(days).n <= days < 7 * AgeOf(days).n + 7
    ensures AgeOf(days).Months? <==> 30 <= days < 365
    ensures AgeOf(days).Months? ==> 1 <= AgeOf(days).n <= 12 && 30 * AgeOf(days).n <= days < 30 * AgeOf(days).n + 30
    ensures AgeOf(days).Years? <==> 365 <= days
    ensures AgeOf(days).Years? ==> 1 <= AgeOf(days).n && 365 * AgeOf(days).n <= days < 365 * AgeOf(days).n + 365
  {
  }

  /** Splits a label at its first space. */
  function FirstWord(t: string): Option<(string, string)> {
    if t == [] then None
    else if t[0] == ' ' then Some(([], t[1..]))
    else
      match FirstWord(t[1..])
      case None => None
      case Some(pu) => Some(([t[0]] + pu.0, pu.1))
  }

  lemma {:induction false} FirstWordOf(p: string, u: string)
    requires ' ' !in p
    ensures FirstWord(p + " " + u) == Some((p, u))
  {
    if p == [] {
      assert p + " " + u == [' '] + u;
    } else {
      FirstWordOf(p[1..], u);
      assert (p + " " + u)[1..] == p[1..] + " " + u;
      assert p == [p[0]] + p[1..];
    }
  }

  /** Reads a label back into its bucket. */
  function ParseAge(t: string): Option<Age> {
    if t == "Hoje" then Some(Today)
    else if t == "Ontem" then Some(Yesterday)
    else
      match FirstWord(t)
      case None => None
      case Some(pu) =>
        match ParseInt(pu.0)
        case None => None
        case Some(n) =>
          if pu.1 == DaysUnit then Some(Days(n))
          else if pu.1 == WeeksUnit then Some(Weeks(n))
          else if pu.1 == MonthsUnit then Some(Months(n))
          else if pu.1 == YearsUnit then Some(Years(n))
          else None
  }

  /** Every bucket's text reads back as that bucket: the labels are unambiguous. */
  lemma AgeTextRoundTrip(a: Age)
    ensures ParseAge(AgeText(a)) == Some(a)
  {
    match a
    case Today =>
    case Yesterday =>
    case Days(n) => NumberThenUnit(n, DaysUnit);
    case Weeks(n) => NumberThenUnit(n, WeeksUnit);
    case Months(n) => NumberThenUnit(n, MonthsUnit);
    case Years(n) => NumberThenUnit(n, YearsUnit);
  }

  lemma NumberThenUnit(n: int, unit: string)
    requires |unit| >= 5
    ensures IntToString(n) + " " + unit != "Hoje" && IntToString(n) + " " + unit != "Ontem"
    ensures FirstWord(IntToString(n) + " " + unit) == Some((IntToString(n), unit))
    ensures ParseInt(IntToString(n)) == Some(n)
  {
    IntToStringNoSpace(n);
    FirstWordOf(IntToString(n), unit);
    IntToStringRoundTrip(n);
    assert |IntToString(n) + " " + unit| > 5;
  }

  /** The label of a day count reads back as the bucket of that count, so it pins the
      count down to the bucket's range (AgeOfMeaning). */
  lemma FormatDateReadsBack(days: int)
    ensures ParseAge(FormatDate(days)) == Some(AgeOf(days))
  {
    AgeTextRoundTrip(AgeOf(days));
  }
}
