/** The scheduling heuristic's scoring: difficulty weights, fixed study
    block lengths, the priority score and the time-left label. */
module Heuristic {
  import opened Clock
  import opened Tasks

  /** `HARDNESS_WEIGHT`: Easy 1, Medium 2, Hard 3. */
  function Weight(h: Hardness): (w: int)
    ensures 1 <= w <= 3
  {
    match h
    case Easy => 1
    case Medium => 2
    case Hard => 3
  }

  /** A harder difficulty weighs strictly more, and the weights tell the difficulties apart. */
  lemma WeightOrdersHardness(a: Hardness, b: Hardness)
    ensures Weight(a) == Weight(b) <==> a == b
    ensures Weight(Easy) < Weight(Medium) < Weight(Hard)
  {
  }

  /** The length in seconds of the study block for a difficulty. */
  function StudyDuration(h: Hardness): (d: nat)
    ensures 45 * Minute <= d <= 2 * Hour
  {
    match h
    case Easy => 45 * Minute
    case Medium => 1 * Hour + 30 * Minute
    case Hard => 2 * Hour
  }

  /** The block lengths are 45, 90 and 120 minutes, and a harder task gets a strictly longer block. */
  lemma StudyDurationMinutes(a: Hardness, b: Hardness)
    ensures StudyDuration(Easy) == 45 * Minute
    ensures StudyDuration(Medium) == 90 * Minute
    ensures StudyDuration(Hard) == 120 * Minute
    ensures Weight(a) < Weight(b) ==> StudyDuration(a) < StudyDuration(b)
  {
  }

  /** The duration table looked up by difficulty name: a name outside the table
      has no entry, where the dictionary lookup raises `KeyError`. */
  function StudyDurationOf(key: string): (r: Option<nat>)
    ensures r.None? <==> ParseHardness(key).None?
    ensures key == "Easy" ==> r == Some(45 * Minute)
    ensures key == "Medium" ==> r == Some(90 * Minute)
    ensures key == "Hard" ==> r == Some(120 * Minute)
  {
    match ParseHardness(key)
    case None => None
    case Some(h) => Some(StudyDuration(h))
  }

  /** Hours left until the deadline as a real number, clamped at zero. */
  function HoursLeft(deadline: int, now: int): (h: real)
    ensures h >= 0.0
  {
    var hours := (deadline - now) as real / Hour as real;
    if hours > 0.0 then hours else 0.0
  }

  /** The urgency tier of the hours left: 1 beyond a day, 3 beyond six hours, 5 otherwise. */
  function Urgency(hoursLeft: real): (u: int)
    ensures u == 1 || u == 3 || u == 5
  {
    if hoursLeft > 24.0 then 1 else if hoursLeft > 6.0 then 3 else 5
  }

  /** The tiers in whole seconds: the tier is 1 exactly when more than 24 hours are
      left, 3 exactly when more than 6 and at most 24 are left, and 5 otherwise,
      past deadlines included. */
  lemma UrgencyInSeconds(deadline: int, now: int)
    ensures Urgency(HoursLeft(deadline, now)) == 1 <==> deadline - now > 24 * Hour
    ensures Urgency(HoursLeft(deadline, now)) == 3 <==> 6 * Hour < deadline - now <= 24 * Hour
    ensures Urgency(HoursLeft(deadline, now)) == 5 <==> deadline - now <= 6 * Hour
  {
  }

  /** `ai_priority`: twice the difficulty weight plus three times the urgency tier. */
  function Priority(t: Task, now: int): (p: int)
    ensures 5 <= p <= 21
  {
    Weight(t.hardness) * 2 + Urgency(HoursLeft(t.deadline, now)) * 3
  }

  /** The score is determined by the weight and the seconds left, and the two extremes are reached:
      a Hard task due within six hours scores 21 and an Easy task due in more than a day scores 5. */
  lemma PriorityInSeconds(t: Task, now: int)
    ensures Priority(t, now) == Weight(t.hardness) * 2 +
      3 * (if t.deadline - now > 24 * Hour then 1 else if t.deadline - now > 6 * Hour then 3 else 5)
    ensures Priority(t, now) == 21 <==> t.hardness == Hard && t.deadline - now <= 6 * Hour
    ensures Priority(t, now) == 5 <==> t.hardness == Easy && t.deadline - now > 24 * Hour
  {
  }

  /** For a fixed moment, moving the deadline earlier never lowers the score. */
  lemma PriorityEarlierDeadline(t: Task, earlier: int, now: int)
    requires earlier <= t.deadline
    ensures Priority(t.(deadline := earlier), now) >= Priority(t, now)
  {
  }

  /** For a fixed moment, a harder difficulty never lowers the score. */
  lemma PriorityHarder(t: Task, harder: Hardness, now: int)
    requires Weight(t.hardness) <= Weight(harder)
    ensures Priority(t.(hardness := harder), now) >= Priority(t, now)
  {
  }

  /** The time-left label: expired, a whole number of hours, or a whole number of days. */
  datatype Label = Expired | Hours(hours: nat) | Days(days: nat)

  /** `remaining`: "Expired" when the deadline is not in the future; otherwise the
      hours left rounded down while under a day, else the days left rounded down. */
  function Remaining(deadline: int, now: int): (l: Label)
    ensures l.Expired? <==> deadline <= now
    ensures l.Hours? ==> l.hours < 24
    ensures l.Days? ==> l.days >= 1
  {
    var secs := deadline - now;
    if secs <= 0 then Expired
    else
      var hrs := secs as real / Hour as real;
      if hrs < 24.0 then Hours(hrs.Floor) else Days((hrs / 24.0).Floor)
  }

  /** The label in whole seconds: hours are the seconds left divided by 3600 while
      fewer than 24 hours remain, days are the seconds left divided by 86400 after. */
  lemma RemainingInSeconds(deadline: int, now: int)
    ensures Remaining(deadline, now) ==
      var secs := deadline - now;
      if secs <= 0 then Expired
      else if secs < SecondsPerDay then Hours(secs / Hour)
      else Days(secs / SecondsPerDay)
  {
  }

  /** The decimal numeral of a natural number, without leading zeros (`str(n)`). */
  function Decimal(n: nat): (s: string)
    ensures |s| >= 1
    ensures forall i :: 0 <= i < |s| ==> '0' <= s[i] <= '9'
    ensures s[0] == '0' ==> n == 0
  {
    if n < 10 then [Digit(n)] else Decimal(n / 10) + [Digit(n % 10)]
  }

  function Digit(d: nat): (c: char)
    requires d < 10
    ensures '0' <= c <= '9' && c as int - '0' as int == d
  {
    ('0' as int + d) as char
  }

  /** The number a string of digits denotes. */
  function DecimalValue(s: string): nat
  {
    if s == [] then 0
    else
      var c := s[|s| - 1];
      var d := if '0' <= c <= '9' then c as int - '0' as int else 0;
      DecimalValue(s[..|s| - 1]) * 10 + d
  }

  /** Reading a numeral back gives the number it was written from. */
  lemma {:induction false} DecimalRoundTrip(n: nat)
    ensures DecimalValue(Decimal(n)) == n
  {
    if n >= 10 {
      var s := Decimal(n);
      assert s[..|s| - 1] == Decimal(n / 10);
      DecimalRoundTrip(n / 10);
    }
  }

  /** The label as it is displayed: "Expired", "<n> hrs" or "<n> days". */
  function Render(l: Label): (s: string)
    ensures s == "Expired" <==> l.Expired?
    ensures l.Hours? ==> s == Decimal(l.hours) + " hrs" && s[|s| - 4..] == " hrs"
    ensures l.Days? ==> s == Decimal(l.days) + " days" && s[|s| - 5..] == " days"
  {
    match l
    case Expired => "Expired"
    case Hours(n) =>
      var s := Decimal(n) + " hrs";
      assert s[|s| - 4] == ' ';
      s
    case Days(n) =>
      var s := Decimal(n) + " days";
      assert s[|s| - 4] == 'd';
      s
  }

  /** Different labels are displayed differently. */
  lemma RenderInjective(a: Label, b: Label)
    requires Render(a) == Render(b)
    ensures a == b
  {
    var s := Render(a);
    // the fourth character from the end tells the three forms apart
    assert |s| >= 5 ==> s[|s| - 4] == (if a.Expired? then 'i' else if a.Hours? then ' ' else 'd');
    assert |s| >= 5 ==> s[|s| - 4] == (if b.Expired? then 'i' else if b.Hours? then ' ' else 'd');
    if a.Hours? && b.Hours? {
      assert s[..|s| - 4] == Decimal(a.hours) && s[..|s| - 4] == Decimal(b.hours);
      DecimalRoundTrip(a.hours);
      DecimalRoundTrip(b.hours);
    } else if a.Days? && b.Days? {
      assert s[..|s| - 5] == Decimal(a.days) && s[..|s| - 5] == Decimal(b.days);
      DecimalRoundTrip(a.days);
      DecimalRoundTrip(b.days);
    }
  }

  /** The displayed label reads "Expired" exactly when the deadline is not in the future. */
  lemma RenderExpired(deadline: int, now: int)
    ensures Render(Remaining(deadline, now)) == "Expired" <==> deadline <= now
  {
  }
}
