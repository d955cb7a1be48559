/** Duration buckets of the summary and the unit a duration is printed in. */
module Buckets {
  import opened GapScan
  import opened GapSort

  const Minute: real := 60.0
  const Hour: real := 3600.0
  const Day: real := 86400.0

  /** The four summary buckets; the last one, labelled "> 1 day", also takes
      a duration of exactly one day. */
  datatype Category = UnderMinute | MinuteToHour | HourToDay | DayOrMore

  /** The bucket of a duration (source lines 233-241). */
  function CategoryOf(duration: real): (c: Category)
    ensures c == UnderMinute <==> duration < Minute
    ensures c == MinuteToHour <==> Minute <= duration < Hour
    ensures c == HourToDay <==> Hour <= duration < Day
    ensures c == DayOrMore <==> Day <= duration
  {
    if duration < Minute then UnderMinute
    else if duration < Hour then MinuteToHour
    else if duration < Day then HourToDay
    else DayOrMore
  }

  datatype DurationUnit = InSeconds | InMinutes | InHours | InDays

  /** Seconds in one of a unit. */
  function UnitLength(u: DurationUnit): real
  {
    match u
    case InSeconds => 1.0
    case InMinutes => Minute
    case InHours => Hour
    case InDays => Day
  }

  /** A duration as an amount of a unit, before the amount is rounded to one
      decimal for printing. */
  datatype Duration = Duration(amount: real, unit: DurationUnit)

  /** The unit choice of the human-readable duration (source lines 53-62):
      the amount times the unit is the duration, and the thresholds are the
      bucket thresholds, so a bucket's gaps print in one unit. */
  function FormatDuration(seconds: real): (r: Duration)
    ensures r.amount * UnitLength(r.unit) == seconds
    ensures r.unit == UnitOf(CategoryOf(seconds))
    ensures r.unit != InSeconds ==> r.amount >= 1.0
    ensures r.unit == InMinutes ==> r.amount < 60.0
    ensures r.unit == InHours ==> r.amount < 24.0
  {
    if seconds < 60.0 then Duration(seconds, InSeconds)
    else if seconds < 3600.0 then Duration(seconds / 60.0, InMinutes)
    else if seconds < 86400.0 then Duration(seconds / 3600.0, InHours)
    else Duration(seconds / 86400.0, InDays)
  }

  /** The unit the gaps of one bucket are printed in. */
  function UnitOf(c: Category): DurationUnit
  {
    match c
    case UnderMinute => InSeconds
    case MinuteToHour => InMinutes
    case HourToDay => InHours
    case DayOrMore => InDays
  }

  /** The gaps of `gs` in bucket `c`, in the order of `gs`. */
  function Select(gs: seq<Gap>, c: Category): seq<Gap>
    decreases |gs|
  {
    if gs == [] then []
    else Select(gs[..|gs| - 1], c) + (if CategoryOf(gs[|gs| - 1].gap) == c then [gs[|gs| - 1]] else [])
  }

  /** The four bucket lists. */
  datatype Categories = Categories(underMinute: seq<Gap>, minuteToHour: seq<Gap>, hourToDay: seq<Gap>, dayOrMore: seq<Gap>)

  /** The bucket lists of `gs`. */
  function Categorized(gs: seq<Gap>): Categories
  {
    Categories(Select(gs, UnderMinute), Select(gs, MinuteToHour), Select(gs, HourToDay), Select(gs, DayOrMore))
  }

  /** The list of bucket `c`. */
  function Of(cats: Categories, c: Category): seq<Gap>
  {
    match c
    case UnderMinute => cats.underMinute
    case MinuteToHour => cats.minuteToHour
    case HourToDay => cats.hourToDay
    case DayOrMore => cats.dayOrMore
  }

  /** The categorisation loop (source lines 231-241): each gap, in the order
      given, is appended to the list of its bucket. */
  method Categorize(bySize: seq<Gap>) returns (cats: Categories)
    ensures cats == Categorized(bySize)
    ensures forall c :: Of(cats, c) == Select(bySize, c)
    ensures |cats.underMinute| + |cats.minuteToHour| + |cats.hourToDay| + |cats.dayOrMore| == |bySize|
  {
    var under, minutes, hours, days := [], [], [], [];
    var i := 0;
    while i < |bySize|
      invariant 0 <= i <= |bySize|
      invariant under == Select(bySize[..i], UnderMinute)
      invariant minutes == Select(bySize[..i], MinuteToHour)
      invariant hours == Select(bySize[..i], HourToDay)
      invariant days == Select(bySize[..i], DayOrMore)
    {
      var gap := bySize[i];
      var duration := gap.gap;
      if duration < 60.0 {
        under := under + [gap];
      } else if duration < 3600.0 {
        minutes := minutes + [gap];
      } else if duration < 86400.0 {
        hours := hours + [gap];
      } else {
        days := days + [gap];
      }
      assert bySize[..i + 1][..i] == bySize[..i];
      i := i + 1;
    }
    assert bySize[..i] == bySize;
    cats := Categories(under, minutes, hours, days);
    SelectSizes(bySize);
  }

  /** A gap is in a bucket's list exactly when it is one of the gaps and its
      duration falls in that bucket; so it is in exactly one list. */
  lemma {:induction false} SelectMembership(gs: seq<Gap>, c: Category, g: Gap)
    ensures g in Select(gs, c) <==> g in gs && CategoryOf(g.gap) == c
    decreases |gs|
  {
    if gs != [] {
      SelectMembership(gs[..|gs| - 1], c, g);
      assert gs == gs[..|gs| - 1] + [gs[|gs| - 1]];
    }
  }

  /** The bucket sizes add up to the number of gaps. */
  lemma {:induction false} SelectSizes(gs: seq<Gap>)
    ensures |Select(gs, UnderMinute)| + |Select(gs, MinuteToHour)| + |Select(gs, HourToDay)| + |Select(gs, DayOrMore)| == |gs|
    decreases |gs|
  {
    if gs != [] {
      SelectSizes(gs[..|gs| - 1]);
    }
  }

  /** A bucket's list keeps the descending-duration order of its input. */
  lemma {:induction false} SelectKeepsOrder(gs: seq<Gap>, c: Category)
    requires Sorted(gs, ByGapDesc)
    ensures Sorted(Select(gs, c), ByGapDesc)
    decreases |gs|
  {
    if gs != [] {
      var init := gs[..|gs| - 1];
      var x := gs[|gs| - 1];
      SortedSplit(gs, ByGapDesc);
      SelectKeepsOrder(init, c);
      SelectBelow(init, c, x);
      if CategoryOf(x.gap) == c {
        SortedSnoc(Select(init, c), x, ByGapDesc);
      } else {
        assert Select(gs, c) == Select(init, c) + [];
      }
    }
  }

  /** Selecting from gaps whose keys are all below x's keeps them below. */
  lemma SelectBelow(init: seq<Gap>, c: Category, x: Gap)
    requires forall j :: 0 <= j < |init| ==> Key(ByGapDesc, init[j]) <= Key(ByGapDesc, x)
    ensures forall i :: 0 <= i < |Select(init, c)| ==> Key(ByGapDesc, Select(init, c)[i]) <= Key(ByGapDesc, x)
  {
    var r := Select(init, c);
    forall i | 0 <= i < |r|
      ensures Key(ByGapDesc, r[i]) <= Key(ByGapDesc, x)
    {
      assert r[i] in r;
      SelectMembership(init, c, r[i]);
      var j :| 0 <= j < |init| && init[j] == r[i];
    }
  }
}
