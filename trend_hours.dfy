/** The hour-of-day tables the trend fallbacks pick their keywords by: web_app.py
    (get_trending_keywords) splits the day in three by if/elif, desktop_gui.py
    (get_naver_realtime_keywords) looks the hour up in a dict keyed by ranges. Only
    the lookup is modelled; the keyword lists are the table's values. */
module TrendHours {
  import opened Text

  datatype DayPart = Morning | Afternoon | Evening

  /** web_app.py: 6 <= h < 12 morning, 12 <= h < 18 afternoon, otherwise evening. */
  function WebDayPart(hour: int): (r: DayPart)
    ensures r == Morning <==> 6 <= hour < 12
    ensures r == Afternoon <==> 12 <= hour < 18
  {
    if 6 <= hour < 12 then Morning
    else if 12 <= hour < 18 then Afternoon
    else Evening
  }

  /** The desktop table's keys, range(lo, hi), in insertion order. */
  const HourRanges: seq<(int, int)> := [(6, 12), (12, 18), (18, 24), (0, 6)]

  /** The key of the default list, range(12, 18). */
  const DefaultSlot: nat := 1

  predicate InRange(r: (int, int), hour: int) { r.0 <= hour < r.1 }

  /** The first range holding the hour, as the dict iteration finds it. */
  function FirstRange(ranges: seq<(int, int)>, hour: int): (r: Option<nat>)
    ensures r.Some? ==> (r.value < |ranges| && InRange(ranges[r.value], hour) &&
                         forall j :: 0 <= j < r.value ==> !InRange(ranges[j], hour))
    ensures r.None? ==> forall j :: 0 <= j < |ranges| ==> !InRange(ranges[j], hour)
  {
    if ranges == [] then None
    else if InRange(ranges[0], hour) then Some(0)
    else
      match FirstRange(ranges[1..], hour)
      case None => None
      case Some(k) => Some(k + 1)
  }

  /** The table entry whose list the desktop application returns. */
  function DesktopSlot(hour: int): (r: nat)
    ensures r < |HourRanges|
  {
    match FirstRange(HourRanges, hour)
    case None => DefaultSlot
    case Some(k) => k
  }

  /** The lookup loop: the first key containing the hour, else the default. */
  method RealtimeSlot(hour: int) returns (slot: nat)
    ensures slot == DesktopSlot(hour)
  {
    var i := 0;
    while i < |HourRanges|
      invariant 0 <= i <= |HourRanges|
      invariant forall j :: 0 <= j < i ==> !InRange(HourRanges[j], hour)
    {
      if HourRanges[i].0 <= hour < HourRanges[i].1 {
        FirstRangeAt(HourRanges, hour, i);
        return i;
      }
      i := i + 1;
    }
    return DefaultSlot;
  }

  lemma {:induction false} FirstRangeAt(ranges: seq<(int, int)>, hour: int, i: nat)
    requires i < |ranges| && InRange(ranges[i], hour)
    requires forall j :: 0 <= j < i ==> !InRange(ranges[j], hour)
    ensures FirstRange(ranges, hour) == Some(i)
    decreases i
  {
    if i > 0 {
      FirstRangeAt(ranges[1..], hour, i - 1);
    }
  }

  /** The part of day of the web's three tables that each desktop key corresponds to.
      The desktop has four lists to the web's three: key 3, range(0, 6), holds a
      separate late-night list, and is labelled Evening only because the web's `else`
      branch gives those hours its evening list. */
  function SlotPart(slot: nat): DayPart
  {
    if slot == 0 then Morning else if slot == 1 then Afternoon else Evening
  }

  /** Every hour a clock shows lies in exactly one desktop key, and that key
      corresponds to the web's part of the day. For hours 0-5 the agreement is only
      through SlotPart's labelling: the desktop then uses its own night list
      (NightHours). */
  lemma DayPartsAgree(hour: int)
    requires 0 <= hour < 24
    ensures FirstRange(HourRanges, hour).Some?
    ensures SlotPart(DesktopSlot(hour)) == WebDayPart(hour)
  {
    if 6 <= hour < 12 {
      FirstRangeAt(HourRanges, hour, 0);
    } else if 12 <= hour < 18 {
      FirstRangeAt(HourRanges, hour, 1);
    } else if 18 <= hour < 24 {
      FirstRangeAt(HourRanges, hour, 2);
    } else {
      FirstRangeAt(HourRanges, hour, 3);
    }
  }

  /** Hours 0-5 take the desktop's late-night list (key 3), while the web, having no
      night table, gives them its evening list. */
  lemma NightHours(hour: int)
    requires 0 <= hour < 6
    ensures DesktopSlot(hour) == 3 && DesktopSlot(hour) != DesktopSlot(18)
    ensures WebDayPart(hour) == Evening
  {
    FirstRangeAt(HourRanges, hour, 3);
    FirstRangeAt(HourRanges, 18, 2);
  }

  /** An hour outside every key falls back to the afternoon list on the desktop, while
      the web table calls it evening. */
  lemma OutsideTheClock(hour: int)
    requires hour < 0 || hour >= 24
    ensures DesktopSlot(hour) == DefaultSlot && SlotPart(DesktopSlot(hour)) == Afternoon
    ensures WebDayPart(hour) == Evening
  {
  }
}
