/** The night scheduler behind `restart night`: a smooth approximation of
    dusk and dawn over the year, tuned for the latitude of Kansas City.

    The local time is a parameter (hour, minute, day of the year counted
    from 0, and the daylight-saving flag) instead of a call to the system
    clock; the float constants are reals. */
module Night {

  const BaseNightBegin: real := 16.83
  const BaseNightEnd: real := 7.74

  datatype LocalTime = LocalTime(hour: int, minute: int, yday: int, isdst: int)

  /** Days since the winter solstice (taken as day 11), folded at 183 so
      that the term is symmetric around the summer solstice. */
  function RealDay(yday: int): int
  {
    var d := yday - 11;
    var d1 := if d < 0 then d + 365 else d;
    if d1 > 183 then 183 - (d1 - 183) else d1
  }

  /** For every day of the year the fold lies in 0..183 and equals the
      distance, in days, from day 11 counted the shorter way round a
      366-day fold. */
  lemma RealDayFold(yday: int)
    requires 0 <= yday <= 365
    ensures 0 <= RealDay(yday) <= 183
    ensures var r := (yday - 11) % 365; RealDay(yday) == if r <= 183 then r else 366 - r
  {
  }

  /** The local hour as a real, one hour earlier while daylight-saving time
      is in effect (any non-zero flag counts). */
  function RealHour(hour: int, minute: int, isdst: int): real
  {
    hour as real + minute as real / 60.0 - (if isdst != 0 then 1.0 else 0.0)
  }

  function NightEnd(realDay: int): real
  {
    BaseNightEnd - realDay as real / 60.0
  }

  function NightBegin(realDay: int): real
  {
    BaseNightBegin + realDay as real / 60.0
  }

  /** The night test of the wait loop. */
  predicate IsNight(h: real, realDay: int)
  {
    (h <= NightEnd(realDay) && h >= 0.0) || (h >= NightBegin(realDay) && h <= 24.0)
  }

  predicate IsNightAt(t: LocalTime)
  {
    IsNight(RealHour(t.hour, t.minute, t.isdst), RealDay(t.yday))
  }

  /** Over the folded year the morning end of the night moves between 4.69
      and 7.74 and the evening begin between 16.83 and 19.88; the night is
      exactly the two windows [0, end] and [begin, 24]. */
  lemma NightWindows(h: real, realDay: int)
    requires 0 <= realDay <= 183
    ensures 4.69 <= NightEnd(realDay) <= 7.74 && 16.83 <= NightBegin(realDay) <= 19.88
    ensures IsNight(h, realDay) <==> (0.0 <= h <= NightEnd(realDay) || NightBegin(realDay) <= h <= 24.0)
    ensures NightEnd(realDay) < h < NightBegin(realDay) ==> !IsNight(h, realDay)
    ensures IsNight(0.0, realDay) && !IsNight(12.0, realDay)
  {
  }

  /** As written, under daylight-saving time the hour from 00:00 to 00:59
      gives a negative real hour, which neither window contains: that hour is
      never night. */
  lemma DstFirstHourNotNight(minute: int, yday: int, isdst: int)
    requires 0 <= minute < 60 && 0 <= yday <= 365 && isdst != 0
    ensures !IsNightAt(LocalTime(0, minute, yday, isdst))
  {
    RealDayFold(yday);
  }

  /** The night wait: the index of the first poll of the local time that
      falls in the night, or |times| if none does. */
  method AwaitNight(times: seq<LocalTime>) returns (k: nat)
    ensures k <= |times|
    ensures k < |times| ==> IsNightAt(times[k])
    ensures forall j :: 0 <= j < k ==> !IsNightAt(times[j])
  {
    k := 0;
    var night := false;
    while !night && k < |times|
      invariant k <= |times|
      invariant night ==> k < |times| && IsNightAt(times[k])
      invariant forall j :: 0 <= j < k ==> !IsNightAt(times[j])
    {
      var t := times[k];
      var realDay := RealDay(t.yday);
      var realHour := RealHour(t.hour, t.minute, t.isdst);
      if (realHour <= BaseNightEnd - realDay as real / 60.0 && realHour >= 0.0)
         || (realHour >= BaseNightBegin + realDay as real / 60.0 && realHour <= 24.0) {
        night := true;
      } else {
        k := k + 1;
      }
    }
  }
}
