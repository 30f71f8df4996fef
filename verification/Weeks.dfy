/**
 * Local weeks (src/modules/capacity/weeks.ts). A time zone is a function from instants to offsets. Both are in
 * whole seconds: every wall clock is read to the second, and every instant that is computed is a whole one. A calendar
 * date is a day number, ordered as the source's year-month-day key is.
 */
module Weeks {
  import opened Common

  const HOUR := 3_600
  const DAY := 24 * HOUR

  type Zone = int -> int

  /** The local wall clock at an instant, written as the instant at which UTC would show it. */
  function LocalWall(z: Zone, t: int): int { t + z(t) }

  function LocalDay(z: Zone, t: int): int { LocalWall(z, t) / DAY }

  ghost predicate RealZone(z: Zone)
  {
    forall t :: -16 * HOUR < z(t) < 16 * HOUR
  }

  // ---- midnight -----------------------------------------------------------------------------------------------------

  predicate Hits(z: Zone, t: int, wall: int) { LocalWall(z, t) == wall }

  /** The smallest of the candidates that show midnight. */
  function Earliest(z: Zone, wall: int, candidates: seq<int>): Option<int>
  {
    if candidates == [] then None
    else
      var rest := Earliest(z, wall, candidates[1..]);
      if !Hits(z, candidates[0], wall) then rest
      else if rest.None? || candidates[0] < rest.value then Some(candidates[0])
      else rest
  }

  function Candidates(z: Zone, wall: int): seq<int>
  {
    [wall - z(wall - 12 * HOUR), wall - z(wall + 12 * HOUR), wall - z(wall)]
  }

  function Mid(lo: int, hi: int): (mid: int)
    requires hi - lo > 1
    ensures lo < mid < hi
  {
    (lo + hi) / 2
  }

  function Search(z: Zone, day: int, lo: int, hi: int): (t: int)
    requires lo < hi
    requires LocalDay(z, lo) < day <= LocalDay(z, hi)
    ensures lo < t <= hi && LocalDay(z, t - 1) < day <= LocalDay(z, t)
    decreases hi - lo
  {
    if hi - lo > 1 then
      var mid := Mid(lo, hi);
      if LocalDay(z, mid) >= day then Search(z, day, lo, mid) else Search(z, day, mid, hi)
    else hi
  }

  lemma Brackets(z: Zone, day: int)
    requires RealZone(z)
    ensures var lo, hi := day * DAY - 16 * HOUR, day * DAY + 16 * HOUR;
            LocalDay(z, lo) < day <= LocalDay(z, hi)
  {
    var lo, hi := day * DAY - 16 * HOUR, day * DAY + 16 * HOUR;
    DayOf(LocalWall(z, lo), day);
    DayOf(LocalWall(z, hi), day);
  }

  lemma DayOf(wall: int, day: int)
    ensures wall >= day * DAY <==> wall / DAY >= day
  {
  }

  ghost function Midnight(z: Zone, day: int): int
    requires RealZone(z)
  {
    var wall := day * DAY;
    var earliest := Earliest(z, wall, Candidates(z, wall));
    Brackets(z, day);
    if earliest.Some? then earliest.value else Search(z, day, wall - 16 * HOUR, wall + 16 * HOUR)
  }

  /** The search through a gap: the first instant whose local date is the target. */
  method SearchGap(z: Zone, day: int, from: int, to: int) returns (t: int)
    requires from < to
    requires LocalDay(z, from) < day <= LocalDay(z, to)
    ensures t == Search(z, day, from, to)
  {
    var lo, hi := from, to;
    while hi - lo > 1
      invariant lo < hi
      invariant LocalDay(z, lo) < day <= LocalDay(z, hi)
      invariant Search(z, day, lo, hi) == Search(z, day, from, to)
    {
      var mid := Mid(lo, hi);
      if LocalDay(z, mid) >= day { hi := mid; } else { lo := mid; }
    }
    return hi;
  }

  method ZonedMidnightToUtc(z: Zone, day: int) returns (t: int)
    requires RealZone(z)
    ensures t == Midnight(z, day)
  {
    var wall := day * DAY;
    var earliest := Earliest(z, wall, Candidates(z, wall));
    if earliest.Some? { return earliest.value; }
    Brackets(z, day);
    t := SearchGap(z, day, wall - 16 * HOUR, wall + 16 * HOUR);
  }

  lemma CandidatesNear(z: Zone, wall: int)
    requires RealZone(z)
    ensures forall c :: c in Candidates(z, wall) ==> wall - 16 * HOUR < c < wall + 16 * HOUR
  {
  }

  /** Midnight itself when a candidate shows it, and otherwise the far side of a jump over it. */
  lemma MidnightCases(z: Zone, day: int)
    requires RealZone(z)
    ensures var t, wall := Midnight(z, day), day * DAY;
            && wall - 16 * HOUR < t <= wall + 16 * HOUR
            && (if exists c :: c in Candidates(z, wall) && Hits(z, c, wall)
                then
                  && t in Candidates(z, wall) && Hits(z, t, wall)
                  && forall c :: c in Candidates(z, wall) && Hits(z, c, wall) ==> t <= c
                else LocalDay(z, t - 1) < day <= LocalDay(z, t))
  {
    EarliestExact(z, day * DAY, Candidates(z, day * DAY));
    CandidatesNear(z, day * DAY);
    Brackets(z, day);
  }

  /** Whatever the zone does: the result lies on or after the date, at midnight itself or just past a jump over it. */
  lemma MidnightReaches(z: Zone, day: int)
    requires RealZone(z)
    ensures var t := Midnight(z, day);
            && day * DAY - 16 * HOUR < t <= day * DAY + 16 * HOUR
            && LocalDay(z, t) >= day
            && (LocalWall(z, t) == day * DAY || LocalDay(z, t - 1) < day)
  {
    MidnightCases(z, day);
    DayOf(LocalWall(z, Midnight(z, day)), day);
  }

  lemma {:induction false} EarliestExact(z: Zone, wall: int, candidates: seq<int>)
    ensures var e := Earliest(z, wall, candidates);
            && (e.Some? ==> e.value in candidates && Hits(z, e.value, wall))
            && forall c :: c in candidates && Hits(z, c, wall) ==> e.Some? && e.value <= c
  {
    if candidates != [] {
      EarliestExact(z, wall, candidates[1..]);
      assert candidates == [candidates[0]] + candidates[1..];
    }
  }

  /** The first instant of a date: no earlier one shows that date or a later one. */
  ghost predicate StartsDay(z: Zone, day: int, t: int)
  {
    LocalDay(z, t) >= day && forall u :: u < t ==> LocalDay(z, u) < day
  }

  /** Around midnight the offset is `before` until `turn` and `after` from then on; a turn far away means no change. */
  ghost predicate OneChange(z: Zone, wall: int, turn: int, before: int, after: int)
  {
    forall u :: wall - 16 * HOUR <= u <= wall + 16 * HOUR ==> z(u) == if u < turn then before else after
  }

  /**
   * Twelve hours is too near to see the old offset, under which the date had begun before the clock turned back over
   * it.
   */
  predicate MissedTurn(wall: int, turn: int, before: int, after: int)
  {
    wall - before < turn <= wall - 12 * HOUR && turn <= wall - after
  }

  predicate PastMidnight(wall: int, turn: int, before: int, after: int, u: int)
  {
    if u < turn then u >= wall - before else u >= wall - after
  }

  lemma PastIsDay(z: Zone, day: int, turn: int, before: int, after: int, u: int)
    requires RealZone(z) && OneChange(z, day * DAY, turn, before, after)
    requires day * DAY - 16 * HOUR <= u <= day * DAY + 16 * HOUR
    ensures LocalDay(z, u) >= day <==> PastMidnight(day * DAY, turn, before, after, u)
    ensures Hits(z, u, day * DAY) <==> u == day * DAY - (if u < turn then before else after)
  {
    DayOf(LocalWall(z, u), day);
  }

  /** What the three probes see. */
  lemma ProbesSee(z: Zone, wall: int, turn: int, before: int, after: int)
    requires RealZone(z) && OneChange(z, wall, turn, before, after)
    ensures wall - before in Candidates(z, wall) <== turn > wall - 12 * HOUR
    ensures wall - after in Candidates(z, wall) <== turn <= wall + 12 * HOUR
    ensures forall c :: c in Candidates(z, wall) ==>
              (c == wall - before && turn > wall - 12 * HOUR) || (c == wall - after && turn <= wall + 12 * HOUR)
  {
  }

  lemma StartIfStepped(z: Zone, day: int, turn: int, before: int, after: int, t: int)
    requires RealZone(z) && OneChange(z, day * DAY, turn, before, after)
    requires day * DAY - 16 * HOUR < t <= day * DAY + 16 * HOUR
    requires PastMidnight(day * DAY, turn, before, after, t)
    requires forall u :: day * DAY - 16 * HOUR <= u < t ==> !PastMidnight(day * DAY, turn, before, after, u)
    ensures StartsDay(z, day, t)
  {
    PastIsDay(z, day, turn, before, after, t);
    forall u | u < t
      ensures LocalDay(z, u) < day
    {
      if u < day * DAY - 16 * HOUR {
        DayOf(LocalWall(z, u), day);
      } else {
        PastIsDay(z, day, turn, before, after, u);
      }
    }
  }

  lemma CandidateHits(z: Zone, day: int, turn: int, before: int, after: int, offset: int)
    requires RealZone(z) && OneChange(z, day * DAY, turn, before, after)
    requires -16 * HOUR < offset < 16 * HOUR
    ensures Hits(z, day * DAY - offset, day * DAY) <==> offset == if day * DAY - offset < turn then before else after
    ensures LocalDay(z, day * DAY - offset) >= day <==> PastMidnight(day * DAY, turn, before, after, day * DAY - offset)
  {
    PastIsDay(z, day, turn, before, after, day * DAY - offset);
  }

  lemma CandidateSeen(z: Zone, day: int, turn: int, before: int, after: int)
    requires RealZone(z) && OneChange(z, day * DAY, turn, before, after) && OffsetPair(before, after)
    ensures turn > day * DAY - 12 * HOUR ==> day * DAY - before in Candidates(z, day * DAY)
    ensures turn <= day * DAY + 12 * HOUR ==> day * DAY - after in Candidates(z, day * DAY)
    ensures Hits(z, day * DAY - before, day * DAY) <==> day * DAY - before < turn || before == after
    ensures Hits(z, day * DAY - after, day * DAY) <==> day * DAY - after >= turn || before == after
  {
    ProbesSee(z, day * DAY, turn, before, after);
    CandidateHits(z, day, turn, before, after, before);
    CandidateHits(z, day, turn, before, after, after);
  }

  lemma MissedResult(z: Zone, day: int, turn: int, before: int, after: int)
    requires RealZone(z) && OneChange(z, day * DAY, turn, before, after) && MissedTurn(day * DAY, turn, before, after)
    requires OffsetPair(before, after)
    ensures Midnight(z, day) == day * DAY - after
  {
    CandidateSeen(z, day, turn, before, after);
    assert forall c :: c in Candidates(z, day * DAY) ==> c == day * DAY - after by {
      ProbesSee(z, day * DAY, turn, before, after);
    }
    MidnightCases(z, day);
  }

  lemma MissedIsLate(z: Zone, day: int, turn: int, before: int, after: int)
    requires RealZone(z) && OneChange(z, day * DAY, turn, before, after) && MissedTurn(day * DAY, turn, before, after)
    requires OffsetPair(before, after)
    ensures !StartsDay(z, day, Midnight(z, day))
  {
    MissedResult(z, day, turn, before, after);
    CandidateHits(z, day, turn, before, after, before);
    assert day * DAY - before < Midnight(z, day);
  }

  predicate OffsetPair(before: int, after: int)
  {
    -16 * HOUR < before < 16 * HOUR && -16 * HOUR < after < 16 * HOUR
  }

  lemma HitCore(wall: int, turn: int, before: int, after: int, t: int)
    requires !MissedTurn(wall, turn, before, after)
    requires (t == wall - before && t < turn) || (t == wall - after && t >= turn)
    requires turn > wall - 12 * HOUR && wall - before < turn ==> t <= wall - before
    ensures PastMidnight(wall, turn, before, after, t) && forall u :: u < t ==>
        !PastMidnight(wall, turn, before, after, u)
  {
  }

  lemma HitIsFirst(z: Zone, day: int, turn: int, before: int, after: int, t: int)
    requires RealZone(z) && OneChange(z, day * DAY, turn, before, after) && !MissedTurn(day * DAY, turn, before, after)
    requires OffsetPair(before, after)
    requires t in Candidates(z, day * DAY) && Hits(z, t, day * DAY)
    requires forall c :: c in Candidates(z, day * DAY) && Hits(z, c, day * DAY) ==> t <= c
    ensures StartsDay(z, day, t)
  {
    var wall := day * DAY;
    CandidatesNear(z, wall);
    assert t == wall - (if t < turn then before else after) by { PastIsDay(z, day, turn, before, after, t); }
    if turn > wall - 12 * HOUR && wall - before < turn {
      assert wall - before in Candidates(z, wall) by { ProbesSee(z, wall, turn, before, after); }
      assert Hits(z, wall - before, wall) by { PastIsDay(z, day, turn, before, after, wall - before); }
    }
    HitCore(wall, turn, before, after, t);
    StartIfStepped(z, day, turn, before, after, t);
  }

  lemma GapCore(wall: int, turn: int, before: int, after: int, t: int)
    requires PastMidnight(wall, turn, before, after, t) && !PastMidnight(wall, turn, before, after, t - 1)
    requires turn > wall - 12 * HOUR ==> wall - before >= turn
    requires turn <= wall + 12 * HOUR ==> wall - after < turn
    ensures forall u :: u < t ==> !PastMidnight(wall, turn, before, after, u)
  {
    forall u | u < t
      ensures !PastMidnight(wall, turn, before, after, u)
    {
      assert u <= t - 1;
    }
  }

  lemma GapIsFirst(z: Zone, day: int, turn: int, before: int, after: int, t: int)
    requires RealZone(z) && OneChange(z, day * DAY, turn, before, after) && OffsetPair(before, after)
    requires day * DAY - 16 * HOUR < t <= day * DAY + 16 * HOUR
    requires forall c :: c in Candidates(z, day * DAY) ==> !Hits(z, c, day * DAY)
    requires LocalDay(z, t - 1) < day <= LocalDay(z, t)
    ensures StartsDay(z, day, t)
  {
    CandidateSeen(z, day, turn, before, after);
    PastIsDay(z, day, turn, before, after, t);
    PastIsDay(z, day, turn, before, after, t - 1);
    GapCore(day * DAY, turn, before, after, t);
    StartIfStepped(z, day, turn, before, after, t);
  }

  /**
   * With at most one change of offset near midnight, the result is the first instant of the date exactly when no turn
   * is missed.
   */
  lemma MidnightExact(z: Zone, day: int, turn: int, before: int, after: int)
    requires RealZone(z) && OneChange(z, day * DAY, turn, before, after) && OffsetPair(before, after)
    ensures StartsDay(z, day, Midnight(z, day)) <==> !MissedTurn(day * DAY, turn, before, after)
  {
    var t := Midnight(z, day);
    MidnightCases(z, day);
    if MissedTurn(day * DAY, turn, before, after) {
      MissedIsLate(z, day, turn, before, after);
    } else if exists c :: c in Candidates(z, day * DAY) && Hits(z, c, day * DAY) {
      HitIsFirst(z, day, turn, before, after, t);
    } else {
      GapIsFirst(z, day, turn, before, after, t);
    }
  }

  // ---- windows ------------------------------------------------------------------------------------------------------

  /** `startDay` is the Monday that labels the week. */
  datatype Window = Window(startsAt: int, endsAt: int, startDay: int)

  datatype WeekError = BadCount

  /** Day 0, the first of January 1970, was a Thursday. */
  function MondayOf(day: int): (monday: int)
    ensures monday <= day < monday + 7 && monday % 7 == 4
  {
    day - (day + 3) % 7
  }

  ghost function StartAt(z: Zone, monday: int, i: nat): int
    requires RealZone(z)
  {
    Midnight(z, monday + 7 * i)
  }

  ghost predicate Consecutive(z: Zone, monday: int, windows: seq<Window>)
    requires RealZone(z)
  {
    forall i :: 0 <= i < |windows| ==>
      windows[i] == Window(StartAt(z, monday, i), StartAt(z, monday, i + 1), monday + 7 * i)
  }

  method WeekStarts(z: Zone, monday: int, count: nat) returns (starts: seq<int>)
    requires RealZone(z)
    ensures |starts| == count && forall k :: 0 <= k < count ==> starts[k] == StartAt(z, monday, k)
  {
    starts := [];
    var calendar := monday;
    for i := 0 to count
      invariant |starts| == i && calendar == monday + 7 * i
      invariant forall k :: 0 <= k < i ==> starts[k] == StartAt(z, monday, k)
    {
      var instant := ZonedMidnightToUtc(z, calendar);
      starts := starts + [instant];
      calendar := calendar + 7;
    }
  }

  method PairUp(z: Zone, monday: int, starts: seq<int>) returns (windows: seq<Window>)
    requires RealZone(z) && starts != []
    requires forall k :: 0 <= k < |starts| ==> starts[k] == StartAt(z, monday, k)
    ensures |windows| == |starts| - 1 && Consecutive(z, monday, windows)
  {
    windows := [];
    for i := 0 to |starts| - 1
      invariant |windows| == i && Consecutive(z, monday, windows)
    {
      windows := windows + [Window(starts[i], starts[i + 1], monday + 7 * i)];
    }
  }

  method WeekWindows(z: Zone, from: int, count: int) returns (r: Result<seq<Window>, WeekError>)
    requires RealZone(z)
    ensures r.Err? <==> count < 1 || count > 104
    ensures r.Ok? ==> |r.value| == count && Consecutive(z, MondayOf(LocalDay(z, from)), r.value)
  {
    if count < 1 || count > 104 { return Err(BadCount); }
    var monday := MondayOf(LocalDay(z, from));
    var starts := WeekStarts(z, monday, count + 1);
    var windows := PairUp(z, monday, starts);
    return Ok(windows);
  }

  lemma WindowRow(z: Zone, monday: int, windows: seq<Window>, i: nat)
    requires RealZone(z) && Consecutive(z, monday, windows) && i < |windows|
    ensures windows[i] == Window(StartAt(z, monday, i), StartAt(z, monday, i + 1), monday + 7 * i)
  {
  }

  lemma StartReaches(z: Zone, monday: int, i: nat)
    requires RealZone(z)
    ensures (monday + 7 * i) * DAY - 16 * HOUR < StartAt(z, monday, i) <= (monday + 7 * i) * DAY + 16 * HOUR
    ensures LocalDay(z, StartAt(z, monday, i)) >= monday + 7 * i
  {
    MidnightReaches(z, monday + 7 * i);
  }

  /** The windows touch, each is between 5 and 9 days long, and each starts on or after its Monday. */
  lemma WindowsTile(z: Zone, monday: int, windows: seq<Window>, i: nat)
    requires RealZone(z) && Consecutive(z, monday, windows) && i < |windows|
    ensures windows[i].startsAt < windows[i].endsAt
    ensures 7 * DAY - 32 * HOUR < windows[i].endsAt - windows[i].startsAt < 7 * DAY + 32 * HOUR
    ensures i + 1 < |windows| ==> windows[i].endsAt == windows[i + 1].startsAt
    ensures LocalDay(z, windows[i].startsAt) >= windows[i].startDay
            && LocalDay(z, windows[i].endsAt) >= windows[i].startDay + 7
  {
    StartReaches(z, monday, i);
    StartReaches(z, monday, i + 1);
    WindowRow(z, monday, windows, i);
    if i + 1 < |windows| { WindowRow(z, monday, windows, i + 1); }
  }

  ghost predicate NeverBackwards(z: Zone)
  {
    forall t, u :: t <= u ==> LocalDay(z, t) <= LocalDay(z, u)
  }

  /** The first window contains the chosen instant, unless a turn was missed at its start. */
  lemma FirstWindowContains(z: Zone, from: int, windows: seq<Window>, turn: int, before: int, after: int)
    requires RealZone(z) && NeverBackwards(z) && windows != [] && Consecutive(z, MondayOf(LocalDay(z, from)), windows)
    requires OffsetPair(before, after) && OneChange(z, MondayOf(LocalDay(z, from)) * DAY, turn, before, after)
    requires !MissedTurn(MondayOf(LocalDay(z, from)) * DAY, turn, before, after)
    ensures windows[0].startsAt <= from < windows[0].endsAt
  {
    var monday := MondayOf(LocalDay(z, from));
    MidnightExact(z, monday, turn, before, after);
    WindowRow(z, monday, windows, 0);
    assert StartAt(z, monday, 0) == Midnight(z, monday) by { assert monday + 7 * 0 == monday; }
    WindowsTile(z, monday, windows, 0);
    assert LocalDay(z, windows[0].endsAt) >= monday + 7;
  }

  /** An offset of at most twelve hours before the change is never missed. */
  lemma TwelveHoursAreSeen(wall: int, turn: int, before: int, after: int)
    ensures before <= 12 * HOUR ==> !MissedTurn(wall, turn, before, after)
    ensures MissedTurn(wall, turn, before, after) ==> before > 12 * HOUR && before > after
  {
  }

  /**
   * Half an hour is turned back onto midnight at thirteen hours east: twelve and a half hours before UTC shows that
   * date.
   */
  function TurnedBack(day: int): Zone
  {
    u => if u < day * DAY - 25 * HOUR / 2 then 13 * HOUR else 25 * HOUR / 2
  }

  lemma TurnedBackIsReal(day: int)
    ensures RealZone(TurnedBack(day))
    ensures OneChange(TurnedBack(day), day * DAY, day * DAY - 25 * HOUR / 2, 13 * HOUR, 25 * HOUR / 2)
  {
  }

  /** There the date has begun half an hour before the instant that is returned for it. */
  lemma TurnedBackIsLate(day: int)
    ensures var z := TurnedBack(day);
            RealZone(z) && Midnight(z, day) == day * DAY - 25 * HOUR / 2 && LocalDay(z, day * DAY - 13 * HOUR) >= day
            && !StartsDay(z, day, Midnight(z, day))
  {
    var z, turn := TurnedBack(day), day * DAY - 25 * HOUR / 2;
    TurnedBackIsReal(day);
    MissedResult(z, day, turn, 13 * HOUR, 25 * HOUR / 2);
    MissedIsLate(z, day, turn, 13 * HOUR, 25 * HOUR / 2);
    CandidateHits(z, day, turn, 13 * HOUR, 25 * HOUR / 2, 13 * HOUR);
  }
}
