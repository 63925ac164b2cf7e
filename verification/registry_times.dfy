/** Reclaiming by text is reclaiming by time (packages/relay/src/registry.ts). */
module RegistryTimes {
  import opened Registry
  import opened Timestamps
  import opened Usernames

  /** When each name was last seen. */
  type Seen = map<string, int>

  /**
   * A way to write times down, for what times of use and what cutoffs it is
   * meant, and which uses count as being before a cutoff.
   */
  datatype Clock = Clock(text: int -> string, uses: int -> bool, cutoffs: int -> bool, before: (int, int) -> bool)

  /** Comparing the texts tells exactly which uses are before which cutoffs. */
  ghost predicate Tells(clock: Clock) {
    forall t, u :: clock.uses(t) && clock.cutoffs(u) ==>
      (TextLess(clock.text(t), clock.text(u)) <==> clock.before(t, u))
  }

  function IsoText(t: int): string {
    if IsTime(t) then IsoString(t) else ""
  }

  /** As the texts have it: years that are written in the wrong order count the wrong way round. */
  predicate IsWrittenBefore(t: int, u: int) {
    IsTime(t) && IsTime(u) && if WrittenInOrder(Year(t), Year(u)) then t < u else u < t
  }

  predicate IsUpTo9999(t: int) {
    IsTime(t) && Year(t) <= 9999
  }

  /** Uses in the years 0 to 9999, cutoffs in any year up to 9999, and the order of times. */
  function PlainClock(): Clock {
    Clock(IsoText, IsPlain, IsUpTo9999, (t, u) => t < u)
  }

  /** All times there are. */
  function AnyClock(): Clock {
    Clock(IsoText, IsTime, IsTime, IsWrittenBefore)
  }

  lemma TextTells(t: int, u: int)
    requires IsTime(t) && IsTime(u)
    ensures TextLess(IsoText(t), IsoText(u)) <==> IsWrittenBefore(t, u)
  {
    TextOrderIsTimeOrder(t, u);
    hide TextLess, IsoString, Year;
    if t == u {
      OneOrder(IsoString(t), IsoString(u));
    }
  }

  lemma PlainIsInOrder(t: int, u: int)
    requires IsPlain(t) && IsUpTo9999(u)
    ensures IsWrittenBefore(t, u) <==> t < u
  {
  }

  lemma ClocksTell()
    ensures Tells(PlainClock()) && Tells(AnyClock())
  {
    hide TextLess, IsoText, IsWrittenBefore, IsPlain, IsUpTo9999, IsTime;
    forall t, u | IsTime(t) && IsTime(u) ensures TextLess(IsoText(t), IsoText(u)) <==> IsWrittenBefore(t, u) {
      TextTells(t, u);
    }
    forall t, u | IsPlain(t) && IsUpTo9999(u) ensures TextLess(IsoText(t), IsoText(u)) <==> t < u {
      PlainAreTimes(t, u);
      TextTells(t, u);
      PlainIsInOrder(t, u);
    }
  }

  lemma PlainAreTimes(t: int, u: int)
    requires IsPlain(t) && IsUpTo9999(u)
    ensures IsTime(t) && IsTime(u)
  {
  }

  /** Every row carries the text of the time at which its name was last seen. */
  ghost predicate Stamped(clock: Clock, t: Table, seen: Seen) {
    && seen.Keys == t.Keys
    && forall n :: n in t ==> clock.uses(seen[n]) && t[n].lastSeenAt == clock.text(seen[n])
  }

  /** Exactly the names last used before the cutoff go. */
  lemma ReclaimByText(clock: Clock, t: Table, seen: Seen, cutoff: int)
    requires Tells(clock) && Stamped(clock, t, seen) && clock.cutoffs(cutoff)
    ensures forall n :: n in Reclaim(t, clock.text(cutoff)) <==> n in t && !clock.before(seen[n], cutoff)
    ensures forall n :: n in Reclaim(t, clock.text(cutoff)) ==> Reclaim(t, clock.text(cutoff))[n] == t[n]
  {
    forall n | n in t ensures TextLess(t[n].lastSeenAt, clock.text(cutoff)) <==> clock.before(seen[n], cutoff) {
      Told(clock, seen[n], cutoff);
    }
    hide TextLess;
  }

  lemma Told(clock: Clock, t: int, u: int)
    requires Tells(clock) && clock.uses(t) && clock.cutoffs(u)
    ensures TextLess(clock.text(t), clock.text(u)) <==> clock.before(t, u)
  {
  }

  datatype Call =
    | Register(name: string, installId: string, now: int)
    | UpdateLastSeen(name: string, now: int)
    | ReclaimInactive(cutoff: int)
    | Delete(name: string)

  predicate IsCovered(clock: Clock, c: Call) {
    match c
    case Register(_, _, now) => clock.uses(now)
    case UpdateLastSeen(_, now) => clock.uses(now)
    case ReclaimInactive(cutoff) => clock.cutoffs(cutoff)
    case Delete(_) => true
  }

  /** The call as the code makes it, with the times written down. */
  function After(clock: Clock, t: Table, c: Call): Table {
    match c
    case Register(name, installId, now) => RegisterRow(t, name, installId, clock.text(now)).0
    case UpdateLastSeen(name, now) => Touch(t, name, clock.text(now))
    case ReclaimInactive(cutoff) => Reclaim(t, clock.text(cutoff))
    case Delete(name) => t - {name}
  }

  /** The same on times: a granted registration and an update of a known name count as seeing it. */
  function SeenAfter(clock: Clock, t: Table, seen: Seen, c: Call): Seen {
    match c
    case Register(name, installId, now) => if MayRegister(t, name, installId) then seen[name := now] else seen
    case UpdateLastSeen(name, now) => if name in t then seen[name := now] else seen
    case ReclaimInactive(cutoff) => map n | n in seen && !clock.before(seen[n], cutoff) :: seen[n]
    case Delete(name) => seen - {name}
  }

  lemma NewStamp(clock: Clock, t: Table, seen: Seen, name: string, row: Row, now: int)
    requires Stamped(clock, t, seen) && clock.uses(now) && row.lastSeenAt == clock.text(now)
    ensures Stamped(clock, t[name := row], seen[name := now])
  {
  }

  lemma CallKeepsStamps(clock: Clock, t: Table, seen: Seen, c: Call)
    requires Tells(clock) && Stamped(clock, t, seen) && IsCovered(clock, c)
    ensures Stamped(clock, After(clock, t, c), SeenAfter(clock, t, seen, c))
  {
    match c
    case Register(name, installId, now) =>
      var stamp := clock.text(now);
      var row := if name in t then t[name].(lastSeenAt := stamp) else Row(installId, stamp, stamp);
      NewStamp(clock, t, seen, name, row, now);
    case UpdateLastSeen(name, now) =>
      if name in t {
        NewStamp(clock, t, seen, name, t[name].(lastSeenAt := clock.text(now)), now);
      }
    case ReclaimInactive(cutoff) =>
      ReclaimByText(clock, t, seen, cutoff);
      assert SeenAfter(clock, t, seen, c).Keys == Reclaim(t, clock.text(cutoff)).Keys;
    case Delete(name) =>
  }

  function AfterAll(clock: Clock, t: Table, calls: seq<Call>): Table {
    if calls == [] then t else After(clock, AfterAll(clock, t, calls[..|calls| - 1]), calls[|calls| - 1])
  }

  function SeenAfterAll(clock: Clock, t: Table, seen: Seen, calls: seq<Call>): Seen {
    if calls == [] then seen
    else
      var front := calls[..|calls| - 1];
      SeenAfter(clock, AfterAll(clock, t, front), SeenAfterAll(clock, t, seen, front), calls[|calls| - 1])
  }

  /** After any calls the rows still carry the texts of the times at which their names were last seen. */
  lemma {:induction false} CallsKeepStamps(clock: Clock, t: Table, seen: Seen, calls: seq<Call>)
    requires Tells(clock) && Stamped(clock, t, seen)
    requires forall i :: 0 <= i < |calls| ==> IsCovered(clock, calls[i])
    ensures Stamped(clock, AfterAll(clock, t, calls), SeenAfterAll(clock, t, seen, calls))
    decreases |calls|
  {
    if calls != [] {
      var front := calls[..|calls| - 1];
      CallsKeepStamps(clock, t, seen, front);
      CallKeepsStamps(clock, AfterAll(clock, t, front), SeenAfterAll(clock, t, seen, front), calls[|calls| - 1]);
    }
  }

  /**
   * In every history of registrations and updates in the years 0 to 9999 and
   * reclaims with cutoffs up to 9999, a reclaim deletes exactly the names that
   * were last seen before its cutoff.
   */
  lemma ReclaimAfterCalls(calls: seq<Call>, cutoff: int, name: string)
    requires forall i :: 0 <= i < |calls| ==> IsCovered(PlainClock(), calls[i])
    requires IsTime(cutoff) && Year(cutoff) <= 9999
    ensures var t, seen := AfterAll(PlainClock(), map[], calls), SeenAfterAll(PlainClock(), map[], map[], calls);
      name in Reclaim(t, IsoString(cutoff)) <==> name in seen && cutoff <= seen[name]
  {
    ClocksTell();
    RowsTell(PlainClock(), calls, cutoff);
    hide Tells, AfterAll, SeenAfterAll, Reclaim, IsoString, Year;
  }

  /**
   * In every history of calls at any valid times, a reclaim treats a name by
   * the time it was last seen exactly if that year and the cutoff's are written
   * in order; otherwise it does the opposite.
   */
  lemma ReclaimAfterAnyCalls(calls: seq<Call>, cutoff: int)
    requires forall i :: 0 <= i < |calls| ==> IsCovered(AnyClock(), calls[i])
    requires IsTime(cutoff)
    ensures var t, seen := AfterAll(AnyClock(), map[], calls), SeenAfterAll(AnyClock(), map[], map[], calls);
      && t.Keys == seen.Keys
      && forall name :: name in t ==>
           var kept := name in Reclaim(t, IsoString(cutoff));
           IsTime(seen[name]) && ((kept <==> cutoff <= seen[name]) <==> WrittenInOrder(Year(seen[name]), Year(cutoff)))
  {
    ClocksTell();
    RowsTell(AnyClock(), calls, cutoff);
    KeptExactly(AfterAll(AnyClock(), map[], calls), SeenAfterAll(AnyClock(), map[], map[], calls), cutoff);
    hide *;
  }

  lemma KeptExactly(t: Table, seen: Seen, cutoff: int)
    requires IsTime(cutoff) && Stamped(AnyClock(), t, seen)
    requires forall name :: name in Reclaim(t, IsoText(cutoff)) <==> name in t && !IsWrittenBefore(seen[name], cutoff)
    ensures forall name :: name in t ==>
      var kept := name in Reclaim(t, IsoString(cutoff));
      IsTime(seen[name]) && ((kept <==> cutoff <= seen[name]) <==> WrittenInOrder(Year(seen[name]), Year(cutoff)))
  {
    hide Reclaim, IsoString, Year, TextLess;
    forall name | name in t ensures IsTime(seen[name]) {
      assert AnyClock().uses(seen[name]);
    }
  }

  /** So a cutoff after the year 9999 deletes no name that was last seen before the year 10000. */
  lemma ExtendedCutoffKeepsAll(t: Table, seen: Seen, cutoff: int)
    requires Stamped(PlainClock(), t, seen) && IsTime(cutoff) && Year(cutoff) > 9999
    ensures Reclaim(t, IsoString(cutoff)) == t
  {
    hide TextLess, IsoString, Year;
    forall name | name in t ensures !TextLess(t[name].lastSeenAt, IsoString(cutoff)) {
      assert PlainClock().uses(seen[name]) && t[name].lastSeenAt == PlainClock().text(seen[name]);
      ExtendedIsLess(seen[name], cutoff);
    }
  }

  lemma ExtendedIsLess(t: int, u: int)
    requires IsPlain(t) && IsTime(u) && Year(u) > 9999
    ensures !TextLess(IsoText(t), IsoString(u))
  {
    TextTells(t, u);
    CalendarIsMonotone(u, t);
    hide TextLess, IsoString, Year;
  }

  lemma RowsTell(clock: Clock, calls: seq<Call>, cutoff: int)
    requires Tells(clock) && forall i :: 0 <= i < |calls| ==> IsCovered(clock, calls[i])
    requires clock.cutoffs(cutoff)
    ensures var t, seen := AfterAll(clock, map[], calls), SeenAfterAll(clock, map[], map[], calls);
      && Stamped(clock, t, seen)
      && forall name :: name in Reclaim(t, clock.text(cutoff)) <==> name in t && !clock.before(seen[name], cutoff)
  {
    CallsKeepStamps(clock, map[], map[], calls);
    ReclaimByText(clock, AfterAll(clock, map[], calls), SeenAfterAll(clock, map[], map[], calls), cutoff);
  }
}
