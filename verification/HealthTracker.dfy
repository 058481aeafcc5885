/** The uptime bookkeeping of the health-check service as a state machine: one tracker per service, a ticker that
    reads its clock before it updates any tracker, handlers that touch trackers meanwhile, and readers. */
module Uptime {
  /** Nanoseconds on the process's monotonic clock; 0 stands for the zero time. */
  type Time = nat

  datatype Status = Unknown | Healthy | Unhealthy

  datatype Incident = Incident(start: Time, end: Time, duration: int, resolved: bool)

  datatype Tracker = Tracker(
    firstSeen: Time,
    lastSeen: Time,
    lastStatus: Status,
    totalUptime: int,
    totalDowntime: int,
    incidents: seq<Incident>)

  const SECOND: int := 1_000_000_000

  // ---------------------------------------------------------------- what happens to one tracker

  function Created(first: Time, last: Time): Tracker {
    Tracker(first, last, Unknown, 0, 0, [])
  }

  /** A health request saw the service (healthCheckHandler). */
  function Touched(t: Tracker, healthy: bool, now: Time): Tracker {
    if healthy && t.lastStatus != Healthy then t.(lastSeen := now) else t
  }

  function Resolve(i: Incident, now: Time): Incident {
    Incident(i.start, now, now - i.start, true)
  }

  predicate LastIsOpen(incidents: seq<Incident>) {
    incidents != [] && !incidents[|incidents| - 1].resolved
  }

  /** The ticker's handling of a status change. */
  function Noticed(t: Tracker, current: Status, now: Time): Tracker {
    var last := |t.incidents| - 1;
    if t.lastStatus == current then t
    else if current == Unhealthy && t.lastStatus == Healthy then
      t.(lastStatus := current, incidents := t.incidents + [Incident(now, 0, 0, false)])
    else if current == Healthy && t.lastStatus == Unhealthy && LastIsOpen(t.incidents) then
      var i := Resolve(t.incidents[last], now);
      t.(lastStatus := current, incidents := t.incidents[last := i], totalDowntime := t.totalDowntime + i.duration)
    else t.(lastStatus := current)
  }

  function Gap(t: Tracker, now: Time): int {
    if t.lastSeen != 0 then now - t.lastSeen else 0
  }

  /** The ticker's accounting. */
  function Counted(t: Tracker, current: Status, now: Time): Tracker {
    if current == Healthy then t.(totalUptime := t.totalUptime + Gap(t, now), lastSeen := now)
    else t.(totalDowntime := t.totalDowntime + Gap(t, now))
  }

  function Ticked(t: Tracker, current: Status, now: Time): Tracker {
    Counted(Noticed(t, current, now), current, now)
  }

  /** Numerator and denominator of the reported percentage. */
  function ReportedUptime(t: Tracker, now: Time): int {
    if t.lastStatus == Healthy && t.lastSeen != 0 then t.totalUptime + (now - t.lastSeen) else t.totalUptime
  }

  function ReportedElapsed(t: Tracker, now: Time): int {
    if now == t.firstSeen then SECOND else now - t.firstSeen
  }

  // ---------------------------------------------------------------- what that comes to

  /** The part of a tick about incidents: a drop from healthy opens one, a recovery from unhealthy resolves the last
      one if it is open, and nothing else changes the list. */
  predicate TickRecords(before: Tracker, after: Tracker, healthy: bool, now: Time) {
    var n := |before.incidents| - 1;
    if !healthy && before.lastStatus == Healthy then
      after.incidents == before.incidents + [Incident(now, 0, 0, false)]
    else if healthy && before.lastStatus == Unhealthy && n >= 0 && !before.incidents[n].resolved then
      var start := before.incidents[n].start;
      after.incidents == before.incidents[..n] + [Incident(start, now, now - start, true)]
    else
      after.incidents == before.incidents
  }

  /** A tick at `now`, told of the outcome of the last check: the status follows it; a healthy tick counts the time
      since lastSeen as uptime and moves lastSeen, an unhealthy one counts it as downtime and does not; resolving an
      incident counts its duration as downtime besides. */
  predicate IsTick(before: Tracker, after: Tracker, healthy: bool, now: Time) {
    var gap := if before.lastSeen == 0 then 0 else now - before.lastSeen;
    var n := |before.incidents| - 1;
    var resolves := healthy && before.lastStatus == Unhealthy && n >= 0 && !before.incidents[n].resolved;
    && after.lastStatus == (if healthy then Healthy else Unhealthy)
    && after.firstSeen == before.firstSeen
    && after.lastSeen == (if healthy then now else before.lastSeen)
    && after.totalUptime == before.totalUptime + (if healthy then gap else 0)
    && after.totalDowntime
       == before.totalDowntime + (if resolves then now - before.incidents[n].start else if healthy then 0 else gap)
    && TickRecords(before, after, healthy, now)
  }

  lemma TickedIsTick(t: Tracker, healthy: bool, now: Time)
    ensures IsTick(t, Ticked(t, if healthy then Healthy else Unhealthy, now), healthy, now)
  {
    var n := |t.incidents| - 1;
    if n >= 0 {
      assert t.incidents[n := Resolve(t.incidents[n], now)] == t.incidents[..n] + [Resolve(t.incidents[n], now)];
    }
  }

  /** What a report is made of: while the service is held healthy the time since lastSeen counts as well; a service
      seen first at this very moment has the age of a second. */
  lemma ReportIs(t: Tracker, now: Time)
    ensures t.lastStatus != Healthy ==> ReportedUptime(t, now) == t.totalUptime
    ensures t.lastStatus == Healthy && t.lastSeen > 0 ==>
      ReportedUptime(t, now) - t.totalUptime == now - t.lastSeen
    ensures now != t.firstSeen ==> ReportedElapsed(t, now) + t.firstSeen == now
    ensures ReportedElapsed(t, t.firstSeen) == 1_000_000_000
  {
  }

  // ---------------------------------------------------------------- the whole service

  /** A tracker with its history: the time its lastSeen was moved over without being counted, the gaps since
      lastSeen that unhealthy ticks have counted, and every status the ticker has observed. */
  datatype Tracked = Tracked(t: Tracker, skipped: int, gaps: int, seen: seq<Status>)

  datatype Ticker = Idle | Ticking(now: Time, todo: set<string>)

  /** A creation under way has read the clock for firstSeen, but not yet for lastSeen. */
  datatype Creation = NoCreation | Creating(service: string, first: Time)

  datatype State = State(
    clock: Time,
    trackers: map<string, Tracked>,
    creation: Creation,
    ticker: Ticker,
    readers: map<nat, Time>)

  datatype Step =
    | Advance(to: Time)
    | CreateBegin(service: string)
    | CreateEnd
    | Touch(service: string, healthy: bool)
    | TickBegin
    | TickApply(service: string, current: Status)
    | TickEnd
    | ReadBegin(reader: nat)
    | ReadEnd(reader: nat)

  function Observed(x: Tracked, current: Status, now: Time): Tracked {
    Tracked(
      Ticked(x.t, current, now),
      x.skipped,
      if current == Healthy then x.gaps else x.gaps + Gap(x.t, now),
      x.seen + [current])
  }

  /** Nobody holds uptimeMu for itself. */
  predicate Unheld(s: State) {
    s.creation.NoCreation? && s.ticker.Idle?
  }

  /** uptimeMu is held by the ticker for a whole tick and by a creation, or shared by readers; a handler that holds a
      tracker needs no more than that tracker's own lock, so it may touch it at any time. */
  predicate Enabled(s: State, step: Step) {
    match step
    case Advance(to) => s.clock <= to
    case CreateBegin(service) => Unheld(s) && s.readers == map[] && service !in s.trackers
    case CreateEnd => s.creation.Creating?
    case Touch(service, healthy) => service in s.trackers
    case TickBegin => Unheld(s) && s.readers == map[]
    case TickApply(service, current) =>
      s.ticker.Ticking? && service in s.ticker.todo && service in s.trackers && current != Unknown
    case TickEnd => s.ticker.Ticking? && s.ticker.todo == {}
    case ReadBegin(reader) => Unheld(s) && reader !in s.readers
    case ReadEnd(reader) => reader in s.readers
  }

  function Next(s: State, step: Step): State
    requires Enabled(s, step)
  {
    match step
    case Advance(to) => s.(clock := to)
    case CreateBegin(service) => s.(creation := Creating(service, s.clock))
    case CreateEnd =>
      var made := Tracked(Created(s.creation.first, s.clock), s.clock - s.creation.first, 0, [Unknown]);
      s.(creation := NoCreation, trackers := s.trackers[s.creation.service := made])
    case Touch(service, healthy) =>
      var x := s.trackers[service];
      var t := Touched(x.t, healthy, s.clock);
      s.(trackers := s.trackers[service := x.(t := t, skipped := x.skipped + (t.lastSeen - x.t.lastSeen))])
    case TickBegin => s.(ticker := Ticking(s.clock, s.trackers.Keys))
    case TickApply(service, current) =>
      s.(
        trackers := s.trackers[service := Observed(s.trackers[service], current, s.ticker.now)],
        ticker := s.ticker.(todo := s.ticker.todo - {service}))
    case TickEnd => s.(ticker := Idle)
    case ReadBegin(reader) => s.(readers := s.readers[reader := s.clock])
    case ReadEnd(reader) => s.(readers := s.readers - {reader})
  }

  function Start(clock: Time): State {
    State(clock, map[], NoCreation, Idle, map[])
  }

  predicate Legal(s: State, steps: seq<Step>)
    decreases |steps|
  {
    steps == [] || (Enabled(s, steps[0]) && Legal(Next(s, steps[0]), steps[1..]))
  }

  function After(s: State, steps: seq<Step>): State
    requires Legal(s, steps)
    decreases |steps|
  {
    if steps == [] then s else After(Next(s, steps[0]), steps[1..])
  }

  ghost predicate Reachable(s: State) {
    exists start: Time, steps :: start > 0 && Legal(Start(start), steps) && s == After(Start(start), steps)
  }

  // ---------------------------------------------------------------- accounting invariant

  /** Every moment since firstSeen is either counted as uptime or was skipped. */
  predicate Balanced(x: Tracked, clock: Time) {
    && 0 < x.t.firstSeen <= x.t.lastSeen <= clock
    && x.skipped >= 0
    && x.t.lastSeen - x.t.firstSeen == x.t.totalUptime + x.skipped
  }

  /** A clock value taken while the tracker was at rest, or only touched since. */
  predicate ReadableAt(t: Tracker, now: Time) {
    && t.firstSeen <= now
    && t.totalUptime <= now - t.firstSeen
    && (t.lastStatus == Healthy ==> t.lastSeen <= now)
  }

  predicate Accounted(s: State) {
    && s.clock > 0
    && (forall n :: n in s.trackers ==> Balanced(s.trackers[n], s.clock))
    && (s.creation.Creating? ==>
          s.readers == map[] && s.ticker.Idle? && 0 < s.creation.first <= s.clock && s.creation.service !in s.trackers)
    && (s.ticker.Ticking? ==>
          && s.readers == map[] && s.ticker.now <= s.clock
          && forall n :: n in s.trackers ==> s.trackers[n].t.firstSeen <= s.ticker.now)
    && (forall r, n :: r in s.readers && n in s.trackers ==> ReadableAt(s.trackers[n].t, s.readers[r]))
  }

  lemma StepKeepsAccounts(s: State, step: Step)
    requires Accounted(s) && Enabled(s, step)
    ensures Accounted(Next(s, step))
  {
  }

  lemma {:induction false} RunKeepsAccounts(s: State, steps: seq<Step>)
    requires Accounted(s) && Legal(s, steps)
    ensures Accounted(After(s, steps))
    decreases |steps|
  {
    if steps != [] {
      StepKeepsAccounts(s, steps[0]);
      RunKeepsAccounts(Next(s, steps[0]), steps[1..]);
    }
  }

  lemma ReachableIsAccounted(s: State)
    requires Reachable(s)
    ensures Accounted(s)
  {
    var start: Time, steps :| start > 0 && Legal(Start(start), steps) && s == After(Start(start), steps);
    RunKeepsAccounts(Start(start), steps);
  }

  /** In every interleaving: the time between firstSeen and lastSeen is the counted uptime plus the time skipped
      by creation and by handlers, also when the ticker applied a clock value older than the last touch. */
  lemma UptimePlusSkippedIsElapsed(s: State, service: string)
    requires Reachable(s) && service in s.trackers
    ensures var x := s.trackers[service];
      x.skipped >= 0 && x.t.lastSeen - x.t.firstSeen == x.t.totalUptime + x.skipped
  {
    ReachableIsAccounted(s);
  }

  /** In every interleaving the reported uptime is at most 100 percent, whatever clock value a reader took
      before it got hold of the tracker. */
  lemma UptimeNeverExceedsElapsed(s: State, reader: nat, service: string)
    requires Reachable(s) && reader in s.readers && service in s.trackers
    ensures var t, now := s.trackers[service].t, s.readers[reader];
      0 < ReportedElapsed(t, now) && ReportedUptime(t, now) <= ReportedElapsed(t, now)
  {
    ReachableIsAccounted(s);
    assert ReadableAt(s.trackers[service].t, s.readers[reader]);
  }

  /** What is reported of a healthy service is its age minus the skipped time: outages do not lower it. A service
      that is healthy again reports a full 100 percent exactly when no touch has skipped any time. */
  lemma HealthyReportsAgeMinusSkipped(s: State, reader: nat, service: string)
    requires Reachable(s) && reader in s.readers && service in s.trackers && s.trackers[service].t.lastStatus == Healthy
    ensures var x, now := s.trackers[service], s.readers[reader];
      && ReportedUptime(x.t, now) == now - x.t.firstSeen - x.skipped
      && (ReportedUptime(x.t, now) == now - x.t.firstSeen <==> x.skipped == 0)
  {
    ReachableIsAccounted(s);
    assert Balanced(s.trackers[service], s.clock);
  }

  // ---------------------------------------------------------------- incidents

  /** Number of times a healthy observation was followed by an unhealthy one. */
  function Drops(seen: seq<Status>): nat {
    if |seen| < 2 then 0
    else
      Drops(seen[..|seen| - 1])
      + (if seen[|seen| - 2] == Healthy && seen[|seen| - 1] == Unhealthy then 1 else 0)
  }

  predicate WellFormedIncident(i: Incident, latest: Time) {
    && i.start <= latest
    && (i.resolved ==> i.start <= i.end <= latest && i.duration == i.end - i.start)
  }

  /** Time-ordered, non-overlapping, all but the last resolved; `latest` bounds every time in the list. */
  predicate Chronological(s: seq<Incident>, latest: Time) {
    && (forall i | 0 <= i < |s| :: WellFormedIncident(s[i], latest))
    && (forall i, j | 0 <= i < j < |s| :: s[i].resolved && s[i].end <= s[j].start)
  }

  /** The summed durations of the resolved incidents. */
  function ResolvedTime(s: seq<Incident>): int {
    if s == [] then 0
    else
      var last := s[|s| - 1];
      ResolvedTime(s[..|s| - 1]) + (if last.resolved then last.duration else 0)
  }

  predicate Recorded(x: Tracked, latest: Time) {
    && Chronological(x.t.incidents, latest)
    && x.seen != [] && x.seen[|x.seen| - 1] == x.t.lastStatus
    && StatusFitsIncidents(x.t)
    && |x.t.incidents| == Drops(x.seen)
    && x.t.totalDowntime == ResolvedTime(x.t.incidents) + x.gaps
  }

  function Latest(s: State): Time {
    if s.ticker.Ticking? then s.ticker.now else s.clock
  }

  predicate Chronicle(s: State) {
    && (s.ticker.Ticking? ==> s.ticker.now <= s.clock)
    && forall n :: n in s.trackers ==> Recorded(s.trackers[n], Latest(s))
  }

  lemma DropsOneMore(seen: seq<Status>, current: Status)
    requires seen != []
    ensures Drops(seen + [current])
      == Drops(seen) + (if seen[|seen| - 1] == Healthy && current == Unhealthy then 1 else 0)
  {
    assert (seen + [current])[..|seen|] == seen;
  }

  lemma ResolvedTimeOneMore(s: seq<Incident>, i: Incident)
    ensures ResolvedTime(s + [i]) == ResolvedTime(s) + (if i.resolved then i.duration else 0)
  {
    assert (s + [i])[..|s|] == s;
  }

  /** Opening an incident after all the others, which are resolved. */
  lemma OpenKeepsOrder(s: seq<Incident>, now: Time)
    requires Chronological(s, now) && !LastIsOpen(s)
    ensures var after := s + [Incident(now, 0, 0, false)];
      Chronological(after, now) && ResolvedTime(after) == ResolvedTime(s) && LastIsOpen(after)
  {
    ResolvedTimeOneMore(s, Incident(now, 0, 0, false));
  }

  /** Resolving the open incident. */
  lemma ResolveKeepsOrder(s: seq<Incident>, now: Time)
    requires Chronological(s, now) && LastIsOpen(s)
    ensures var last := |s| - 1; var i := Resolve(s[last], now);
      && Chronological(s[last := i], now) && ResolvedTime(s[last := i]) == ResolvedTime(s) + i.duration
      && !LastIsOpen(s[last := i])
  {
    var last := |s| - 1;
    assert s[last := Resolve(s[last], now)] == s[..last] + [Resolve(s[last], now)];
    ResolvedTimeOneMore(s[..last], Resolve(s[last], now));
  }

  lemma TickKeepsRecord(x: Tracked, current: Status, now: Time)
    requires Recorded(x, now) && current != Unknown
    ensures Recorded(Observed(x, current, now), now)
  {
    DropsOneMore(x.seen, current);
    NoticingKeepsOrder(x.t, current, now);
  }

  /** An incident is open exactly while the service is held unhealthy, and none is known before any status is. */
  predicate StatusFitsIncidents(t: Tracker) {
    && (LastIsOpen(t.incidents) <==> t.lastStatus == Unhealthy && t.incidents != [])
    && (t.lastStatus == Unknown ==> t.incidents == [])
  }

  lemma NoticingKeepsOrder(t: Tracker, current: Status, now: Time)
    requires Chronological(t.incidents, now) && current != Unknown && StatusFitsIncidents(t)
    ensures var r := Noticed(t, current, now);
      && Chronological(r.incidents, now) && r.lastStatus == current
      && StatusFitsIncidents(r)
      && |r.incidents| == |t.incidents| + (if t.lastStatus == Healthy && current == Unhealthy then 1 else 0)
      && r.totalDowntime - ResolvedTime(r.incidents) == t.totalDowntime - ResolvedTime(t.incidents)
  {
    if t.lastStatus == Healthy && current == Unhealthy {
      OpenKeepsOrder(t.incidents, now);
      assert Noticed(t, current, now).incidents == t.incidents + [Incident(now, 0, 0, false)];
    } else if t.lastStatus == Unhealthy && current == Healthy && LastIsOpen(t.incidents) {
      ResolveKeepsOrder(t.incidents, now);
      var last := |t.incidents| - 1;
      assert Noticed(t, current, now).incidents == t.incidents[last := Resolve(t.incidents[last], now)];
    } else {
      assert Noticed(t, current, now).incidents == t.incidents;
    }
  }

  lemma StepKeepsChronicle(s: State, step: Step)
    requires Chronicle(s) && Enabled(s, step)
    ensures Chronicle(Next(s, step))
  {
    match step
    case TickApply(service, current) =>
      TickKeepsRecord(s.trackers[service], current, s.ticker.now);
    case CreateEnd =>
      assert Drops([Unknown]) == 0;
    case Advance(to) =>
      TimeKeepsRecords(s, s.clock, to);
    case TickEnd =>
      TimeKeepsRecords(s, s.ticker.now, s.clock);
    case _ =>
  }

  lemma TimeKeepsRecords(s: State, latest: Time, later: Time)
    requires latest <= later && forall n :: n in s.trackers ==> Recorded(s.trackers[n], latest)
    ensures forall n :: n in s.trackers ==> Recorded(s.trackers[n], later)
  {
    forall n | n in s.trackers
      ensures Recorded(s.trackers[n], later)
    {
      assert Recorded(s.trackers[n], latest);
    }
  }

  lemma {:induction false} RunKeepsChronicle(s: State, steps: seq<Step>)
    requires Chronicle(s) && Legal(s, steps)
    ensures Chronicle(After(s, steps))
    decreases |steps|
  {
    if steps != [] {
      StepKeepsChronicle(s, steps[0]);
      RunKeepsChronicle(Next(s, steps[0]), steps[1..]);
    }
  }

  lemma ReachableIsChronicled(s: State)
    requires Reachable(s)
    ensures Chronicle(s)
  {
    var start: Time, steps :| start > 0 && Legal(Start(start), steps) && s == After(Start(start), steps);
    RunKeepsChronicle(Start(start), steps);
  }

  /** Over every run, stale clock values and touches included: the incidents of a service are time-ordered and do
      not overlap, only the last may be unresolved, it is so exactly when the last status is unhealthy, and there
      is one for each drop from healthy to unhealthy the ticker observed. */
  lemma IncidentsAreTheObservedDrops(s: State, service: string)
    requires Reachable(s) && service in s.trackers
    ensures var x := s.trackers[service];
      && Chronological(x.t.incidents, s.clock)
      && (LastIsOpen(x.t.incidents) <==> x.t.lastStatus == Unhealthy && x.t.incidents != [])
      && |x.t.incidents| == Drops(x.seen)
  {
    ReachableIsChronicled(s);
    assert Recorded(s.trackers[service], Latest(s));
  }

  // ---------------------------------------------------------------- what the totals are worth

  /** In every interleaving totalDowntime is the resolved incidents' time plus the gaps unhealthy ticks counted on
      top of it, so the two totals add up to the time covered exactly when all that extra equals the skipped time. */
  lemma TotalsAddUpExactlyWhen(s: State, service: string)
    requires Reachable(s) && service in s.trackers
    ensures var x := s.trackers[service];
      && x.t.totalDowntime == ResolvedTime(x.t.incidents) + x.gaps
      && (x.t.totalUptime + x.t.totalDowntime == x.t.lastSeen - x.t.firstSeen
          <==> ResolvedTime(x.t.incidents) + x.gaps == x.skipped)
  {
    ReachableIsChronicled(s);
    ReachableIsAccounted(s);
    assert Recorded(s.trackers[service], Latest(s));
    assert Balanced(s.trackers[service], s.clock);
  }

  /** A step lowers one of a service's totals exactly when it applies a clock value older than the tracker's
      lastSeen, which only a handler's touch during the tick can cause. */
  lemma StepLowersTotalExactlyWhen(s: State, step: Step, service: string)
    requires Reachable(s) && Enabled(s, step) && service in s.trackers
    ensures var before, after := s.trackers[service].t, Next(s, step).trackers[service].t;
      && (after.totalUptime < before.totalUptime <==> Stale(s, step) && step == TickApply(service, Healthy))
      && (after.totalDowntime < before.totalDowntime <==> Stale(s, step) && step == TickApply(service, Unhealthy))
  {
    ReachableIsChronicled(s);
    ReachableIsAccounted(s);
    assert Balanced(s.trackers[service], s.clock);
    if step.TickApply? && step.service == service {
      var x := s.trackers[service];
      assert Recorded(x, s.ticker.now);
      if x.t.incidents != [] {
        assert WellFormedIncident(x.t.incidents[|x.t.incidents| - 1], s.ticker.now);
      }
    }
  }

  /** The tick applies a clock value from before the tracker's last touch. */
  predicate Stale(s: State, step: Step)
    requires Enabled(s, step)
  {
    step.TickApply? && s.ticker.now < s.trackers[step.service].t.lastSeen
  }

  /** No step of the run is stale; so when every tick reads its clock and updates in one go. */
  predicate NeverStale(s: State, steps: seq<Step>)
    requires Legal(s, steps)
    decreases |steps|
  {
    steps == [] || (!Stale(s, steps[0]) && NeverStale(Next(s, steps[0]), steps[1..]))
  }

  lemma AtomicTickIsNeverStale(s: State, step: Step)
    requires Reachable(s) && Enabled(s, step) && step.TickApply? && s.ticker.now == s.clock
    ensures !Stale(s, step)
  {
    ReachableIsAccounted(s);
    assert Balanced(s.trackers[step.service], s.clock);
  }

  /** Reached by a run without stale ticks. */
  ghost predicate ReachableFresh(s: State) {
    exists start: Time, steps ::
      start > 0 && Legal(Start(start), steps) && NeverStale(Start(start), steps) && s == After(Start(start), steps)
  }

  lemma FreshGoesOn(s: State, step: Step)
    requires ReachableFresh(s) && Enabled(s, step) && !Stale(s, step)
    ensures ReachableFresh(Next(s, step))
  {
    var start: Time, steps :|
      start > 0 && Legal(Start(start), steps) && NeverStale(Start(start), steps) && s == After(Start(start), steps);
    RunsAppend(Start(start), steps, [step]);
    assert Legal(s, [step]) && NeverStale(s, [step]) && After(s, [step]) == Next(s, step);
    assert NeverStale(Start(start), steps + [step]);
  }

  lemma ReachableGoesOn(s: State, step: Step)
    requires Reachable(s) && Enabled(s, step)
    ensures Reachable(Next(s, step))
  {
    var start: Time, steps :| start > 0 && Legal(Start(start), steps) && s == After(Start(start), steps);
    RunsAppend(Start(start), steps, [step]);
    assert Legal(s, [step]) && After(s, [step]) == Next(s, step);
  }

  lemma {:induction false} RunsAppend(s: State, a: seq<Step>, b: seq<Step>)
    requires Legal(s, a) && Legal(After(s, a), b)
    ensures Legal(s, a + b) && After(s, a + b) == After(After(s, a), b)
    ensures NeverStale(s, a + b) <==> NeverStale(s, a) && NeverStale(After(s, a), b)
    decreases |a|
  {
    if a == [] {
      assert a + b == b;
    } else {
      RunsAppend(Next(s, a[0]), a[1..], b);
      assert (a + b)[1..] == a[1..] + b;
    }
  }

  /** From any reachable state on, as long as no tick is stale, the totals of a service never decrease. */
  lemma {:induction false} TotalsNeverDecrease(s: State, steps: seq<Step>, service: string)
    requires Reachable(s) && Legal(s, steps) && NeverStale(s, steps) && service in s.trackers
    ensures service in After(s, steps).trackers
    ensures var before, after := s.trackers[service].t, After(s, steps).trackers[service].t;
      before.totalUptime <= after.totalUptime && before.totalDowntime <= after.totalDowntime
    decreases |steps|
  {
    if steps != [] {
      StepLowersTotalExactlyWhen(s, steps[0], service);
      ReachableGoesOn(s, steps[0]);
      TotalsNeverDecrease(Next(s, steps[0]), steps[1..], service);
    }
  }

  predicate Sound(s: State) {
    && Accounted(s)
    && forall n :: n in s.trackers ==> s.trackers[n].t.totalUptime >= 0 && s.trackers[n].gaps >= 0
  }

  lemma {:induction false} RunKeepsSound(s: State, steps: seq<Step>)
    requires Sound(s) && Legal(s, steps) && NeverStale(s, steps)
    ensures Sound(After(s, steps))
    decreases |steps|
  {
    if steps != [] {
      StepKeepsAccounts(s, steps[0]);
      RunKeepsSound(Next(s, steps[0]), steps[1..]);
    }
  }

  lemma ReachableFreshIsSound(s: State)
    requires ReachableFresh(s)
    ensures Sound(s) && Reachable(s)
  {
    var start: Time, steps :|
      start > 0 && Legal(Start(start), steps) && NeverStale(Start(start), steps) && s == After(Start(start), steps);
    RunKeepsSound(Start(start), steps);
  }

  /** In a run without stale ticks every service's totalDowntime is at least the summed durations of its resolved
      incidents, each the time from its start to its end, and the reported uptime lies between 0 and 100 percent. */
  lemma RunWithoutStaleTicksIsSound(s: State, service: string)
    requires ReachableFresh(s) && service in s.trackers
    ensures var t := s.trackers[service].t;
      && t.totalDowntime >= ResolvedTime(t.incidents) >= 0
      && (forall i | 0 <= i < |t.incidents| && t.incidents[i].resolved ::
            t.incidents[i].duration == t.incidents[i].end - t.incidents[i].start >= 0)
      && forall r | r in s.readers :: 0 <= ReportedUptime(t, s.readers[r]) <= ReportedElapsed(t, s.readers[r])
  {
    var x := s.trackers[service];
    ReachableFreshIsSound(s);
    ReachableIsChronicled(s);
    assert Recorded(x, Latest(s));
    ResolvedTimeIsNonNegative(x.t.incidents, Latest(s));
    assert forall r | r in s.readers :: ReadableAt(x.t, s.readers[r]);
  }

  lemma {:induction false} ResolvedTimeIsNonNegative(s: seq<Incident>, latest: Time)
    requires forall i | 0 <= i < |s| :: WellFormedIncident(s[i], latest)
    ensures ResolvedTime(s) >= 0
  {
    if s != [] {
      ResolvedTimeIsNonNegative(s[..|s| - 1], latest);
    }
  }

  function OnlyService(clock: Time, x: Tracked, ticker: Ticker): State {
    State(clock, map["s" := x], NoCreation, ticker, map[])
  }

  /** What is reported is negative exactly when more time was skipped than lies between firstSeen and now, or, while
      the service is not held healthy, between firstSeen and lastSeen. */
  lemma ReportIsNegativeExactlyWhen(s: State, reader: nat, service: string)
    requires Reachable(s) && reader in s.readers && service in s.trackers
    ensures var x, now := s.trackers[service], s.readers[reader];
      ReportedUptime(x.t, now) < 0
      <==> x.skipped > (if x.t.lastStatus == Healthy then now else x.t.lastSeen) - x.t.firstSeen
  {
    ReachableIsAccounted(s);
    assert Balanced(s.trackers[service], s.clock);
  }

  /** A healthy tick leaves totalUptime below zero exactly when its clock value lies further behind lastSeen than the
      total covers; of the steps only such a tick can take the total below zero. */
  lemma TotalTurnsNegativeExactlyWhen(s: State, step: Step, service: string)
    requires Reachable(s) && Enabled(s, step) && service in s.trackers && s.trackers[service].t.totalUptime >= 0
    ensures Next(s, step).trackers[service].t.totalUptime < 0
      <==> (
        && step == TickApply(service, Healthy)
        && s.trackers[service].t.lastSeen - s.ticker.now > s.trackers[service].t.totalUptime)
  {
    ReachableIsAccounted(s);
    assert Balanced(s.trackers[service], s.clock);
  }

  /** A run in which a handler touches the service between the tick's clock read and its update, and the service is
      down at the next tick: what is reported of it is negative. */
  lemma StaleTickReportsNegativeUptime() returns (s: State)
    ensures Reachable(s) && 0 in s.readers && "s" in s.trackers
    ensures ReportedUptime(s.trackers["s"].t, s.readers[0]) == -100
  {
    var x := Tracked(Created(100, 100), 0, 0, [Unknown]);
    FirstCreation(100, x);
    TickBegins(100, x);
    GoesOn(OnlyService(100, x, Ticking(100, {"s"})), Advance(200), OnlyService(200, x, Ticking(100, {"s"})));
    var touched := Tracked(x.t.(lastSeen := 200), 100, 0, [Unknown]);
    GoesOn(OnlyService(200, x, Ticking(100, {"s"})), Touch("s", true), OnlyService(200, touched, Ticking(100, {"s"})));
    TickEnds(200, touched, 100, Healthy);
    var up := Observed(touched, Healthy, 100);
    TickBegins(200, up);
    TickEnds(200, up, 200, Unhealthy);
    var down := OnlyService(200, Observed(up, Unhealthy, 200), Idle);
    s := down.(readers := map[0 := 200]);
    GoesOn(down, ReadBegin(0), s);
  }

  lemma FirstCreation(clock: Time, x: Tracked)
    requires clock > 0 && x == Tracked(Created(clock, clock), 0, 0, [Unknown])
    ensures Reachable(OnlyService(clock, x, Idle))
  {
    assert Legal(Start(clock), []) && After(Start(clock), []) == Start(clock);
    var creating := Start(clock).(creation := Creating("s", clock));
    GoesOn(Start(clock), CreateBegin("s"), creating);
    GoesOn(creating, CreateEnd, OnlyService(clock, x, Idle));
  }

  lemma TickBegins(clock: Time, x: Tracked)
    requires Reachable(OnlyService(clock, x, Idle))
    ensures Reachable(OnlyService(clock, x, Ticking(clock, {"s"})))
  {
    assert OnlyService(clock, x, Idle).trackers.Keys == {"s"};
    GoesOn(OnlyService(clock, x, Idle), TickBegin, OnlyService(clock, x, Ticking(clock, {"s"})));
  }

  lemma TickEnds(clock: Time, x: Tracked, now: Time, current: Status)
    requires Reachable(OnlyService(clock, x, Ticking(now, {"s"}))) && current != Unknown
    ensures Reachable(OnlyService(clock, Observed(x, current, now), Idle))
  {
    var s, y := OnlyService(clock, x, Ticking(now, {"s"})), Observed(x, current, now);
    assert s.ticker.todo - {"s"} == {};
    assert s.trackers["s" := y] == map["s" := y];
    GoesOn(s, TickApply("s", current), OnlyService(clock, y, Ticking(now, {})));
    GoesOn(OnlyService(clock, y, Ticking(now, {})), TickEnd, OnlyService(clock, y, Idle));
  }

  lemma GoesOn(s: State, step: Step, t: State)
    requires Reachable(s) && Enabled(s, step) && t == Next(s, step)
    ensures Reachable(t)
  {
    ReachableGoesOn(s, step);
  }

  // ---------------------------------------------------------------- outages

  /** The tracker after `n` unhealthy ticks, one every `period` since it was last seen. */
  function Outage(t: Tracker, period: nat, n: nat): Tracker {
    if n == 0 then t else Ticked(Outage(t, period, n - 1), Unhealthy, t.lastSeen + n * period)
  }

  lemma NextTriangle(period: nat, n: nat)
    requires n > 0
    ensures 2 * (n * period) + period * ((n - 1) * n) == period * (n * (n + 1))
    ensures 2 * (n * period) + period * (n * (n + 1)) == period * (n * (n + 3))
  {
    assert (n - 1) * n + 2 * n == n * (n + 1) && n * (n + 1) + 2 * n == n * (n + 3);
  }

  /** Every unhealthy tick counts the whole time since lastSeen again: n of them make the downtime grow with the
      square of n. */
  lemma {:induction false} OutageGrowsWithTheSquare(t: Tracker, period: nat, n: nat)
    requires t.lastStatus == Healthy && t.lastSeen > 0
    ensures var r := Outage(t, period, n);
      && r.totalUptime == t.totalUptime && r.lastSeen == t.lastSeen
      && 2 * (r.totalDowntime - t.totalDowntime) == period * (n * (n + 1))
      && (n > 0 ==> r.lastStatus == Unhealthy)
      && (n == 0 ==> r == t)
      && (n > 0 ==> r.incidents == t.incidents + [Incident(t.lastSeen + period, 0, 0, false)])
  {
    if n > 0 {
      OutageGrowsWithTheSquare(t, period, n - 1);
      NextTriangle(period, n);
    }
  }

  /** An outage seen by n ticks, then a healthy tick: the whole time is counted as uptime, and on top of it more
      downtime than the outage lasted, exactly when the outage was seen by any tick at all. */
  lemma OutageCountsAsUptimeAndDowntime(t: Tracker, period: nat, n: nat)
    requires t.lastStatus == Healthy && t.lastSeen > 0 && period > 0
    ensures var elapsed := (n + 1) * period; var r := Ticked(Outage(t, period, n), Healthy, t.lastSeen + elapsed);
      && r.totalUptime - t.totalUptime == elapsed
      && 2 * (r.totalDowntime - t.totalDowntime) == period * (n * (n + 3))
      && ((r.totalUptime - t.totalUptime) + (r.totalDowntime - t.totalDowntime) == elapsed <==> n == 0)
  {
    OutageGrowsWithTheSquare(t, period, n);
    var r := Ticked(Outage(t, period, n), Healthy, t.lastSeen + (n + 1) * period);
    if n > 0 {
      assert r.totalDowntime == Outage(t, period, n).totalDowntime + n * period;
      NextTriangle(period, n);
      assert period * (n * (n + 3)) > 0;
    }
  }

  /** The same outage, but a handler reports the service healthy at `seen`, before the ticker does at `end`: the touch
      takes the time up to `seen` out of the uptime. The totals then add up to the elapsed time exactly when one
      tick saw the outage and the touch came at the time of the tick. */
  lemma TouchedRecoverySkipsTheOutage(t: Tracker, period: nat, n: nat, seen: Time, end: Time)
    requires t.lastStatus == Healthy && t.lastSeen > 0 && period > 0 && n > 0
    requires t.lastSeen + n * period <= seen <= end
    ensures var r := Ticked(Touched(Outage(t, period, n), true, seen), Healthy, end);
      && r.totalUptime - t.totalUptime == end - seen
      && 2 * (r.totalDowntime - t.totalDowntime) == period * (n * (n + 1)) + 2 * (end - t.lastSeen - period)
      && ((r.totalUptime - t.totalUptime) + (r.totalDowntime - t.totalDowntime) == end - t.lastSeen
          <==> n == 1 && seen == end)
  {
    OutageGrowsWithTheSquare(t, period, n);
    assert period <= n * period by { AtLeastOne(period, n, 1); }
    if n > 1 {
      AtLeastOne(period, n * (n + 1), 6);
    } else {
      assert period * (n * (n + 1)) == 2 * period;
    }
  }

  lemma AtLeastOne(period: nat, k: nat, least: nat)
    requires least <= k
    ensures period * least <= period * k
  {
  }
}
