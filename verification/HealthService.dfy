/** The health-check service's objects: the trackers it updates in place, the maps it keeps them in, and its loops.
    Every method is one uninterrupted call and is proved to be a run of the state machine in module Uptime. */
module UptimeService {
  import opened Text
  import opened Uptime

  datatype Report = Report(service: string, status: Status)

  datatype Availability = Availability(
    uptime: int,
    elapsed: int,
    totalUptime: int,
    totalDowntime: int,
    incidents: nat,
    current: Status,
    lastIncident: Option<Incident>)

  function AvailabilityOf(t: Tracker, now: Time): Availability {
    Availability(
      ReportedUptime(t, now),
      ReportedElapsed(t, now),
      t.totalUptime,
      t.totalDowntime,
      |t.incidents|,
      t.lastStatus,
      if t.incidents == [] then None else Some(t.incidents[|t.incidents| - 1]))
  }

  /** What is reported beside the percentage is the tracker's own. */
  lemma AvailabilityShows(t: Tracker, now: Time)
    ensures var a := AvailabilityOf(t, now);
      && a.totalUptime == t.totalUptime && a.totalDowntime == t.totalDowntime && a.current == t.lastStatus
      && a.incidents == |t.incidents|
      && (a.lastIncident.Some? <==> t.incidents != [])
      && (a.lastIncident.Some? ==> a.lastIncident.value == t.incidents[|t.incidents| - 1])
      && a.uptime - t.totalUptime == (if t.lastStatus == Healthy && t.lastSeen > 0 then now - t.lastSeen else 0)
      && a.elapsed == (if now == t.firstSeen then 1_000_000_000 else now - t.firstSeen)
  {
  }

  function AvailabilityOfAll(views: map<string, Tracker>, now: Time): map<string, Availability> {
    map n | n in views :: AvailabilityOf(views[n], now)
  }

  /** What was reported of a tracker at some time between `from` and `to`. */
  ghost predicate ReportedDuring(t: Tracker, a: Availability, from: Time, to: Time) {
    exists now: Time :: from <= now <= to && a == AvailabilityOf(t, now)
  }

  ghost predicate ExportedDuring(
    views: map<string, Tracker>, availability: map<string, Availability>, from: Time, to: Time)
  {
    && availability.Keys <= views.Keys
    && forall n :: n in availability ==> ReportedDuring(views[n], availability[n], from, to)
  }

  lemma ExportedOneMore(
    views: map<string, Tracker>, availability: map<string, Availability>, service: string, a: Availability,
    from: Time, midway: Time, to: Time)
    requires ExportedDuring(views, availability, from, midway) && WithinBounds(availability)
    requires from <= midway <= to && service in views && ReportedDuring(views[service], a, midway, to)
    requires 0 <= a.uptime <= a.elapsed && 0 < a.elapsed
    ensures ExportedDuring(views, availability[service := a], from, to) && WithinBounds(availability[service := a])
  {
  }

  /** Every reported percentage lies between 0 and 100. */
  ghost predicate WithinBounds(availability: map<string, Availability>) {
    forall n :: n in availability ==>
      0 <= availability[n].uptime <= availability[n].elapsed && 0 < availability[n].elapsed
  }

  /** The process's monotonic clock. */
  class Clock {
    var now: Time

    constructor ()
      ensures now > 0
    {
      now := 1;
    }

    method Now() returns (t: Time)
      modifies this
      ensures old(now) <= now == t
    {
      t :| now <= t;
      now := t;
    }
  }

  class ServiceUptime {
    const serviceName: string
    var firstSeen: Time
    var lastSeen: Time
    var lastStatus: Status
    var totalUptime: int
    var totalDowntime: int
    var incidents: seq<Incident>

    ghost function View(): Tracker
      reads this
    {
      Tracker(firstSeen, lastSeen, lastStatus, totalUptime, totalDowntime, incidents)
    }

    constructor (serviceName: string, first: Time, last: Time)
      ensures this.serviceName == serviceName && View() == Created(first, last)
    {
      this.serviceName := serviceName;
      firstSeen, lastSeen, lastStatus := first, last, Unknown;
      totalUptime, totalDowntime, incidents := 0, 0, [];
    }

    /** A health request's update; `clock` is read only if lastSeen moves. */
    method Touch(status: Status, clock: Clock)
      modifies this, clock
      ensures old(clock.now) <= clock.now
      ensures View() == Touched(old(View()), status == Healthy, clock.now)
    {
      if status == Healthy {
        if lastStatus != Healthy {
          lastSeen := clock.Now();
        }
      }
    }

    /** The ticker's update. */
    method Tick(current: Status, now: Time)
      modifies this
      ensures View() == Ticked(old(View()), current, now)
    {
      if lastStatus != current {
        if current == Unhealthy && lastStatus == Healthy {
          incidents := incidents + [Incident(now, 0, 0, false)];
        } else if current == Healthy && lastStatus == Unhealthy {
          if |incidents| > 0 {
            var last := |incidents| - 1;
            if !incidents[last].resolved {
              var duration := now - incidents[last].start;
              incidents := incidents[last := incidents[last].(end := now, duration := duration, resolved := true)];
              totalDowntime := totalDowntime + duration;
            }
          }
        }
        lastStatus := current;
      }
      if current == Healthy {
        if lastSeen != 0 {
          totalUptime := totalUptime + (now - lastSeen);
        }
        lastSeen := now;
      } else {
        if lastSeen != 0 {
          totalDowntime := totalDowntime + (now - lastSeen);
        }
      }
    }

    method Available(now: Time) returns (a: Availability)
      ensures a == AvailabilityOf(View(), now)
    {
      var elapsed := now - firstSeen;
      if elapsed == 0 {
        elapsed := SECOND;
      }
      var uptime := totalUptime;
      if lastStatus == Healthy && lastSeen != 0 {
        uptime := uptime + (now - lastSeen);
      }
      a := Availability(uptime, elapsed, totalUptime, totalDowntime, |incidents|, lastStatus,
        if |incidents| > 0 then Some(incidents[|incidents| - 1]) else None);
    }
  }

  /** The status the ticker takes a service to have: healthy only if its last stored check says so. */
  function StatusIn(checks: map<string, Status>, service: string): Status {
    if service in checks && checks[service] == Healthy then Healthy else Unhealthy
  }

  /** All trackers after one round of the ticker. */
  function TickedAll(views: map<string, Tracker>, checks: map<string, Status>, now: Time): map<string, Tracker> {
    map n | n in views :: Ticked(views[n], StatusIn(checks, n), now)
  }

  /** Every tracker is ticked as its last stored check says, and as down if there is none. */
  lemma EveryTrackerIsTicked(views: map<string, Tracker>, checks: map<string, Status>, now: Time)
    ensures forall n :: n in views ==>
      IsTick(views[n], TickedAll(views, checks, now)[n], n in checks && checks[n] == Healthy, now)
  {
    forall n | n in views
      ensures IsTick(views[n], TickedAll(views, checks, now)[n], n in checks && checks[n] == Healthy, now)
    {
      TickedIsTick(views[n], n in checks && checks[n] == Healthy, now);
    }
  }

  /** The stored checks after the first `n` reports. */
  function Stored(checks: map<string, Status>, reports: seq<Report>, n: nat): map<string, Status>
    requires n <= |reports|
  {
    if n == 0 then checks else Stored(checks, reports, n - 1)[reports[n - 1].service := reports[n - 1].status]
  }

  /** Of every service the last report is stored; what is not reported stays as it was. */
  lemma {:induction false} LastReportIsStored(
    checks: map<string, Status>, reports: seq<Report>, n: nat, service: string)
    requires n <= |reports|
    ensures var r := Stored(checks, reports, n);
      && (service in r <==> service in checks || service in ReportedServices(reports, n))
      && (service !in ReportedServices(reports, n) && service in checks ==> r[service] == checks[service])
      && (forall i | 0 <= i < n && reports[i].service == service
                     && (forall j | i < j < n :: reports[j].service != service) :: r[service] == reports[i].status)
  {
    if n > 0 {
      LastReportIsStored(checks, reports, n - 1, service);
      assert ReportedServices(reports, n) == ReportedServices(reports, n - 1) + {reports[n - 1].service};
    }
  }

  function StoredOrElse(
    checks: map<string, Status>, reports: seq<Report>, placeholders: seq<Report>): map<string, Status>
  {
    var r := Stored(checks, reports, |reports|);
    if r == map[] then Stored(r, placeholders, |placeholders|) else r
  }

  /** Placeholders are stored only if nothing was stored before and nothing is reported. */
  lemma PlaceholdersFillTheVoid(
    checks: map<string, Status>, reports: seq<Report>, placeholders: seq<Report>)
    ensures StoredOrElse(checks, reports, placeholders)
      == if checks == map[] && reports == [] then Stored(map[], placeholders, |placeholders|)
         else Stored(checks, reports, |reports|)
  {
    if reports != [] {
      assert reports[|reports| - 1].service in Stored(checks, reports, |reports|);
    }
  }

  function ReportedServices(reports: seq<Report>, n: nat): set<string>
    requires n <= |reports|
  {
    set i | 0 <= i < n :: reports[i].service
  }

  predicate ReportedHealthy(reports: seq<Report>, n: nat, service: string)
    requires n <= |reports|
  {
    exists i | 0 <= i < n :: reports[i] == Report(service, Healthy)
  }

  /** Only lastSeen may have moved, and it has exactly when the service was seen healthy without being held so. */
  predicate TouchedDuring(before: Tracker, after: Tracker, seenHealthy: bool, from: Time, to: Time) {
    if seenHealthy && before.lastStatus != Healthy then
      from <= after.lastSeen <= to && after == before.(lastSeen := after.lastSeen)
    else
      after == before
  }

  predicate CreatedDuring(t: Tracker, from: Time, to: Time) {
    from <= t.firstSeen <= t.lastSeen <= to && t == Created(t.firstSeen, t.lastSeen)
  }

  /** What the first `n` reports of one health request do to the trackers. */
  ghost predicate UpdatedBy(
    before: map<string, Tracker>, after: map<string, Tracker>, reports: seq<Report>, n: nat, from: Time, to: Time)
    requires n <= |reports|
  {
    && after.Keys == before.Keys + ReportedServices(reports, n)
    && forall s :: s in after ==>
        if s in before then TouchedDuring(before[s], after[s], ReportedHealthy(reports, n, s), from, to)
        else CreatedDuring(after[s], from, to)
  }

  /** What one report does to the trackers: a creation at `first` and `last` if need be, then a touch at `to`. */
  function Update(before: map<string, Tracker>, r: Report, first: Time, last: Time, to: Time): map<string, Tracker> {
    var t := if r.service in before then before[r.service] else Created(first, last);
    before[r.service := Touched(t, r.status == Healthy, to)]
  }

  lemma UpdatedByOneMore(
    before: map<string, Tracker>, mid: map<string, Tracker>, reports: seq<Report>, n: nat,
    from: Time, midway: Time, first: Time, last: Time, to: Time)
    requires n < |reports| && UpdatedBy(before, mid, reports, n, from, midway)
    requires from <= midway <= first <= last <= to
    ensures UpdatedBy(before, Update(mid, reports[n], first, last, to), reports, n + 1, from, to)
  {
    var r := reports[n];
    var after := Update(mid, r, first, last, to);
    assert ReportedServices(reports, n + 1) == ReportedServices(reports, n) + {r.service};
    forall s | s in before
      ensures TouchedDuring(before[s], after[s], ReportedHealthy(reports, n + 1, s), from, to)
    {
      assert TouchedDuring(before[s], mid[s], ReportedHealthy(reports, n, s), from, midway);
      assert ReportedHealthy(reports, n + 1, s) <==> ReportedHealthy(reports, n, s) || r == Report(s, Healthy);
    }
  }

  lemma UpdatedByLater(
    before: map<string, Tracker>, after: map<string, Tracker>, reports: seq<Report>, n: nat,
    from: Time, to: Time, later: Time)
    requires n <= |reports| && UpdatedBy(before, after, reports, n, from, to) && to <= later
    ensures UpdatedBy(before, after, reports, n, from, later)
  {
  }

  // ---------------------------------------------------------------- the objects and the state machine

  predicate AtRest(s: State, clock: Time, views: map<string, Tracker>) {
    && s.clock == clock && s.readers == map[] && s.ticker == Idle && s.creation == NoCreation
    && s.trackers.Keys == views.Keys
    && forall n :: n in views ==> s.trackers[n].t == views[n]
  }

  /** Some run of the state machine without stale ticks leads to these trackers. */
  ghost predicate Realised(clock: Time, views: map<string, Tracker>) {
    exists s :: ReachableFresh(s) && AtRest(s, clock, views)
  }

  lemma TimePasses(clock: Time, now: Time, views: map<string, Tracker>)
    requires Realised(clock, views) && clock <= now
    ensures Realised(now, views)
  {
    var s :| ReachableFresh(s) && AtRest(s, clock, views);
    FreshGoesOn(s, Advance(now));
    assert AtRest(Next(s, Advance(now)), now, views);
  }

  lemma CreationIsAStep(clock: Time, views: map<string, Tracker>, service: string, last: Time)
    requires Realised(clock, views) && service !in views && clock <= last
    ensures Realised(last, views[service := Created(clock, last)])
  {
    var s :| ReachableFresh(s) && AtRest(s, clock, views);
    FreshGoesOn(s, CreateBegin(service));
    var creating := Next(s, CreateBegin(service));
    FreshGoesOn(creating, Advance(last));
    FreshGoesOn(Next(creating, Advance(last)), CreateEnd);
    assert AtRest(Next(Next(creating, Advance(last)), CreateEnd), last, views[service := Created(clock, last)]);
  }

  lemma TouchIsAStep(clock: Time, views: map<string, Tracker>, service: string, healthy: bool)
    requires Realised(clock, views) && service in views
    ensures Realised(clock, views[service := Touched(views[service], healthy, clock)])
  {
    var s :| ReachableFresh(s) && AtRest(s, clock, views);
    FreshGoesOn(s, Touch(service, healthy));
    assert AtRest(Next(s, Touch(service, healthy)), clock, views[service := Touched(views[service], healthy, clock)]);
  }

  lemma TickIsARun(clock: Time, now: Time, views: map<string, Tracker>, checks: map<string, Status>)
    requires Realised(clock, views) && clock <= now
    ensures Realised(now, TickedAll(views, checks, now))
  {
    TimePasses(clock, now, views);
    var s :| ReachableFresh(s) && AtRest(s, now, views);
    FreshGoesOn(s, TickBegin);
    var t := AppliedToAll(Next(s, TickBegin), now, checks);
    FreshGoesOn(t, TickEnd);
    RestAfterTick(s, t, now, views, checks);
  }

  lemma RestAfterTick(s: State, t: State, now: Time, views: map<string, Tracker>, checks: map<string, Status>)
    requires AtRest(s, now, views)
    requires t.clock == now && t.readers == map[] && t.creation == NoCreation && t.ticker == Ticking(now, {})
    requires t.trackers.Keys == s.trackers.Keys
    requires forall n :: n in s.trackers ==> t.trackers[n].t == Ticked(s.trackers[n].t, StatusIn(checks, n), now)
    ensures AtRest(Next(t, TickEnd), now, TickedAll(views, checks, now))
  {
  }

  /** The rest of a tick that updates every tracker still to do at the clock's own time. */
  lemma {:induction false} AppliedToAll(s: State, now: Time, checks: map<string, Status>) returns (t: State)
    requires ReachableFresh(s) && s.ticker.Ticking? && s.ticker.now == s.clock == now
    requires s.ticker.todo <= s.trackers.Keys
    ensures ReachableFresh(t) && t.clock == now && t.readers == s.readers && t.creation == s.creation
    ensures t.ticker == Ticking(now, {})
    ensures t.trackers.Keys == s.trackers.Keys
    ensures forall n :: n in s.trackers ==>
      t.trackers[n].t
      == if n in s.ticker.todo then Ticked(s.trackers[n].t, StatusIn(checks, n), now) else s.trackers[n].t
    decreases s.ticker.todo
  {
    if s.ticker.todo == {} {
      t := s;
    } else {
      var n :| n in s.ticker.todo;
      ReachableFreshIsSound(s);
      AtomicTickIsNeverStale(s, TickApply(n, StatusIn(checks, n)));
      FreshGoesOn(s, TickApply(n, StatusIn(checks, n)));
      t := AppliedToAll(Next(s, TickApply(n, StatusIn(checks, n))), now, checks);
    }
  }

  lemma RealisedIsSound(clock: Time, views: map<string, Tracker>, service: string)
    requires Realised(clock, views) && service in views
    ensures 0 <= ReportedUptime(views[service], clock) <= ReportedElapsed(views[service], clock)
    ensures 0 < ReportedElapsed(views[service], clock)
    ensures views[service].totalDowntime >= ResolvedTime(views[service].incidents) >= 0
  {
    var s :| ReachableFresh(s) && AtRest(s, clock, views);
    FreshGoesOn(s, ReadBegin(0));
    RunWithoutStaleTicksIsSound(Next(s, ReadBegin(0)), service);
    ReachableFreshIsSound(s);
    assert Balanced(s.trackers[service], clock);
  }

  lemma RealisedIsWithinBounds(clock: Time, views: map<string, Tracker>)
    requires Realised(clock, views)
    ensures WithinBounds(AvailabilityOfAll(views, clock))
  {
    forall n | n in views
      ensures 0 <= ReportedUptime(views[n], clock) <= ReportedElapsed(views[n], clock)
      ensures 0 < ReportedElapsed(views[n], clock)
    {
      RealisedIsSound(clock, views, n);
    }
  }

  lemma UpdateIsARun(from: Time, before: map<string, Tracker>, r: Report, first: Time, last: Time, to: Time)
    requires Realised(from, before) && from <= first <= last <= to
    ensures Realised(to, Update(before, r, first, last, to))
  {
    var healthy := r.status == Healthy;
    if r.service in before {
      TimePasses(from, to, before);
      TouchIsAStep(to, before, r.service, healthy);
    } else {
      TimePasses(from, first, before);
      CreationIsAStep(first, before, r.service, last);
      var created := before[r.service := Created(first, last)];
      TimePasses(last, to, created);
      TouchIsAStep(to, created, r.service, healthy);
      assert created[r.service := Touched(created[r.service], healthy, to)] == Update(before, r, first, last, to);
    }
  }

  class HealthCheck {
    const clock: Clock
    var uptimes: map<string, ServiceUptime>
    var lastHealthCheck: map<string, Status>

    ghost function Views(): map<string, Tracker>
      reads this`uptimes, uptimes.Values
    {
      map n | n in uptimes :: uptimes[n].View()
    }

    /** Every tracker is filed under its own service's name, so no two services share one. */
    ghost predicate Filed()
      reads this`uptimes, uptimes.Values
    {
      forall n :: n in uptimes ==> uptimes[n].serviceName == n
    }

    ghost predicate Valid()
      reads this`uptimes, clock, uptimes.Values
    {
      Filed() && Realised(clock.now, Views())
    }

    constructor ()
      ensures Valid() && uptimes == map[] && lastHealthCheck == map[]
      ensures fresh(clock)
    {
      clock := new Clock();
      uptimes := map[];
      lastHealthCheck := map[];
      new;
      var s := Start(clock.now);
      assert Legal(s, []) && NeverStale(s, []) && After(s, []) == s;
      assert ReachableFresh(s) && AtRest(s, clock.now, Views());
    }

    method GetOrCreate(service: string) returns (u: ServiceUptime, ghost first: Time)
      requires Filed()
      modifies this`uptimes, clock
      ensures Filed() && service in uptimes && uptimes[service] == u
      ensures old(clock.now) <= first <= clock.now
      ensures service in old(uptimes) ==> uptimes == old(uptimes) && clock.now == old(clock.now)
      ensures service !in old(uptimes) ==>
        fresh(u) && uptimes == old(uptimes)[service := u] && u.View() == Created(first, clock.now)
    {
      if service in uptimes {
        u := uptimes[service];
        first := clock.now;
      } else {
        var firstSeen := clock.Now();
        first := firstSeen;
        var lastSeen := clock.Now();
        u := new ServiceUptime(service, firstSeen, lastSeen);
        uptimes := uptimes[service := u];
      }
    }

    /** One round of the ticker. */
    method TrackUptime()
      requires Valid()
      modifies clock, uptimes.Values
      ensures Valid() && old(clock.now) <= clock.now
      ensures Views() == TickedAll(old(Views()), lastHealthCheck, clock.now)
      ensures forall n :: n in uptimes ==>
        IsTick(
          old(uptimes[n].View()), uptimes[n].View(), n in lastHealthCheck && lastHealthCheck[n] == Healthy, clock.now)
    {
      ghost var from, before := clock.now, Views();
      var now := clock.Now();
      assert Views() == before;
      UpdateAll(now);
      TickIsARun(from, now, before, lastHealthCheck);
      EveryTrackerIsTicked(before, lastHealthCheck, now);
      assert forall n :: n in uptimes ==> uptimes[n].View() == Views()[n] && old(uptimes[n].View()) == before[n];
    }

    method UpdateAll(now: Time)
      requires Filed()
      modifies uptimes.Values
      ensures Filed() && Views() == TickedAll(old(Views()), lastHealthCheck, now)
    {
      var todo := uptimes.Keys;
      while todo != {}
        invariant todo <= uptimes.Keys && Filed()
        invariant forall n :: n in uptimes ==>
          uptimes[n].View() == (
            if n in todo then old(uptimes[n].View())
            else Ticked(old(uptimes[n].View()), StatusIn(lastHealthCheck, n), now))
      {
        var service :| service in todo;
        uptimes[service].Tick(StatusIn(lastHealthCheck, service), now);
        todo := todo - {service};
      }
    }

    /** What is reported of each service lies between 0 and 100 percent. */
    method GetServiceAvailability() returns (availability: map<string, Availability>)
      requires Valid()
      modifies clock
      ensures Valid() && Views() == old(Views()) && old(clock.now) <= clock.now
      ensures availability == AvailabilityOfAll(Views(), clock.now) && WithinBounds(availability)
      ensures availability.Keys == uptimes.Keys
    {
      var now := clock.Now();
      TimePasses(old(clock.now), now, Views());
      availability := ReportAll(now);
      RealisedIsWithinBounds(now, Views());
    }

    method ReportAll(now: Time) returns (availability: map<string, Availability>)
      ensures availability == AvailabilityOfAll(Views(), now)
      ensures availability.Keys == uptimes.Keys
    {
      availability := map[];
      var todo := uptimes.Keys;
      while todo != {}
        invariant todo <= uptimes.Keys && availability.Keys == uptimes.Keys - todo
        invariant forall n :: n in availability ==> availability[n] == AvailabilityOf(uptimes[n].View(), now)
      {
        var service :| service in todo;
        var a := uptimes[service].Available(now);
        availability := availability[service := a];
        todo := todo - {service};
      }
    }

    /** The part of a health request that touches the bookkeeping. */
    method HandleHealthCheck(reports: seq<Report>) returns (availability: map<string, Availability>)
      requires Valid()
      modifies this, clock, uptimes.Values
      ensures Valid()
      ensures UpdatedBy(old(Views()), Views(), reports, |reports|, old(clock.now), clock.now)
      ensures lastHealthCheck == Stored(old(lastHealthCheck), reports, |reports|)
      ensures availability == AvailabilityOfAll(Views(), clock.now) && WithinBounds(availability)
      ensures availability.Keys == uptimes.Keys
    {
      UpdateTrackers(reports);
      ghost var to, views := clock.now, Views();
      availability := Answer(reports);
      UpdatedByLater(old(Views()), views, reports, |reports|, old(clock.now), to, clock.now);
    }

    method Answer(reports: seq<Report>) returns (availability: map<string, Availability>)
      requires Valid()
      modifies this`lastHealthCheck, clock
      ensures Valid() && Views() == old(Views()) && old(clock.now) <= clock.now
      ensures lastHealthCheck == Stored(old(lastHealthCheck), reports, |reports|)
      ensures availability == AvailabilityOfAll(Views(), clock.now) && WithinBounds(availability)
      ensures availability.Keys == uptimes.Keys
    {
      availability := GetServiceAvailability();
      StoreChecks(reports);
    }

    /** Creates trackers for services not seen before, and moves lastSeen of exactly those that are reported healthy
        while the ticker does not hold them healthy. */
    method UpdateTrackers(reports: seq<Report>)
      requires Valid()
      modifies this`uptimes, clock, uptimes.Values
      ensures Valid() && old(clock.now) <= clock.now
      ensures forall n :: n in old(uptimes) ==> n in uptimes && uptimes[n] == old(uptimes[n])
      ensures forall n :: n in uptimes && n !in old(uptimes) ==> fresh(uptimes[n])
      ensures UpdatedBy(old(Views()), Views(), reports, |reports|, old(clock.now), clock.now)
    {
      var i := 0;
      while i < |reports|
        invariant 0 <= i <= |reports|
        invariant Valid() && old(clock.now) <= clock.now
        invariant forall n :: n in old(uptimes) ==> n in uptimes && uptimes[n] == old(uptimes[n])
        invariant forall n :: n in uptimes && n !in old(uptimes) ==> fresh(uptimes[n])
        invariant UpdatedBy(old(Views()), Views(), reports, i, old(clock.now), clock.now)
      {
        ghost var midway, mid := clock.now, Views();
        ghost var first, last := UpdateTracker(reports[i]);
        UpdateIsARun(midway, mid, reports[i], first, last, clock.now);
        UpdatedByOneMore(old(Views()), mid, reports, i, old(clock.now), midway, first, last, clock.now);
        i := i + 1;
      }
    }

    method UpdateTracker(r: Report) returns (ghost first: Time, ghost last: Time)
      requires Filed()
      modifies this`uptimes, clock, if r.service in uptimes then {uptimes[r.service]} else {}
      ensures Filed()
      ensures old(clock.now) <= first <= last <= clock.now
      ensures forall n :: n in old(uptimes) ==> n in uptimes && uptimes[n] == old(uptimes[n])
      ensures forall n :: n in uptimes && n !in old(uptimes) ==> fresh(uptimes[n])
      ensures Views() == Update(old(Views()), r, first, last, clock.now)
    {
      var u;
      u, first := GetOrCreate(r.service);
      last := clock.now;
      u.Touch(r.status, clock);
    }

    /** The part of a metrics request that touches the bookkeeping: unlike a health request it stores what it has
        checked without touching any tracker. */
    method HandleMetrics(reports: seq<Report>, placeholders: seq<Report>)
      returns (availability: map<string, Availability>)
      requires Valid()
      modifies this`lastHealthCheck, clock
      ensures Valid() && Views() == old(Views()) && old(clock.now) <= clock.now
      ensures lastHealthCheck == StoredOrElse(old(lastHealthCheck), reports, placeholders)
      ensures availability.Keys == uptimes.Keys && WithinBounds(availability)
      ensures ExportedDuring(Views(), availability, old(clock.now), clock.now)
    {
      ghost var views := Views();
      StoreChecksOrElse(reports, placeholders);
      assert Views() == views;
      availability := ExportAvailability();
    }

    method StoreChecksOrElse(reports: seq<Report>, placeholders: seq<Report>)
      modifies this`lastHealthCheck
      ensures lastHealthCheck == StoredOrElse(old(lastHealthCheck), reports, placeholders)
    {
      StoreChecks(reports);
      if |lastHealthCheck| == 0 {
        StoreChecks(placeholders);
      }
    }

    /** Reads the clock anew for every service. */
    method ExportAvailability() returns (availability: map<string, Availability>)
      requires Valid()
      modifies clock
      ensures Valid() && Views() == old(Views()) && old(clock.now) <= clock.now
      ensures availability.Keys == uptimes.Keys && WithinBounds(availability)
      ensures ExportedDuring(Views(), availability, old(clock.now), clock.now)
    {
      ghost var views, from := Views(), clock.now;
      availability := map[];
      var todo := uptimes.Keys;
      while todo != {}
        invariant todo <= uptimes.Keys && availability.Keys == uptimes.Keys - todo
        invariant Valid() && Views() == views && from <= clock.now
        invariant ExportedDuring(views, availability, from, clock.now) && WithinBounds(availability)
      {
        var service :| service in todo;
        ghost var midway := clock.now;
        var a := ExportOne(service);
        ExportedOneMore(views, availability, service, a, from, midway, clock.now);
        availability := availability[service := a];
        todo := todo - {service};
      }
    }

    method ExportOne(service: string) returns (a: Availability)
      requires Valid() && service in uptimes
      modifies clock
      ensures Valid() && Views() == old(Views()) && old(clock.now) <= clock.now
      ensures ReportedDuring(Views()[service], a, old(clock.now), clock.now)
      ensures 0 <= a.uptime <= a.elapsed && 0 < a.elapsed
    {
      ghost var before, views := clock.now, Views();
      var now := clock.Now();
      assert Views() == views;
      TimePasses(before, now, views);
      RealisedIsSound(now, views, service);
      a := uptimes[service].Available(now);
    }

    method StoreChecks(reports: seq<Report>)
      modifies this`lastHealthCheck
      ensures lastHealthCheck == Stored(old(lastHealthCheck), reports, |reports|)
    {
      for i := 0 to |reports|
        invariant lastHealthCheck == Stored(old(lastHealthCheck), reports, i)
      {
        lastHealthCheck := lastHealthCheck[reports[i].service := reports[i].status];
      }
    }
  }
}
