/** Admission of voice jobs (app/voice_accessibility.py): every accepted job is counted for
    its user and its tenant, per minute and per day, and holds a lease; one atomic step. */
module VoiceQuota {
  import opened Outcomes

  /** A UTC time, as the calendar splits it: the day, the minute of the day, and the
      microsecond of the minute. */
  datatype Moment = Moment(day: int, minute: int, micro: int)

  type Time = m: Moment | 0 <= m.minute < 1440 && 0 <= m.micro < 60_000_000 witness Moment(0, 0, 0)

  /** Minutes, and microseconds, since the epoch. */
  function Minutes(t: Time): int { t.day * 1440 + t.minute }
  function Micros(t: Time): int { Minutes(t) * 60_000_000 + t.micro }

  datatype Kind = User | Tenant
  datatype Window = Minute | Day

  datatype WindowKey = WindowKey(subject: string, kind: Kind, window: Window, start: Time)

  datatype Counts = Counts(jobs: nat, chars: nat)

  function Zero(): Counts { Counts(0, 0) }

  function Add(a: Counts, b: Counts): Counts { Counts(a.jobs + b.jobs, a.chars + b.chars) }

  datatype Lease = Lease(user: string, tenant: string, expires: int)

  datatype Limits = Limits(
    userMinute: nat, userDay: nat, userChars: nat, tenantMinute: nat, tenantDay: nat, tenantChars: nat,
    userConcurrency: nat, tenantConcurrency: nat, leaseTime: nat)

  datatype Rejection =
    | CharacterCount | UserConcurrency | TenantConcurrency
    | UserJobsPerMinute | UserJobsPerDay | UserCharactersPerDay
    | TenantJobsPerMinute | TenantJobsPerDay | TenantCharactersPerDay | StoreFailure

  type Usage = map<WindowKey, Counts>
  type Leases = map<string, Lease>

  datatype State = State(usage: Usage, leases: Leases)

  /** A request for one job. */
  datatype Job = Job(user: string, tenant: string, time: Time, chars: int)

  function Start(time: Time, window: Window): Time {
    if window.Minute? then Moment(time.day, time.minute, 0) else Moment(time.day, 0, 0)
  }

  function KeyOf(job: Job, kind: Kind, window: Window): WindowKey {
    WindowKey(if kind.User? then job.user else job.tenant, kind, window, Start(job.time, window))
  }

  function Row(usage: Usage, key: WindowKey): Counts {
    if key in usage then usage[key] else Zero()
  }

  function Live(leases: Leases, now: int): Leases {
    map id | id in leases && leases[id].expires > now :: leases[id]
  }

  function Holder(lease: Lease, kind: Kind): string {
    if kind.User? then lease.user else lease.tenant
  }

  function Held(leases: Leases, subject: string, kind: Kind): set<string> {
    set id | id in leases && Holder(leases[id], kind) == subject
  }

  function Size(job: Job): nat {
    if job.chars < 0 then 0 else job.chars
  }

  /** One more job, if it counts. */
  function Bump(c: Counts, job: Job, counts: bool): Counts {
    if counts then Counts(c.jobs + 1, c.chars + Size(job)) else c
  }

  function Charge(usage: Usage, key: WindowKey, job: Job): Usage {
    usage[key := Bump(Row(usage, key), job, true)]
  }

  function ChargeAll(usage: Usage, job: Job): Usage {
    var byMinute := Charge(usage, KeyOf(job, User, Minute), job);
    var byDay := Charge(byMinute, KeyOf(job, User, Day), job);
    var tenantMinute := Charge(byDay, KeyOf(job, Tenant, Minute), job);
    Charge(tenantMinute, KeyOf(job, Tenant, Day), job)
  }

  /** The first limit a job would break, if any. */
  function Refusal(st: State, limits: Limits, job: Job): Option<Rejection> {
    var live := Live(st.leases, Micros(job.time));
    var userMinute, userDay := Row(st.usage, KeyOf(job, User, Minute)), Row(st.usage, KeyOf(job, User, Day));
    var tenantMinute, tenantDay := Row(st.usage, KeyOf(job, Tenant, Minute)), Row(st.usage, KeyOf(job, Tenant, Day));
    if job.chars <= 0 then Some(CharacterCount)
    else if |Held(live, job.user, User)| >= limits.userConcurrency then Some(UserConcurrency)
    else if |Held(live, job.tenant, Tenant)| >= limits.tenantConcurrency then Some(TenantConcurrency)
    else if userMinute.jobs + 1 > limits.userMinute then Some(UserJobsPerMinute)
    else if userDay.jobs + 1 > limits.userDay then Some(UserJobsPerDay)
    else if userDay.chars + job.chars > limits.userChars then Some(UserCharactersPerDay)
    else if tenantMinute.jobs + 1 > limits.tenantMinute then Some(TenantJobsPerMinute)
    else if tenantDay.jobs + 1 > limits.tenantDay then Some(TenantJobsPerDay)
    else if tenantDay.chars + job.chars > limits.tenantChars then Some(TenantCharactersPerDay)
    else None
  }

  /** `id` is the fresh lease id; should it exist, the primary key refuses it. */
  function Reserve(st: State, limits: Limits, job: Job, id: string): (State, Option<Rejection>) {
    var refusal := Refusal(st, limits, job);
    var live := Live(st.leases, Micros(job.time));
    if refusal.Some? then (st, refusal)
    else if id in live then (st, Some(StoreFailure))
    else (State(ChargeAll(st.usage, job),
      live[id := Lease(job.user, job.tenant, Micros(job.time) + limits.leaseTime)]), None)
  }

  /** A released lease is gone; the counters keep what was used. */
  function Released(st: State, id: string): State {
    if id == "" then st else st.(leases := st.leases - {id})
  }

  // ---------------------------------------------------------------- the store, in place

  class VoiceAccessibilityStore {
    var usage: Usage
    var leases: Leases

    ghost function Contents(): State
      reads this
    {
      State(usage, leases)
    }

    constructor ()
      ensures Contents() == State(map[], map[])
    {
      usage, leases := map[], map[];
    }

    method IncrementUsage(key: WindowKey, job: Job)
      requires job.chars > 0
      modifies this`usage
      ensures usage == Charge(old(usage), key, job)
    {
      if key in usage {
        usage := usage[key := Counts(usage[key].jobs + 1, usage[key].chars + job.chars)];
      } else {
        usage := usage[key := Counts(1, job.chars)];
      }
    }

    /** The purge of expired leases is part of the transaction: a rejection rolls it back. */
    method ReserveUsage(limits: Limits, job: Job, id: string) returns (rejection: Option<Rejection>)
      modifies this
      ensures (Contents(), rejection) == Reserve(old(Contents()), limits, job, id)
      ensures rejection.Some? ==> Contents() == old(Contents())
    {
      var saved := leases;
      leases := Live(leases, Micros(job.time));
      rejection := Refusal(State(usage, leases), limits, job);
      LiveTwice(saved, Micros(job.time));
      if rejection.Some? || id in leases {
        rejection := if rejection.Some? then rejection else Some(StoreFailure);
        leases := saved;
        return;
      }
      IncrementUsage(KeyOf(job, User, Minute), job);
      IncrementUsage(KeyOf(job, User, Day), job);
      IncrementUsage(KeyOf(job, Tenant, Minute), job);
      IncrementUsage(KeyOf(job, Tenant, Day), job);
      leases := leases[id := Lease(job.user, job.tenant, Micros(job.time) + limits.leaseTime)];
    }

    method ReleaseLease(id: string)
      modifies this`leases
      ensures Contents() == Released(old(Contents()), id)
    {
      if id == "" { return; }
      leases := leases - {id};
    }
  }

  lemma LiveTwice(leases: Leases, now: int)
    ensures Live(Live(leases, now), now) == Live(leases, now)
  {
  }

  // ---------------------------------------------------------------- runs

  datatype Event = Ask(job: Job, id: string) | Release(id: string)

  function Step(st: State, limits: Limits, e: Event): State {
    match e
    case Ask(job, id) => Reserve(st, limits, job, id).0
    case Release(id) => Released(st, id)
  }

  function Run(limits: Limits, events: seq<Event>): State {
    if events == [] then State(map[], map[])
      else Step(Run(limits, events[..|events| - 1]), limits, events[|events| - 1])
  }

  /** The jobs that were accepted, in order. */
  function Accepted(limits: Limits, events: seq<Event>): seq<Job> {
    if events == [] then []
    else
      var before, e := events[..|events| - 1], events[|events| - 1];
      Accepted(limits, before) + (if e.Ask? && Reserve(Run(limits, before), limits, e.job, e.id).1.None? then [e.job]
        else [])
  }

  predicate Counted(job: Job, key: WindowKey) {
    KeyOf(job, key.kind, key.window) == key
  }

  /** What the jobs of a log add up to under a key. */
  function Total(log: seq<Job>, key: WindowKey): Counts {
    if log == [] then Zero()
    else
      var last := log[|log| - 1];
      Bump(Total(log[..|log| - 1], key), last, Counted(last, key))
  }

  predicate Fits(c: Counts, key: WindowKey, limits: Limits) {
    match (key.kind, key.window)
    case (User, Minute) => c.jobs <= limits.userMinute
    case (User, Day) => c.jobs <= limits.userDay && c.chars <= limits.userChars
    case (Tenant, Minute) => c.jobs <= limits.tenantMinute
    case (Tenant, Day) => c.jobs <= limits.tenantDay && c.chars <= limits.tenantChars
  }

  function Concurrency(limits: Limits, kind: Kind): nat {
    if kind.User? then limits.userConcurrency else limits.tenantConcurrency
  }

  ghost predicate Inv(st: State, limits: Limits, log: seq<Job>) {
    && (forall key :: Row(st.usage, key) == Total(log, key))
    && (forall key :: Fits(Row(st.usage, key), key, limits))
    && (forall subject, kind :: |Held(st.leases, subject, kind)| <= Concurrency(limits, kind))
  }

  lemma SmallerSet(a: set<string>, b: set<string>)
    requires a <= b
    ensures |a| <= |b|
  {
    if a != {} {
      var x :| x in a;
      SmallerSet(a - {x}, b - {x});
    }
  }

  /** Four rows are charged, and each of them once. */
  lemma ChargedRows(usage: Usage, job: Job, key: WindowKey)
    ensures Row(ChargeAll(usage, job), key) == Bump(Row(usage, key), job, Counted(job, key))
  {
    var k1, k2, k3, k4 := KeyOf(job, User, Minute), KeyOf(job, User, Day), KeyOf(job, Tenant, Minute),
      KeyOf(job, Tenant, Day);
    assert k1 != k2 && k1 != k3 && k1 != k4 && k2 != k3 && k2 != k4 && k3 != k4;
    assert Counted(job, key) <==> key == k1 || key == k2 || key == k3 || key == k4;
    var u1 := Charge(usage, k1, job);
    var u2 := Charge(u1, k2, job);
    var u3 := Charge(u2, k3, job);
    ChargedRow(usage, k1, job, key);
    ChargedRow(u1, k2, job, key);
    ChargedRow(u2, k3, job, key);
    ChargedRow(u3, k4, job, key);
  }

  lemma ChargedRow(usage: Usage, charged: WindowKey, job: Job, key: WindowKey)
    ensures Row(Charge(usage, charged, job), key) == Bump(Row(usage, key), job, key == charged)
  {
  }

  /** An accepted job fits under all four limits, and no other row moves. */
  lemma AcceptedFits(st: State, limits: Limits, job: Job, key: WindowKey)
    requires Refusal(st, limits, job).None? && Fits(Row(st.usage, key), key, limits)
    ensures Fits(Bump(Row(st.usage, key), job, Counted(job, key)), key, limits)
  {
  }

  lemma HeldAfter(st: State, limits: Limits, job: Job, id: string, subject: string, kind: Kind)
    requires Reserve(st, limits, job, id).1.None?
    requires |Held(st.leases, subject, kind)| <= Concurrency(limits, kind)
    ensures |Held(Reserve(st, limits, job, id).0.leases, subject, kind)| <= Concurrency(limits, kind)
  {
    var live := Live(st.leases, Micros(job.time));
    SmallerSet(Held(live, subject, kind), Held(st.leases, subject, kind));
    HeldPlusOne(live, id, Lease(job.user, job.tenant, Micros(job.time) + limits.leaseTime), subject, kind);
  }

  lemma HeldPlusOne(leases: Leases, id: string, lease: Lease, subject: string, kind: Kind)
    requires id !in leases
    ensures |Held(leases[id := lease], subject, kind)| == |Held(leases, subject, kind)|
      + (if Holder(lease, kind) == subject then 1 else 0)
  {
    var more := leases[id := lease];
    var before, after := Held(leases, subject, kind), Held(more, subject, kind);
    assert id !in before && (id in after <==> Holder(lease, kind) == subject);
    forall x | x != id ensures x in after <==> x in before {
      assert x in more <==> x in leases;
    }
    assert after - {id} == before;
  }

  lemma InvAccept(st: State, limits: Limits, log: seq<Job>, job: Job, id: string)
    requires Inv(st, limits, log) && Reserve(st, limits, job, id).1.None?
    ensures Inv(Reserve(st, limits, job, id).0, limits, log + [job])
  {
    var next := Reserve(st, limits, job, id).0;
    assert (log + [job])[..|log|] == log;
    forall key ensures Row(next.usage, key) == Total(log + [job], key) && Fits(Row(next.usage, key), key, limits) {
      ChargedRows(st.usage, job, key);
      AcceptedFits(st, limits, job, key);
    }
    forall subject, kind ensures |Held(next.leases, subject, kind)| <= Concurrency(limits, kind) {
      HeldAfter(st, limits, job, id, subject, kind);
    }
  }

  lemma {:induction false} InvRun(limits: Limits, events: seq<Event>)
    ensures Inv(Run(limits, events), limits, Accepted(limits, events))
    decreases events
  {
    if events != [] {
      var before, e := events[..|events| - 1], events[|events| - 1];
      var st, log := Run(limits, before), Accepted(limits, before);
      InvRun(limits, before);
      assert log + [] == log;
      match e
      case Ask(job, id) =>
        if Reserve(st, limits, job, id).1.None? { InvAccept(st, limits, log, job, id); }
      case Release(id) =>
        forall subject, kind {
          SmallerSet(Held(Released(st, id).leases, subject, kind), Held(st.leases, subject, kind));
        }
    }
  }

  // ---------------------------------------------------------------- main results

  /** Conservation and bounds: after any run every counter is what the accepted jobs of its
      window add up to, and neither a counter nor a lease count exceeds its limit. */
  lemma CountersAreTrue(limits: Limits, events: seq<Event>, key: WindowKey, subject: string, kind: Kind)
    ensures var st := Run(limits, events);
      && Row(st.usage, key) == Total(Accepted(limits, events), key)
      && Fits(Row(st.usage, key), key, limits)
      && |Held(st.leases, subject, kind)| <= Concurrency(limits, kind)
  {
    InvRun(limits, events);
  }

  /** Every window of the log is within its limits. */
  ghost predicate AllFit(log: seq<Job>, limits: Limits) {
    forall key :: Fits(Total(log, key), key, limits)
  }

  /** There is room for one more lease of the user and of the tenant. */
  predicate LeaseRoom(leases: Leases, limits: Limits, job: Job) {
    |Held(leases, job.user, User)| < limits.userConcurrency
      && |Held(leases, job.tenant, Tenant)| < limits.tenantConcurrency
  }

  /** The same on the stored leases, whatever the clock did before. */
  lemma AcceptedOnLeases(limits: Limits, events: seq<Event>, job: Job, id: string)
    ensures var st, log := Run(limits, events), Accepted(limits, events); var live := Live(st.leases, Micros(job.time));
      Reserve(st, limits, job, id).1.None? <==>
        job.chars > 0 && id !in live && LeaseRoom(live, limits, job) && AllFit(log + [job], limits)
  {
    InvRun(limits, events);
    var st, log := Run(limits, events), Accepted(limits, events);
    assert (log + [job])[..|log|] == log;
    if Refusal(st, limits, job).None? {
      forall key ensures Fits(Total(log + [job], key), key, limits) { AcceptedFits(st, limits, job, key); }
    } else if job.chars > 0 && LeaseRoom(Live(st.leases, Micros(job.time)), limits, job)
      && AllFit(log + [job], limits) {
      RoomMeansAccepted(st, log, limits, job);
    }
  }

  lemma RoomMeansAccepted(st: State, log: seq<Job>, limits: Limits, job: Job)
    requires forall key :: Row(st.usage, key) == Total(log, key)
    requires job.chars > 0 && AllFit(log + [job], limits) && LeaseRoom(Live(st.leases, Micros(job.time)), limits, job)
    ensures Refusal(st, limits, job).None?
  {
    FitsMeansRoom(st, log, limits, job, User, Minute);
    FitsMeansRoom(st, log, limits, job, User, Day);
    FitsMeansRoom(st, log, limits, job, Tenant, Minute);
    FitsMeansRoom(st, log, limits, job, Tenant, Day);
  }

  lemma FitsMeansRoom(st: State, log: seq<Job>, limits: Limits, job: Job, kind: Kind, window: Window)
    requires Row(st.usage, KeyOf(job, kind, window)) == Total(log, KeyOf(job, kind, window))
    requires Fits(Total(log + [job], KeyOf(job, kind, window)), KeyOf(job, kind, window), limits)
    ensures var key := KeyOf(job, kind, window); Fits(Bump(Row(st.usage, key), job, true), key, limits)
  {
    assert (log + [job])[..|log|] == log;
  }

  // ---------------------------------------------------------------- the running jobs

  /** The `i`-th event asked for a job and got it. */
  predicate Admitted(limits: Limits, events: seq<Event>, i: nat) {
    && i < |events| && events[i].Ask?
    && Reserve(Run(limits, events[..i]), limits, events[i].job, events[i].id).1.None?
  }

  /** Somebody released this lease later on. */
  predicate ReleasedSince(events: seq<Event>, i: nat, id: string) {
    id != "" && exists j :: i < j < |events| && events[j] == Release(id)
  }

  /** It was admitted, has not been released since, and its lease time is not over at `t`. */
  predicate RunsAt(limits: Limits, events: seq<Event>, i: nat, t: int) {
    && Admitted(limits, events, i) && !ReleasedSince(events, i, events[i].id)
    && t < Micros(events[i].job.time) + limits.leaseTime
  }

  function SubjectOf(job: Job, kind: Kind): string {
    match kind case User => job.user case Tenant => job.tenant
  }

  /** The jobs of a subject that run at `t`, by their events. */
  function RunningOf(limits: Limits, events: seq<Event>, subject: string, kind: Kind, t: int): set<nat> {
    set i: nat | i < |events| && RunsAt(limits, events, i, t) && SubjectOf(events[i].job, kind) == subject
  }

  /** No job was admitted after `t`. */
  ghost predicate Past(limits: Limits, events: seq<Event>, t: int) {
    forall i: nat :: Admitted(limits, events, i) ==> Micros(events[i].job.time) <= t
  }

  /** The stored leases are the running jobs: each job has its lease, each lease that has not
      expired has its job, and no two jobs share one. */
  ghost predicate LeasesAreJobs(limits: Limits, events: seq<Event>, t: int) {
    var leases := Run(limits, events).leases;
    && (forall i: nat :: RunsAt(limits, events, i, t) ==> HoldsLease(leases, events[i], limits))
    && (forall id :: Unexpired(leases, id, t) ==> HasJob(limits, events, t, id))
    && (forall i: nat, j: nat :: RunsAt(limits, events, i, t) && RunsAt(limits, events, j, t) && i != j ==>
          events[i].id != events[j].id)
  }

  predicate HoldsLease(leases: Leases, e: Event, limits: Limits)
    requires e.Ask?
  {
    e.id in leases && leases[e.id] == Lease(e.job.user, e.job.tenant, Micros(e.job.time) + limits.leaseTime)
  }

  predicate Unexpired(leases: Leases, id: string, t: int) {
    id in leases && t < leases[id].expires
  }

  ghost predicate HasJob(limits: Limits, events: seq<Event>, t: int, id: string) {
    exists i: nat :: RunsAt(limits, events, i, t) && events[i].id == id
  }

  /** What one more event does to the running jobs. */
  lemma RunsAfter(limits: Limits, before: seq<Event>, e: Event, i: nat, t: int)
    ensures RunsAt(limits, before + [e], i, t) <==>
      if i == |before| then Admitted(limits, before + [e], i) && t < Micros(e.job.time) + limits.leaseTime
      else RunsAt(limits, before, i, t) && (e.Release? && e.id != "" ==> before[i].id != e.id)
  {
    var events := before + [e];
    assert events[|before|] == e;
    if i < |before| {
      assert events[..i] == before[..i];
      assert events[i] == before[i];
      var id := before[i].id;
      if ReleasedSince(before, i, id) {
        var j :| i < j < |before| && before[j] == Release(id);
        assert events[j] == Release(id);
      }
    }
  }

  lemma AdmittedEarlier(limits: Limits, before: seq<Event>, e: Event)
    ensures Admitted(limits, before + [e], |before|) <==>
      e.Ask? && Reserve(Run(limits, before), limits, e.job, e.id).1.None?
    ensures forall i: nat :: Admitted(limits, before, i) ==> Admitted(limits, before + [e], i)
    ensures Run(limits, before + [e]) == Step(Run(limits, before), limits, e)
  {
    var events := before + [e];
    assert events[..|before|] == before;
    forall i: nat | Admitted(limits, before, i) ensures Admitted(limits, events, i) {
      assert events[..i] == before[..i];
    }
  }

  lemma JobStays(limits: Limits, before: seq<Event>, e: Event, t: int, id: string)
    requires HasJob(limits, before, t, id) && !(e.Release? && e.id != "" && e.id == id)
    ensures HasJob(limits, before + [e], t, id)
  {
    var i: nat :| RunsAt(limits, before, i, t) && before[i].id == id;
    RunsAfter(limits, before, e, i, t);
    assert (before + [e])[i] == before[i];
  }

  /** A job that still runs after an admission had its lease before it, under another id. */
  lemma OldJob(limits: Limits, before: seq<Event>, e: Event, t: int, i: nat)
    requires LeasesAreJobs(limits, before, t) && i < |before| && RunsAt(limits, before + [e], i, t)
    requires e.Ask? && Reserve(Run(limits, before), limits, e.job, e.id).1.None? && Micros(e.job.time) <= t
    ensures RunsAt(limits, before, i, t) && before[i] == (before + [e])[i] && before[i].id != e.id
    ensures HoldsLease(Run(limits, before + [e]).leases, before[i], limits)
  {
    AdmittedEarlier(limits, before, e);
    RunsAfter(limits, before, e, i, t);
    assert HoldsLease(Run(limits, before).leases, before[i], limits);
  }

  lemma StepAdmits(limits: Limits, before: seq<Event>, e: Event, t: int)
    requires LeasesAreJobs(limits, before, t)
    requires e.Ask? && Reserve(Run(limits, before), limits, e.job, e.id).1.None? && Micros(e.job.time) <= t
    ensures LeasesAreJobs(limits, before + [e], t)
  {
    var events, n, leases := before + [e], |before|, Run(limits, before).leases;
    AdmittedEarlier(limits, before, e);
    var later := Run(limits, events).leases;
    forall i: nat | RunsAt(limits, events, i, t)
      ensures HoldsLease(later, events[i], limits)
      ensures i < n ==> RunsAt(limits, before, i, t) && before[i] == events[i] && events[i].id != e.id
    {
      if i < n { OldJob(limits, before, e, t, i); }
    }
    forall id | Unexpired(later, id, t) ensures HasJob(limits, events, t, id) {
      if id == e.id {
        RunsAfter(limits, before, e, n, t);
        assert events[n] == e;
      } else {
        assert Unexpired(leases, id, t);
        JobStays(limits, before, e, t, id);
      }
    }
  }

  lemma StepReleases(limits: Limits, before: seq<Event>, e: Event, t: int)
    requires LeasesAreJobs(limits, before, t)
    requires e.Ask? ==> Reserve(Run(limits, before), limits, e.job, e.id).1.Some?
    ensures LeasesAreJobs(limits, before + [e], t)
  {
    var events, leases := before + [e], Run(limits, before).leases;
    AdmittedEarlier(limits, before, e);
    var later := Run(limits, events).leases;
    assert later == if e.Release? && e.id != "" then leases - {e.id} else leases;
    forall i: nat | RunsAt(limits, events, i, t)
      ensures RunsAt(limits, before, i, t) && before[i] == events[i] && HoldsLease(later, events[i], limits)
    {
      RunsAfter(limits, before, e, i, t);
      assert HoldsLease(leases, before[i], limits);
    }
    forall id | Unexpired(later, id, t) ensures HasJob(limits, events, t, id) {
      assert Unexpired(leases, id, t);
      JobStays(limits, before, e, t, id);
    }
  }

  lemma {:induction false} LeasesAreTrue(limits: Limits, events: seq<Event>, t: int)
    requires Past(limits, events, t)
    ensures LeasesAreJobs(limits, events, t)
    decreases events
  {
    if events != [] {
      var before, e := events[..|events| - 1], events[|events| - 1];
      assert before + [e] == events;
      AdmittedEarlier(limits, before, e);
      forall i: nat | Admitted(limits, before, i) ensures Micros(before[i].job.time) <= t {
        assert Admitted(limits, events, i);
      }
      LeasesAreTrue(limits, before, t);
      if Admitted(limits, events, |before|) {
        StepAdmits(limits, before, e, t);
      } else {
        StepReleases(limits, before, e, t);
      }
    }
  }

  /** An injective naming keeps the size of a set. */
  lemma {:induction false} NamesCount(numbers: set<nat>, name: nat -> string, names: set<string>)
    requires forall i, j :: i in numbers && j in numbers && name(i) == name(j) ==> i == j
    requires forall x :: x in names <==> exists i :: i in numbers && name(i) == x
    ensures |numbers| == |names|
    decreases numbers
  {
    if numbers == {} {
      assert names == {};
    } else {
      var i :| i in numbers;
      forall x ensures x in names - {name(i)} <==> exists j :: j in numbers - {i} && name(j) == x {
        if x in names - {name(i)} {
          var j :| j in numbers && name(j) == x;
          assert j in numbers - {i};
        }
      }
      NamesCount(numbers - {i}, name, names - {name(i)});
      assert name(i) in names;
    }
  }

  lemma RunningIsHeld(limits: Limits, events: seq<Event>, subject: string, kind: Kind, t: int)
    requires LeasesAreJobs(limits, events, t)
    ensures |RunningOf(limits, events, subject, kind, t)|
      == |Held(Live(Run(limits, events).leases, t), subject, kind)|
  {
    var leases := Run(limits, events).leases;
    var running, held := RunningOf(limits, events, subject, kind, t), Held(Live(leases, t), subject, kind);
    var name := (i: nat) => if i < |events| then events[i].id else "";
    forall id ensures id in held <==> exists i :: i in running && name(i) == id {
      if id in held {
        assert HasJob(limits, events, t, id);
        var i: nat :| RunsAt(limits, events, i, t) && events[i].id == id;
        assert i in running && name(i) == id;
      }
    }
    NamesCount(running, name, held);
  }

  /** The limit on concurrent jobs, in terms of what was asked and released alone: at no moment
      do more jobs of a user, or of a tenant, run than its limit allows. */
  lemma RunningIsBounded(limits: Limits, events: seq<Event>, subject: string, kind: Kind, t: int)
    requires Past(limits, events, t)
    ensures |RunningOf(limits, events, subject, kind, t)|
      <= match kind case User => limits.userConcurrency case Tenant => limits.tenantConcurrency
  {
    LeasesAreTrue(limits, events, t);
    RunningIsHeld(limits, events, subject, kind, t);
    InvRun(limits, events);
    var leases := Run(limits, events).leases;
    SmallerSet(Held(Live(leases, t), subject, kind), Held(leases, subject, kind));
  }

  /** Nothing is refused without need: a job is accepted exactly when it has text, no running job
      has its lease id, fewer jobs of its user and of its tenant run than their limits allow, and
      counting it would keep every total in bounds. */
  lemma AcceptedIff(limits: Limits, events: seq<Event>, job: Job, id: string)
    requires Past(limits, events, Micros(job.time))
    ensures var now := Micros(job.time);
      Reserve(Run(limits, events), limits, job, id).1.None? <==>
        && job.chars > 0 && !HasJob(limits, events, now, id)
        && |RunningOf(limits, events, job.user, User, now)| < limits.userConcurrency
        && |RunningOf(limits, events, job.tenant, Tenant, now)| < limits.tenantConcurrency
        && AllFit(Accepted(limits, events) + [job], limits)
  {
    var now := Micros(job.time);
    LeasesAreTrue(limits, events, now);
    RunningIsHeld(limits, events, job.user, User, now);
    RunningIsHeld(limits, events, job.tenant, Tenant, now);
    AcceptedOnLeases(limits, events, job, id);
  }

  /** The limits in the order in which they are looked at. */
  function Rank(reason: Rejection): nat {
    match reason
    case CharacterCount => 0
    case UserConcurrency => 1
    case TenantConcurrency => 2
    case UserJobsPerMinute => 3
    case UserJobsPerDay => 4
    case UserCharactersPerDay => 5
    case TenantJobsPerMinute => 6
    case TenantJobsPerDay => 7
    case TenantCharactersPerDay => 8
    case StoreFailure => 9
  }

  /** Where things stand when a job is asked for. */
  datatype Standing = Standing(
    userRuns: nat, tenantRuns: nat, userMinute: Counts, userDay: Counts, tenantMinute: Counts, tenantDay: Counts,
    taken: bool)

  predicate Breaks(limits: Limits, s: Standing, chars: int, reason: Rejection) {
    match reason
    case CharacterCount => chars <= 0
    case UserConcurrency => s.userRuns >= limits.userConcurrency
    case TenantConcurrency => s.tenantRuns >= limits.tenantConcurrency
    case UserJobsPerMinute => s.userMinute.jobs >= limits.userMinute
    case UserJobsPerDay => s.userDay.jobs >= limits.userDay
    case UserCharactersPerDay => s.userDay.chars + chars > limits.userChars
    case TenantJobsPerMinute => s.tenantMinute.jobs >= limits.tenantMinute
    case TenantJobsPerDay => s.tenantDay.jobs >= limits.tenantDay
    case TenantCharactersPerDay => s.tenantDay.chars + chars > limits.tenantChars
    case StoreFailure => s.taken
  }

  /** The reason is a limit that would be broken, and none before it would be. */
  ghost predicate First(limits: Limits, s: Standing, chars: int, reason: Rejection) {
    Breaks(limits, s, chars, reason)
      && forall other :: Rank(other) < Rank(reason) ==> !Breaks(limits, s, chars, other)
  }

  /** Read off the jobs admitted and the leases released before. */
  ghost function StandingOf(limits: Limits, events: seq<Event>, job: Job, id: string): Standing {
    var log, now := Accepted(limits, events), Micros(job.time);
    Standing(|RunningOf(limits, events, job.user, User, now)|, |RunningOf(limits, events, job.tenant, Tenant, now)|,
      Total(log, KeyOf(job, User, Minute)), Total(log, KeyOf(job, User, Day)),
      Total(log, KeyOf(job, Tenant, Minute)), Total(log, KeyOf(job, Tenant, Day)), HasJob(limits, events, now, id))
  }

  function Stored(st: State, job: Job, id: string): Standing {
    var live := Live(st.leases, Micros(job.time));
    Standing(|Held(live, job.user, User)|, |Held(live, job.tenant, Tenant)|,
      Row(st.usage, KeyOf(job, User, Minute)), Row(st.usage, KeyOf(job, User, Day)),
      Row(st.usage, KeyOf(job, Tenant, Minute)), Row(st.usage, KeyOf(job, Tenant, Day)), id in live)
  }

  lemma AnswerIsFirst(st: State, limits: Limits, job: Job, id: string)
    ensures var answer, s := Reserve(st, limits, job, id).1, Stored(st, job, id);
      if answer.Some? then First(limits, s, job.chars, answer.value)
      else forall reason :: !Breaks(limits, s, job.chars, reason)
  {
  }

  lemma StandingIsStored(limits: Limits, events: seq<Event>, job: Job, id: string)
    requires Past(limits, events, Micros(job.time))
    ensures Stored(Run(limits, events), job, id) == StandingOf(limits, events, job, id)
  {
    var now := Micros(job.time);
    InvRun(limits, events);
    LeasesAreTrue(limits, events, now);
    RunningIsHeld(limits, events, job.user, User, now);
    RunningIsHeld(limits, events, job.tenant, Tenant, now);
    assert id in Live(Run(limits, events).leases, now) <==> Unexpired(Run(limits, events).leases, id, now);
  }

  /** A refused job is told the first limit, in that order, that it would break. */
  lemma ReasonIsFirst(limits: Limits, events: seq<Event>, job: Job, id: string, reason: Rejection)
    requires Past(limits, events, Micros(job.time))
    ensures Reserve(Run(limits, events), limits, job, id).1 == Some(reason) <==>
      First(limits, StandingOf(limits, events, job, id), job.chars, reason)
  {
    AnswerIsFirst(Run(limits, events), limits, job, id);
    StandingIsStored(limits, events, job, id);
    var answer := Reserve(Run(limits, events), limits, job, id).1;
    if answer.Some? { RanksDiffer(answer.value, reason); }
  }

  lemma RanksDiffer(a: Rejection, b: Rejection)
    ensures Rank(a) == Rank(b) ==> a == b
  {
  }

  // ---------------------------------------------------------------- days, minutes, tenants

  function MinuteKey(subject: string, kind: Kind, day: int, minute: nat): WindowKey
    requires minute < 1440
  {
    WindowKey(subject, kind, Minute, Moment(day, minute, 0))
  }

  function DayKey(subject: string, kind: Kind, day: int): WindowKey {
    WindowKey(subject, kind, Day, Moment(day, 0, 0))
  }

  /** The counters of the first `n` minutes of a day, added up. */
  function MinuteSum(usage: Usage, subject: string, kind: Kind, day: int, n: nat): Counts
    requires n <= 1440
  {
    if n == 0 then Zero()
    else Add(MinuteSum(usage, subject, kind, day, n - 1), Row(usage, MinuteKey(subject, kind, day, n - 1)))
  }

  /** What a log adds up to in the first `n` minutes of a day. */
  function FirstMinutes(log: seq<Job>, subject: string, kind: Kind, day: int, n: nat): Counts {
    if log == [] then Zero()
    else
      var last := log[|log| - 1];
      Bump(FirstMinutes(log[..|log| - 1], subject, kind, day, n), last, Counted(last, DayKey(subject, kind, day))
        && last.time.minute < n)
  }

  lemma InMinute(job: Job, subject: string, kind: Kind, day: int, n: nat)
    requires n < 1440
    ensures Counted(job, MinuteKey(subject, kind, day, n)) <==>
      Counted(job, DayKey(subject, kind, day)) && job.time.minute == n
  {
  }

  lemma BumpOnce(a: Counts, b: Counts, job: Job, p: bool, q: bool)
    requires !(p && q)
    ensures Bump(Add(a, b), job, p || q) == Add(Bump(a, job, p), Bump(b, job, q))
  {
  }

  lemma {:induction false} FirstMinutesGrow(log: seq<Job>, subject: string, kind: Kind, day: int, n: nat)
    requires n < 1440
    ensures FirstMinutes(log, subject, kind, day, n + 1)
      == Add(FirstMinutes(log, subject, kind, day, n), Total(log, MinuteKey(subject, kind, day, n)))
    decreases log
  {
    if log != [] {
      var before, last := log[..|log| - 1], log[|log| - 1];
      FirstMinutesGrow(before, subject, kind, day, n);
      InMinute(last, subject, kind, day, n);
      BumpOnce(FirstMinutes(before, subject, kind, day, n), Total(before, MinuteKey(subject, kind, day, n)), last,
        Counted(last, DayKey(subject, kind, day))
          && last.time.minute < n, Counted(last, MinuteKey(subject, kind, day, n)));
    }
  }

  lemma {:induction false} NoMinutes(log: seq<Job>, subject: string, kind: Kind, day: int)
    ensures FirstMinutes(log, subject, kind, day, 0) == Zero()
    ensures FirstMinutes(log, subject, kind, day, 1440) == Total(log, DayKey(subject, kind, day))
    decreases log
  {
    if log != [] { NoMinutes(log[..|log| - 1], subject, kind, day); }
  }

  lemma {:induction false} MinuteSumIsFirst(usage: Usage, log: seq<Job>, subject: string, kind: Kind, day: int, n: nat)
    requires n <= 1440 && forall key :: Row(usage, key) == Total(log, key)
    ensures MinuteSum(usage, subject, kind, day, n) == FirstMinutes(log, subject, kind, day, n)
  {
    if n == 0 {
      NoMinutes(log, subject, kind, day);
    } else {
      MinuteSumIsFirst(usage, log, subject, kind, day, n - 1);
      FirstMinutesGrow(log, subject, kind, day, n - 1);
    }
  }

  /** A DAY counter is the sum of the 1440 MINUTE counters of its day. */
  lemma DayIsSumOfMinutes(limits: Limits, events: seq<Event>, subject: string, kind: Kind, day: int)
    ensures var usage := Run(limits, events).usage;
      Row(usage, DayKey(subject, kind, day)) == MinuteSum(usage, subject, kind, day, 1440)
  {
    InvRun(limits, events);
    var log := Accepted(limits, events);
    MinuteSumIsFirst(Run(limits, events).usage, log, subject, kind, day, 1440);
    NoMinutes(log, subject, kind, day);
  }

  /** The USER counters of a list of users, added up. */
  function UserSum(usage: Usage, users: seq<string>, window: Window, start: Time): Counts {
    if users == [] then Zero()
    else Add(UserSum(usage, users[..|users| - 1], window, start),
      Row(usage, WindowKey(users[|users| - 1], User, window, start)))
  }

  predicate InWindow(job: Job, window: Window, start: Time) {
    Start(job.time, window) == start
  }

  /** What a log adds up to in a window: the jobs of these users, and those of them that were
      accepted under some other tenant. */
  function OfUsers(log: seq<Job>, users: set<string>, window: Window, start: Time): Counts {
    if log == [] then Zero()
    else
      var last := log[|log| - 1];
      Bump(OfUsers(log[..|log| - 1], users, window, start), last, last.user in users && InWindow(last, window, start))
  }

  function Strays(log: seq<Job>, users: set<string>, tenant: string, window: Window, start: Time): Counts {
    if log == [] then Zero()
    else
      var last := log[|log| - 1];
      Bump(Strays(log[..|log| - 1], users, tenant, window, start), last, last.user in users && last.tenant != tenant
        && InWindow(last, window, start))
  }

  ghost predicate NoRepeats(users: seq<string>) {
    forall i, j :: 0 <= i < j < |users| ==> users[i] != users[j]
  }

  /** Every job of the tenant in the window belongs to one of the users. */
  ghost predicate Covers(log: seq<Job>, users: set<string>, tenant: string, window: Window, start: Time) {
    forall job :: job in log && job.tenant == tenant && InWindow(job, window, start) ==> job.user in users
  }

  /** Every job of one of the users in the window belongs to the tenant. */
  ghost predicate Exclusive(log: seq<Job>, users: set<string>, tenant: string, window: Window, start: Time) {
    forall job :: job in log && job.user in users && InWindow(job, window, start) ==> job.tenant == tenant
  }

  lemma {:induction false} OfMoreUsers(log: seq<Job>, users: set<string>, user: string, window: Window, start: Time)
    requires user !in users
    ensures OfUsers(log, users + {user}, window, start)
      == Add(OfUsers(log, users, window, start), Total(log, WindowKey(user, User, window, start)))
    decreases log
  {
    if log != [] {
      var last := log[|log| - 1];
      OfMoreUsers(log[..|log| - 1], users, user, window, start);
      assert last.user in users + {user} <==> last.user in users || last.user == user;
      assert Counted(last, WindowKey(user, User, window, start)) <==>
        last.user == user && InWindow(last, window, start);
    }
  }

  lemma {:induction false} OfNoUsers(log: seq<Job>, window: Window, start: Time)
    ensures OfUsers(log, {}, window, start) == Zero()
    decreases log
  {
    if log != [] { OfNoUsers(log[..|log| - 1], window, start); }
  }

  function Members(users: seq<string>): set<string> {
    set u | u in users
  }

  predicate UserRowTrue(usage: Usage, log: seq<Job>, user: string, window: Window, start: Time) {
    Row(usage, WindowKey(user, User, window, start)) == Total(log, WindowKey(user, User, window, start))
  }

  ghost predicate UserRowsTrue(usage: Usage, log: seq<Job>, users: set<string>, window: Window, start: Time) {
    forall u {:trigger UserRowTrue(usage, log, u, window, start)} ::
      u in users ==> UserRowTrue(usage, log, u, window, start)
  }

  lemma UserSumGrows(usage: Usage, users: seq<string>, user: string, window: Window, start: Time)
    ensures UserSum(usage, users + [user], window, start)
      == Add(UserSum(usage, users, window, start), Row(usage, WindowKey(user, User, window, start)))
  {
    assert (users + [user])[..|users|] == users;
  }

  lemma NoRepeatsFront(users: seq<string>, user: string)
    requires NoRepeats(users + [user])
    ensures NoRepeats(users) && user !in Members(users) && Members(users + [user]) == Members(users) + {user}
  {
    var all := users + [user];
    assert forall i :: 0 <= i < |users| ==> all[i] == users[i];
    assert all[|users|] == user;
  }

  lemma {:induction false} UserSumIsLog(usage: Usage, log: seq<Job>, users: seq<string>, window: Window, start: Time)
    requires NoRepeats(users) && UserRowsTrue(usage, log, Members(users), window, start)
    ensures UserSum(usage, users, window, start) == OfUsers(log, Members(users), window, start)
    decreases users
  {
    if users == [] {
      assert Members(users) == {};
      OfNoUsers(log, window, start);
    } else {
      var before, last := users[..|users| - 1], users[|users| - 1];
      assert before + [last] == users;
      NoRepeatsFront(before, last);
      UserSumIsLog(usage, log, before, window, start);
      UserSumGrows(usage, before, last, window, start);
      OfMoreUsers(log, Members(before), last, window, start);
      assert UserRowTrue(usage, log, last, window, start);
    }
  }

  lemma {:induction false} UsersAndStrays(log: seq<Job>, users: set<string>, tenant: string, window: Window,
      start: Time)
    requires Covers(log, users, tenant, window, start)
    ensures OfUsers(log, users, window, start)
         == Add(Total(log, WindowKey(tenant, Tenant, window, start)), Strays(log, users, tenant, window, start))
    decreases log
  {
    if log != [] {
      var last := log[|log| - 1];
      UsersAndStrays(log[..|log| - 1], users, tenant, window, start);
      assert last in log;
      assert Counted(last, WindowKey(tenant, Tenant, window, start)) <==>
        last.tenant == tenant && InWindow(last, window, start);
    }
  }

  lemma {:induction false} StraysIff(log: seq<Job>, users: set<string>, tenant: string, window: Window, start: Time)
    ensures Strays(log, users, tenant, window, start) == Zero() <==> Exclusive(log, users, tenant, window, start)
    decreases log
  {
    if log != [] {
      var before, last := log[..|log| - 1], log[|log| - 1];
      StraysIff(before, users, tenant, window, start);
      assert log == before + [last];
    }
  }

  lemma AddsNothing(a: Counts, b: Counts)
    ensures a == Add(a, b) <==> b == Zero()
  {
  }

  lemma UserSumInRun(limits: Limits, events: seq<Event>, users: seq<string>, window: Window, start: Time)
    requires NoRepeats(users)
    ensures UserSum(Run(limits, events).usage, users, window, start)
      == OfUsers(Accepted(limits, events), Members(users), window, start)
  {
    var usage, log := Run(limits, events).usage, Accepted(limits, events);
    forall u | u in Members(users) ensures UserRowTrue(usage, log, u, window, start) {
      CountersAreTrue(limits, events, WindowKey(u, User, window, start), u, User);
    }
    UserSumIsLog(usage, log, users, window, start);
  }

  /** A TENANT counter against the USER counters of all the users it served in that window:
      they add up to it exactly when none of those users was served for another tenant. */
  lemma TenantIsSumOfUsers(limits: Limits, events: seq<Event>, users: seq<string>, tenant: string, window: Window,
      start: Time)
    requires NoRepeats(users) && Covers(Accepted(limits, events), Members(users), tenant, window, start)
    ensures var usage := Run(limits, events).usage;
      (Row(usage, WindowKey(tenant, Tenant, window, start)) == UserSum(usage, users, window, start))
      <==> Exclusive(Accepted(limits, events), Members(users), tenant, window, start)
  {
    var log := Accepted(limits, events);
    UserSumInRun(limits, events, users, window, start);
    CountersAreTrue(limits, events, WindowKey(tenant, Tenant, window, start), tenant, Tenant);
    UsersAndStrays(log, Members(users), tenant, window, start);
    var strays := Strays(log, Members(users), tenant, window, start);
    AddsNothing(Total(log, WindowKey(tenant, Tenant, window, start)), strays);
    StraysIff(log, Members(users), tenant, window, start);
  }

  /** The accepted jobs of a subject within 60 seconds from `t`, both ends included. */
  function Within(log: seq<Job>, subject: string, kind: Kind, t: Time): nat {
    if log == [] then 0
    else
      var last := log[|log| - 1];
      Within(log[..|log| - 1], subject, kind, t)
        + (if KeyOf(last, kind, Minute).subject == subject
          && Micros(t) <= Micros(last.time) <= Micros(t) + 60_000_000 then 1 else 0)
  }

  function NextMinute(t: Time): Time {
    if t.minute < 1439 then Moment(t.day, t.minute + 1, 0) else Moment(t.day + 1, 0, 0)
  }

  lemma SpanMinutes(t: Time, u: Time)
    requires Micros(t) <= Micros(u) <= Micros(t) + 60_000_000
    ensures Start(u, Minute) == Start(t, Minute) || Start(u, Minute) == NextMinute(t)
  {
    assert Minutes(t) <= Minutes(u) <= Minutes(t) + 1;
  }

  lemma {:induction false} SpanMeetsTwoMinutes(log: seq<Job>, subject: string, kind: Kind, t: Time)
    ensures Within(log, subject, kind, t)
         <= Total(log, WindowKey(subject, kind, Minute, Start(t, Minute))).jobs
           + Total(log, WindowKey(subject, kind, Minute, NextMinute(t))).jobs
    decreases log
  {
    if log != [] {
      var last := log[|log| - 1];
      SpanMeetsTwoMinutes(log[..|log| - 1], subject, kind, t);
      if Micros(t) <= Micros(last.time) <= Micros(t) + 60_000_000 { SpanMinutes(t, last.time); }
    }
  }

  /** Whatever 60 seconds one looks at, at most twice the per-minute limit was admitted. */
  lemma AnyMinuteBounded(limits: Limits, events: seq<Event>, subject: string, kind: Kind, t: Time)
    ensures Within(Accepted(limits, events), subject, kind, t)
      <= 2 * (if kind.User? then limits.userMinute else limits.tenantMinute)
  {
    InvRun(limits, events);
    SpanMeetsTwoMinutes(Accepted(limits, events), subject, kind, t);
    var usage := Run(limits, events).usage;
    var a, b := WindowKey(subject, kind, Minute, Start(t, Minute)), WindowKey(subject, kind, Minute, NextMinute(t));
    assert Fits(Row(usage, a), a, limits) && Fits(Row(usage, b), b, limits);
  }

  // ---------------------------------------------------------------- the clock

  /** Time counts microseconds: one more from each moment to the next, through minutes and days. */
  lemma ClockTicks(t: Time)
    ensures t.micro < 59_999_999 ==> Micros(Moment(t.day, t.minute, t.micro + 1)) == Micros(t) + 1
    ensures t.micro == 59_999_999 && t.minute < 1439 ==> Micros(Moment(t.day, t.minute + 1, 0)) == Micros(t) + 1
    ensures t.micro == 59_999_999 && t.minute == 1439 ==> Micros(Moment(t.day + 1, 0, 0)) == Micros(t) + 1
    ensures Micros(Moment(0, 0, 0)) == 0
  {
  }
}
