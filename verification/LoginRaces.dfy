/** Logins that overlap (app/user_identity.py): the lock is read when a login begins, in one
    transaction, and its failure is recorded when it ends, in another. What becomes of the
    lockout bound. */
module LoginRaces {
  import opened Outcomes
  import opened LoginLockout

  /** `pending` holds the logins that have passed the check and whose outcome is not recorded. */
  datatype State = State(failures: Failures, pending: map<nat, Attempt>)

  datatype Action =
    | Begin(c: nat, attempt: Attempt)
    | Finish(c: nat)
    | Abandon(c: nat)

  /** One transaction, or the end of a process. A failure is recorded with the time at which
      its login began. */
  function Act(p: Policy, st: State, a: Action): State {
    match a
    case Begin(c, attempt) =>
      if c in st.pending || attempt.credentials.Inadmissible?
        || !Admits(Lookup(st.failures, attempt.subject), attempt.now)
      then st else st.(pending := st.pending[c := attempt])
    case Finish(c) =>
      if c !in st.pending then st
      else
        var it := st.pending[c];
        State(if it.credentials.Right? then st.failures - {it.subject}
          else AfterRecord(p, st.failures, it.subject, it.now),
          st.pending - {c})
    case Abandon(c) => st.(pending := st.pending - {c})
  }

  function Interleave(p: Policy, actions: seq<Action>): State {
    if actions == [] then State(map[], map[])
      else Act(p, Interleave(p, actions[..|actions| - 1]), actions[|actions| - 1])
  }

  /** The logins of a subject that have been recorded, in the order of their recording. */
  function Landed(p: Policy, actions: seq<Action>, subject: string): seq<Attempt> {
    if actions == [] then []
    else
      var before, a := actions[..|actions| - 1], actions[|actions| - 1];
      var st := Interleave(p, before);
      Landed(p, before, subject) + LandedBy(st, a, subject)
  }

  /** The times of a subject's recorded failures since its last recorded success. */
  function Since(landed: seq<Attempt>): seq<int> {
    if landed == [] then []
    else
      var last := landed[|landed| - 1];
      if last.credentials.Right? then [] else Since(landed[..|landed| - 1]) + [last.now]
  }

  function RaceTimes(p: Policy, actions: seq<Action>, subject: string): seq<int> {
    Since(Landed(p, actions, subject))
  }

  function PendingOf(st: State, subject: string): set<nat> {
    set c | c in st.pending && st.pending[c].subject == subject
  }

  /** At no moment more than `k` logins of the subject are pending. */
  ghost predicate AtMost(p: Policy, actions: seq<Action>, subject: string, k: nat) {
    && |PendingOf(Interleave(p, actions), subject)| <= k
    && (actions == [] || AtMost(p, actions[..|actions| - 1], subject, k))
  }

  /** The clock does not run backwards from one beginning to the next. */
  ghost predicate Clocked(actions: seq<Action>) {
    forall i, j :: 0 <= i < j < |actions| && actions[i].Begin? && actions[j].Begin? ==>
      actions[i].attempt.now <= actions[j].attempt.now
  }

  /** The bound of the serial case. */
  ghost predicate Bounded(p: Policy, times: seq<int>)
    requires p.Valid()
  {
    forall i :: 0 <= i && i + Burst(p) <= |times| ==>
      Lasts(p, times[i + Burst(p) - 1] - times[i])
  }

  predicate Lasts(p: Policy, span: int) {
    span > p.window || span >= p.lock
  }

  // ---------------------------------------------------------------- one at a time

  /** The logins of one subject, taken as a serial run, leave this row. */
  ghost predicate SerialRow(p: Policy, landed: seq<Attempt>, subject: string, row: Option<Row>) {
    && Ordered(landed)
    && Lookup(Run(p, landed), subject) == row
    && FailureTimes(p, landed, subject) == Since(landed)
  }

  /** A login that would still be admitted, and began no earlier than any recorded one. */
  ghost predicate Waits(row: Option<Row>, landed: seq<Attempt>, it: Attempt) {
    !it.credentials.Inadmissible? && Admits(row, it.now) && forall a :: a in landed ==> a.now <= it.now
  }

  ghost predicate AllWait(st: State, landed: seq<Attempt>, subject: string) {
    forall c :: c in st.pending && st.pending[c].subject == subject ==>
      Waits(Lookup(st.failures, subject), landed, st.pending[c])
  }

  /** The recorded logins of the subject form a serial run, which any pending one continues. */
  ghost predicate Tidy(p: Policy, st: State, landed: seq<Attempt>, subject: string) {
    SerialRow(p, landed, subject, Lookup(st.failures, subject)) && AllWait(st, landed, subject)
  }

  /** All that is pending or recorded began at some point of the run. */
  lemma {:induction false} AllBegan(p: Policy, actions: seq<Action>, subject: string, now: int)
    requires forall i :: 0 <= i < |actions| && actions[i].Begin? ==> actions[i].attempt.now <= now
    ensures forall a :: a in Landed(p, actions, subject) ==> a.now <= now
    ensures forall c :: c in Interleave(p, actions).pending ==> Interleave(p, actions).pending[c].now <= now
    decreases actions
  {
    if actions != [] { AllBegan(p, actions[..|actions| - 1], subject, now); }
  }

  /** A waiting login continues a serial run. */
  lemma SerialGrows(p: Policy, landed: seq<Attempt>, subject: string, row: Option<Row>, it: Attempt)
    requires SerialRow(p, landed, subject, row) && Waits(row, landed, it) && it.subject == subject
    ensures SerialRow(p, landed + [it], subject, if it.credentials.Right? then None
      else Some(AfterFailure(p, row, it.now)))
  {
    assert (landed + [it])[..|landed|] == landed;
    assert forall i :: 0 <= i < |landed| ==> landed[i] in landed;
  }

  function LandedBy(st: State, a: Action, subject: string): seq<Attempt> {
    if a.Finish? && a.c in st.pending && st.pending[a.c].subject == subject then [st.pending[a.c]] else []
  }

  lemma FinishKeepsTidy(p: Policy, st: State, landed: seq<Attempt>, c: nat, subject: string)
    requires Tidy(p, st, landed, subject) && c in st.pending && |PendingOf(st, subject)| <= 1
    ensures Tidy(p, Act(p, st, Finish(c)), landed + LandedBy(st, Finish(c), subject), subject)
  {
    var it := st.pending[c];
    var next := Act(p, st, Finish(c));
    if it.subject == subject {
      assert c in PendingOf(st, subject);
      Alone(PendingOf(st, subject), c);
      SerialGrows(p, landed, subject, Lookup(st.failures, subject), it);
      assert PendingOf(next, subject) == PendingOf(st, subject) - {c};
      assert forall d :: d in next.pending && next.pending[d].subject == subject ==> d in PendingOf(next, subject);
    } else {
      assert landed + [] == landed;
    }
  }

  lemma BeginKeepsTidy(p: Policy, st: State, landed: seq<Attempt>, c: nat, it: Attempt, subject: string)
    requires Tidy(p, st, landed, subject) && forall a :: a in landed ==> a.now <= it.now
    ensures Tidy(p, Act(p, st, Begin(c, it)), landed, subject)
  {
  }

  lemma Alone(s: set<nat>, c: nat)
    requires c in s && |s| <= 1
    ensures s == {c}
  {
    if s - {c} != {} {
      var d :| d in s - {c};
      assert {c, d} <= s && |s| >= |{c, d}| by { Smaller({c, d}, s); }
    }
  }

  lemma Smaller(a: set<nat>, b: set<nat>)
    requires a <= b
    ensures |a| <= |b|
  {
    assert b == a + (b - a);
  }

  lemma {:induction false} OneAtATimeIsSerial(p: Policy, actions: seq<Action>, subject: string)
    requires AtMost(p, actions, subject, 1) && Clocked(actions)
    ensures Tidy(p, Interleave(p, actions), Landed(p, actions, subject), subject)
    decreases actions
  {
    if actions != [] {
      var n := |actions| - 1;
      var before, a := actions[..n], actions[n];
      OneAtATimeIsSerial(p, before, subject);
      var st, landed := Interleave(p, before), Landed(p, before, subject);
      assert Landed(p, actions, subject) == landed + LandedBy(st, a, subject);
      assert !a.Finish? ==> landed + LandedBy(st, a, subject) == landed;
      match a
      case Begin(c, it) => AllBegan(p, before, subject, it.now); BeginKeepsTidy(p, st, landed, c, it, subject);
      case Abandon(c) =>
      case Finish(c) =>
        if c in st.pending { FinishKeepsTidy(p, st, landed, c, subject); } else { assert landed + [] == landed; }
    }
  }

  /** Logins of one subject that do not overlap keep the lockout bound, however the logins of
      other subjects interleave with them and whichever are abandoned. */
  lemma OneAtATimeIsBounded(p: Policy, actions: seq<Action>, subject: string)
    requires p.Valid() && AtMost(p, actions, subject, 1) && Clocked(actions)
    ensures Bounded(p, RaceTimes(p, actions, subject))
  {
    OneAtATimeIsSerial(p, actions, subject);
    var landed, times := Landed(p, actions, subject), RaceTimes(p, actions, subject);
    forall i | 0 <= i && i + Burst(p) <= |times|
      ensures Lasts(p, times[i + Burst(p) - 1] - times[i])
    {
      LockoutBound(p, landed, subject, i);
    }
  }

  // ---------------------------------------------------------------- two at a time

  /** The logins of one subject that fail at these times, one after the other. */
  function Sequential(subject: string, times: seq<int>): seq<Action> {
    if times == [] then []
    else
      var n := |times| - 1;
      (Sequential(subject, times[..n]) + [Begin(0, Attempt(subject, Wrong, times[n]))]) + [Finish(0)]
  }

  /** Where a run stands: what is pending, the subject's row and times, the time of the latest
      beginning; and that it was ordered and never had more than two logins pending. */
  ghost predicate Stands(p: Policy, actions: seq<Action>, subject: string, pending: map<nat, Attempt>,
      row: Option<Row>, times: seq<int>) {
    var st := Interleave(p, actions);
    && st.pending == pending && Lookup(st.failures, subject) == row
    && RaceTimes(p, actions, subject) == times
    && AtMost(p, actions, subject, 2) && Clocked(actions)
  }

  ghost predicate BeganBy(actions: seq<Action>, now: int) {
    forall i :: 0 <= i < |actions| && actions[i].Begin? ==> actions[i].attempt.now <= now
  }

  lemma BeginLandsNone(p: Policy, actions: seq<Action>, c: nat, it: Attempt)
    ensures Landed(p, actions + [Begin(c, it)], it.subject) == Landed(p, actions, it.subject)
  {
    assert (actions + [Begin(c, it)])[..|actions|] == actions;
    assert Landed(p, actions, it.subject) + [] == Landed(p, actions, it.subject);
  }

  lemma BeginStands(p: Policy, actions: seq<Action>, c: nat, it: Attempt, pending: map<nat, Attempt>, row: Option<Row>,
      times: seq<int>)
    requires Stands(p, actions, it.subject, pending, row, times) && BeganBy(actions, it.now)
    requires c !in pending && |pending| <= 1 && it.credentials.Wrong? && Admits(row, it.now)
    ensures Stands(p, actions + [Begin(c, it)], it.subject, pending[c := it], row, times)
    ensures BeganBy(actions + [Begin(c, it)], it.now)
  {
    var all := actions + [Begin(c, it)];
    assert all[..|actions|] == actions;
    BeginLandsNone(p, actions, c, it);
    var st := Interleave(p, all);
    Smaller(PendingOf(st, it.subject), st.pending.Keys);
    assert st.pending.Keys == pending.Keys + {c};
  }

  lemma FinishStands(p: Policy, actions: seq<Action>, c: nat, subject: string, pending: map<nat, Attempt>,
      row: Option<Row>, times: seq<int>, now: int)
    requires Stands(p, actions, subject, pending, row, times) && BeganBy(actions, now)
    requires c in pending && pending[c].subject == subject && pending[c].credentials.Wrong?
    ensures Stands(p, actions + [Finish(c)], subject, pending - {c}, Some(AfterFailure(p, row, pending[c].now)),
      times + [pending[c].now])
    ensures BeganBy(actions + [Finish(c)], now)
  {
    var all := actions + [Finish(c)];
    assert all[..|actions|] == actions;
    var landed := Landed(p, actions, subject);
    assert Landed(p, all, subject) == landed + [pending[c]];
    assert (landed + [pending[c]])[..|landed|] == landed;
    Smaller(PendingOf(Interleave(p, all), subject), PendingOf(Interleave(p, actions), subject));
  }

  lemma OneLogin(p: Policy, actions: seq<Action>, it: Attempt, row: Option<Row>, times: seq<int>)
    requires Stands(p, actions, it.subject, map[], row, times) && BeganBy(actions, it.now)
    requires it.credentials.Wrong? && Admits(row, it.now)
    ensures var all := (actions + [Begin(0, it)]) + [Finish(0)];
      && Stands(p, all, it.subject, map[], Some(AfterFailure(p, row, it.now)), times + [it.now])
      && BeganBy(all, it.now)
  {
    BeginStands(p, actions, 0, it, map[], row, times);
    FinishStands(p, actions + [Begin(0, it)], 0, it.subject, map[0 := it], row, times, it.now);
    assert map[0 := it] - {0} == map[];
  }

  lemma TwoBegin(p: Policy, a0: seq<Action>, it: Attempt, row: Option<Row>, times: seq<int>)
    requires Stands(p, a0, it.subject, map[], row, times) && BeganBy(a0, it.now)
    requires it.credentials.Wrong? && Admits(row, it.now)
    ensures var all := (a0 + [Begin(1, it)]) + [Begin(2, it)];
      Stands(p, all, it.subject, map[1 := it][2 := it], row, times) && BeganBy(all, it.now)
  {
    BeginStands(p, a0, 1, it, map[], row, times);
    BeginStands(p, a0 + [Begin(1, it)], 2, it, map[][1 := it], row, times);
  }

  lemma TwoFinish(p: Policy, a2: seq<Action>, it: Attempt, row: Option<Row>, times: seq<int>)
    requires Stands(p, a2, it.subject, map[1 := it][2 := it], row, times) && BeganBy(a2, it.now)
    requires it.credentials.Wrong?
    ensures var all := (a2 + [Finish(1)]) + [Finish(2)];
      exists last :: Stands(p, all, it.subject, map[], last, (times + [it.now]) + [it.now])
  {
    var both := map[1 := it][2 := it];
    FinishStands(p, a2, 1, it.subject, both, row, times, it.now);
    var next := Some(AfterFailure(p, row, it.now));
    assert both - {1} == map[2 := it];
    FinishStands(p, a2 + [Finish(1)], 2, it.subject, map[2 := it], next, times + [it.now], it.now);
    assert map[2 := it] - {2} == map[];
  }

  /** Two logins begin before either is recorded. */
  lemma TwoLogins(p: Policy, a0: seq<Action>, it: Attempt, row: Option<Row>, times: seq<int>)
    requires Stands(p, a0, it.subject, map[], row, times) && BeganBy(a0, it.now)
    requires it.credentials.Wrong? && Admits(row, it.now)
    ensures var all := (((a0 + [Begin(1, it)]) + [Begin(2, it)]) + [Finish(1)]) + [Finish(2)];
      exists last :: Stands(p, all, it.subject, map[], last, (times + [it.now]) + [it.now])
  {
    TwoBegin(p, a0, it, row, times);
    TwoFinish(p, (a0 + [Begin(1, it)]) + [Begin(2, it)], it, row, times);
  }

  lemma SequentialMore(p: Policy, subject: string, times: seq<int>, row: Option<Row>, now: int)
    requires Stands(p, Sequential(subject, times), subject, map[], row, times)
    requires BeganBy(Sequential(subject, times), now) && Admits(row, now)
    ensures var next := Sequential(subject, times + [now]);
      && Stands(p, next, subject, map[], Some(AfterFailure(p, row, now)), times + [now])
      && BeganBy(next, now)
  {
    var it := Attempt(subject, Wrong, now);
    OneLogin(p, Sequential(subject, times), it, row, times);
    SequentialOne(subject, times, now);
  }

  lemma SequentialOne(subject: string, times: seq<int>, now: int)
    ensures Sequential(subject, times + [now])
      == (Sequential(subject, times) + [Begin(0, Attempt(subject, Wrong, now))]) + [Finish(0)]
  {
    assert (times + [now])[..|times|] == times;
  }

  lemma BeganLater(actions: seq<Action>, now: int, later: int)
    requires BeganBy(actions, now) && now <= later
    ensures BeganBy(actions, later)
  {
  }

  /** The sequential run is the serial one. */
  lemma {:induction false} SequentialIsSerial(p: Policy, subject: string, times: seq<int>)
    requires Possible(p, times)
    ensures Stands(p, Sequential(subject, times), subject, map[], After(p, times, |times|), times)
    ensures times != [] ==> BeganBy(Sequential(subject, times), times[|times| - 1])
    decreases times
  {
    if times == [] {
      NothingStands(p, subject);
    } else {
      var n := |times| - 1;
      PossiblePrefix(p, times, n);
      SequentialIsSerial(p, subject, times[..n]);
      assert times == times[..n] + [times[n]] && Admits(After(p, times, n), times[n]);
      if n > 0 { BeganLater(Sequential(subject, times[..n]), times[n - 1], times[n]); }
      SequentialMore(p, subject, times[..n], After(p, times, n), times[n]);
    }
  }

  lemma NothingStands(p: Policy, subject: string)
    ensures Stands(p, [], subject, map[], None, [])
  {
    assert PendingOf(Interleave(p, []), subject) == {};
  }

  /** Failures that bring the count one short of the lock, and the time of the last of them. */
  function Brink(p: Policy): seq<int>
    requires p.Valid()
  {
    if p.maximum == 1 then [] else Crowd(p)[..Burst(p) - 1]
  }

  function BrinkTime(p: Policy): int { if p.maximum == 1 then 0 else p.window + 1 }

  lemma BrinkIsOpen(p: Policy)
    requires p.Valid()
    ensures Possible(p, Brink(p)) && Admits(After(p, Brink(p), |Brink(p)|), BrinkTime(p))
    ensures forall t :: t in Brink(p) ==> t <= BrinkTime(p)
  {
    if p.maximum > 1 {
      CrowdIsPossible(p);
      PossiblePrefix(p, Crowd(p), Burst(p) - 1);
      CrowdCounts(p, Burst(p) - 1);
      forall t | t in Brink(p) ensures t <= BrinkTime(p) {
        var i :| 0 <= i < |Brink(p)| && Brink(p)[i] == t;
        assert Crowd(p)[i] == t;
      }
    }
  }

  /** At the brink two logins begin before either is recorded. */
  function Race(p: Policy, subject: string): seq<Action>
    requires p.Valid()
  {
    var it := Attempt(subject, Wrong, BrinkTime(p));
    (((Sequential(subject, Brink(p)) + [Begin(1, it)]) + [Begin(2, it)]) + [Finish(1)]) + [Finish(2)]
  }

  lemma RaceRuns(p: Policy, subject: string)
    requires p.Valid()
    ensures AtMost(p, Race(p, subject), subject, 2) && Clocked(Race(p, subject))
    ensures RaceTimes(p, Race(p, subject), subject) == (Brink(p) + [BrinkTime(p)]) + [BrinkTime(p)]
  {
    BrinkIsOpen(p);
    SequentialIsSerial(p, subject, Brink(p));
    var it, times := Attempt(subject, Wrong, BrinkTime(p)), Brink(p);
    assert times != [] ==> times[|times| - 1] in times;
    TwoLogins(p, Sequential(subject, times), it, After(p, times, |times|), times);
  }

  /** Exactly how much overlap the bound survives: none. With at most one login of the subject
      pending at a time it holds in every run; as soon as two may be pending, whatever the
      policy, `Burst(p)` failures can fall within a single tick. */
  lemma OverlapBreaksTheBound(p: Policy, subject: string, k: nat)
    requires p.Valid()
    ensures k <= 1 ==> forall actions :: AtMost(p, actions, subject, k) && Clocked(actions) ==>
      Bounded(p, RaceTimes(p, actions, subject))
    ensures k >= 2 && p.lock >= 2 ==>
      exists actions :: AtMost(p, actions, subject, k) && Clocked(actions)
        && !Bounded(p, RaceTimes(p, actions, subject))
  {
    if k <= 1 {
      forall actions | AtMost(p, actions, subject, k) && Clocked(actions)
        ensures Bounded(p, RaceTimes(p, actions, subject))
      {
        MoreRoom(p, actions, subject, k, 1);
        OneAtATimeIsBounded(p, actions, subject);
      }
    } else if p.lock >= 2 {
      RaceRuns(p, subject);
      MoreRoom(p, Race(p, subject), subject, 2, k);
      RaceIsTooFast(p);
    }
  }

  lemma RaceIsTooFast(p: Policy)
    requires p.Valid() && p.lock >= 2
    ensures !Bounded(p, (Brink(p) + [BrinkTime(p)]) + [BrinkTime(p)])
  {
    var now := BrinkTime(p);
    var times := (Brink(p) + [now]) + [now];
    var i := if p.maximum == 1 then 0 else 1;
    if p.maximum > 1 {
      CrowdIsPossible(p);
      assert |Brink(p)| == 2 * p.maximum - 2 && times[1] == Brink(p)[1] == Crowd(p)[1];
    }
    assert 0 <= i && i + Burst(p) == |times|;
    assert times[i + Burst(p) - 1] == now && now - times[i] < 2;
  }

  lemma {:induction false} MoreRoom(p: Policy, actions: seq<Action>, subject: string, j: nat, k: nat)
    requires j <= k && AtMost(p, actions, subject, j)
    ensures AtMost(p, actions, subject, k)
    decreases actions
  {
    if actions != [] { MoreRoom(p, actions[..|actions| - 1], subject, j, k); }
  }
}
