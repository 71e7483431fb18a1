/** Saves, continuity updates and forgettings that overlap or break off (app/memory.py): each is
    several store transactions, and nothing holds them together. When a forgetting is still
    complete. */
module ThreadRaces {
  import opened Outcomes
  import opened ThreadMemory

  /** A call between two of its transactions: a save that has written its thread; a save or an
      update that has loaded the index and appended its session; one that has stored the index
      and still has evicted threads to delete; an update that has loaded the record and is about
      to store the new one; a forgetting with threads left to delete; one that has deleted the
      index too. An update carries the snippet it will record. */
  datatype Call =
    | Saving(user: string, session: string)
    | Indexing(user: string, sessions: seq<string>, note: Option<Snippet>)
    | Evicting(user: string, doomed: seq<string>, index: seq<string>, note: Option<Snippet>)
    | Storing(user: string, record: seq<Snippet>)
    | Forgetting(user: string, doomed: seq<string>)
    | Dropping(user: string)

  datatype World = World(store: State, calls: map<nat, Call>)

  datatype Action =
    | BeginSave(c: nat, user: string, session: string, messages: seq<Message>)
    | BeginUpdate(c: nat, user: string, session: string, messages: seq<Message>)
    | BeginForget(c: nat, user: string)
    | Advance(c: nat)
    | Crash(c: nat)

  /** The next transaction of a call; `None` when it was the last one. */
  function Proceed(st: State, call: Call, k: nat): (State, Option<Call>) {
    match call
    case Saving(user, session) => (st, Some(Indexing(user, IndexOf(st, user, k) + [session], None)))
    case Indexing(user, sessions, note) =>
      var unique := Unique(sessions);
      var bounded := LastN(unique, k);
      (st.(indexes := st.indexes[user := bounded]), Some(Evicting(user, unique[..|unique| - |bounded|], bounded, note)))
    case Evicting(user, doomed, index, note) =>
      if doomed != [] then (WithoutThread(st, user, doomed[0]), Some(Evicting(user, doomed[1..], index, note)))
      else if note.None? then (st, None)
      else (st, Some(Storing(user, Arrange(index, ContinuityOf(st, user, k) + [note.value]))))
    case Storing(user, record) => (st.(continuity := st.continuity[user := record]), None)
    case Forgetting(user, doomed) =>
      if doomed != [] then (WithoutThread(st, user, doomed[0]), Some(Forgetting(user, doomed[1..])))
      else (st.(indexes := st.indexes - {user}), Some(Dropping(user)))
    case Dropping(user) => (st.(continuity := st.continuity - {user}), None)
  }

  function WithoutThread(st: State, user: string, session: string): State {
    st.(threads := st.threads - {(user, session)})
  }

  function Begun(w: World, c: nat, store: State, call: Call): World {
    if c in w.calls then w else World(store, w.calls[c := call])
  }

  function Act(w: World, a: Action, k: nat, m: nat): World {
    match a
    case BeginSave(c, user, session, messages) =>
      Begun(w, c, w.store.(threads := w.store.threads[(user, session) := LastN(messages, m)]), Saving(user, session))
    case BeginUpdate(c, user, session, messages) =>
      var note := Some(Snippet(session, Shorten(messages)));
      Begun(w, c, w.store, Indexing(user, IndexOf(w.store, user, k) + [session], note))
    case BeginForget(c, user) => Begun(w, c, w.store, Forgetting(user, IndexOf(w.store, user, k)))
    case Advance(c) => if c in w.calls then Advanced(w, c, k) else w
    case Crash(c) => w.(calls := w.calls - {c})
  }

  function Advanced(w: World, c: nat, k: nat): World
    requires c in w.calls
  {
    var (store, next) := Proceed(w.store, w.calls[c], k);
    World(store, if next.Some? then w.calls[c := next.value] else w.calls - {c})
  }

  function Perform(w: World, actions: seq<Action>, k: nat, m: nat): World
    decreases actions
  {
    if actions == [] then w else Perform(Act(w, actions[0], k, m), actions[1..], k, m)
  }

  // ---------------------------------------------------------------- one call per user at a time

  ghost predicate Busy(w: World, user: string) {
    exists c :: c in w.calls && w.calls[c].user == user
  }

  /** An action that lets no two calls of one user overlap and breaks none off. */
  ghost predicate Orderly(w: World, a: Action) {
    match a
    case BeginSave(_, user, _, _) => !Busy(w, user)
    case BeginUpdate(_, user, _, _) => !Busy(w, user)
    case BeginForget(_, user) => !Busy(w, user)
    case Advance(_) => true
    case Crash(c) => c !in w.calls
  }

  ghost predicate AllOrderly(w: World, actions: seq<Action>, k: nat, m: nat)
    decreases actions
  {
    actions == [] || (Orderly(w, actions[0]) && AllOrderly(Act(w, actions[0], k, m), actions[1..], k, m))
  }

  function Indexed(st: State, user: string, k: nat): set<string> {
    set s | s in IndexOf(st, user, k)
  }

  /** The sessions that may have a thread while a call of their user stands there. */
  function Allowed(st: State, call: Call, k: nat): set<string> {
    match call
    case Saving(user, session) => Indexed(st, user, k) + {session}
    case Indexing(_, sessions, _) => set s | s in sessions
    case Evicting(user, doomed, _, _) => Indexed(st, user, k) + set s | s in doomed
    case Storing(user, _) => Indexed(st, user, k)
    case Forgetting(_, doomed) => set s | s in doomed
    case Dropping(_) => {}
  }

  ghost predicate Within(st: State, user: string, allowed: set<string>) {
    forall s :: (user, s) in st.threads ==> s in allowed
  }

  /** The threads of a call's user are covered; once the index is dropped it is gone. */
  ghost predicate CallOk(st: State, call: Call, k: nat) {
    Within(st, call.user, Allowed(st, call, k)) && (call.Dropping? ==> call.user !in st.indexes)
  }

  ghost predicate OnePerUser(calls: map<nat, Call>) {
    forall c, d :: c in calls && d in calls && calls[c].user == calls[d].user ==> c == d
  }

  ghost predicate Sound(w: World, k: nat) {
    && OnePerUser(w.calls)
    && (forall c :: c in w.calls ==> CallOk(w.store, w.calls[c], k))
    && (forall u :: !Busy(w, u) ==> Within(w.store, u, Indexed(w.store, u, k)))
  }

  /** Two stores that agree on everything of a user but the continuity record. */
  ghost predicate SameFor(st: State, next: State, user: string) {
    && (user in next.indexes <==> user in st.indexes)
    && (user in st.indexes ==> next.indexes[user] == st.indexes[user])
    && forall s :: (user, s) in next.threads <==> (user, s) in st.threads
  }

  /** A call's transaction touches its own user's records only. */
  lemma ProceedIsLocal(st: State, call: Call, k: nat, user: string)
    requires user != call.user
    ensures SameFor(st, Proceed(st, call, k).0, user)
  {
  }

  lemma SameKeepsOk(st: State, next: State, call: Call, k: nat)
    requires SameFor(st, next, call.user)
    ensures CallOk(st, call, k) <==> CallOk(next, call, k)
    ensures Indexed(next, call.user, k) == Indexed(st, call.user, k)
  {
    assert Allowed(next, call, k) == Allowed(st, call, k);
  }

  lemma LastOfShort(xs: seq<string>, k: nat)
    ensures LastN(LastN(xs, k), k) == LastN(xs, k)
  {
  }

  /** And leaves no thread of its user behind without cover. */
  lemma IndexingKeepsCover(st: State, call: Call, k: nat)
    requires k >= 1 && CallOk(st, call, k) && call.Indexing?
    ensures var (next, rest) := Proceed(st, call, k);
      rest.Some? && rest.value.user == call.user && CallOk(next, rest.value, k)
  {
    var xs := call.sessions;
    UniqueIsLatestOnly(xs);
    LatestOnlyHolds(xs);
    BoundedPart(Unique(xs), k);
    LastOfShort(Unique(xs), k);
    var next := Proceed(st, call, k).0;
    assert IndexOf(next, call.user, k) == LastN(Unique(xs), k);
  }

  lemma DeletingKeepsCover(st: State, user: string, allowed: set<string>, doomed: seq<string>)
    requires doomed != [] && Within(st, user, allowed + set s | s in doomed)
    ensures Within(WithoutThread(st, user, doomed[0]), user, allowed + set s | s in doomed[1..])
  {
    assert forall s :: s in doomed ==> s == doomed[0] || s in doomed[1..];
  }

  lemma ProceedKeepsCover(st: State, call: Call, k: nat)
    requires k >= 1 && CallOk(st, call, k)
    ensures var (next, rest) := Proceed(st, call, k);
      && (rest.Some? ==> rest.value.user == call.user && CallOk(next, rest.value, k))
      && (rest.None? ==> Within(next, call.user, Indexed(next, call.user, k)))
  {
    match call
    case Saving(user, session) =>
    case Indexing(_, _, _) => IndexingKeepsCover(st, call, k);
    case Evicting(user, doomed, _, _) =>
      if doomed != [] { DeletingKeepsCover(st, user, Indexed(st, user, k), doomed); }
    case Storing(_, _) =>
    case Forgetting(user, doomed) =>
      assert {} + (set s | s in doomed) == set s | s in doomed;
      if doomed != [] {
        DeletingKeepsCover(st, user, {}, doomed);
        assert {} + (set s | s in doomed[1..]) == set s | s in doomed[1..];
      }
    case Dropping(_) =>
  }

  lemma BusyStays(w: World, next: World, user: string)
    requires Busy(w, user)
    requires forall d :: d in w.calls && w.calls[d].user == user ==> d in next.calls && next.calls[d].user == user
    ensures Busy(next, user)
  {
    var d :| d in w.calls && w.calls[d].user == user;
    assert next.calls[d].user == user;
  }

  /** A call that begins while its user has no other one. */
  lemma BeginKeepsSound(w: World, c: nat, store: State, call: Call, k: nat)
    requires Sound(w, k) && c !in w.calls && !Busy(w, call.user) && CallOk(store, call, k)
    requires forall u :: u != call.user ==> SameFor(w.store, store, u)
    ensures Sound(World(store, w.calls[c := call]), k)
  {
    var next := World(store, w.calls[c := call]);
    assert next.calls[c].user == call.user;
    forall d | d in next.calls ensures CallOk(next.store, next.calls[d], k) {
      if d != c {
        assert w.calls[d].user != call.user;
        SameKeepsOk(w.store, store, w.calls[d], k);
      }
    }
    forall u | Busy(w, u) ensures Busy(next, u) { BusyStays(w, next, u); }
    forall u | u != call.user && !Busy(w, u) ensures Within(store, u, Indexed(store, u, k)) {
      SameKeepsOk(w.store, store, Storing(u, []), k);
    }
  }

  lemma AdvanceKeepsSound(w: World, c: nat, k: nat)
    requires k >= 1 && Sound(w, k) && c in w.calls
    ensures Sound(Advanced(w, c, k), k)
  {
    var call, next := w.calls[c], Advanced(w, c, k);
    ProceedKeepsCover(w.store, call, k);
    forall u | u != call.user ensures SameFor(w.store, next.store, u) { ProceedIsLocal(w.store, call, k, u); }
    forall d | d in next.calls ensures CallOk(next.store, next.calls[d], k) {
      if d != c {
        assert w.calls[d].user != call.user;
        SameKeepsOk(w.store, next.store, w.calls[d], k);
      }
    }
    forall u | u != call.user && Busy(w, u) ensures Busy(next, u) { BusyStays(w, next, u); }
    forall u | u != call.user && !Busy(w, u) ensures Within(next.store, u, Indexed(next.store, u, k)) {
      SameKeepsOk(w.store, next.store, Storing(u, []), k);
    }
    assert c in next.calls ==> next.calls[c].user == call.user;
  }

  lemma ActKeepsSound(w: World, a: Action, k: nat, m: nat)
    requires k >= 1 && Sound(w, k) && Orderly(w, a)
    ensures Sound(Act(w, a, k, m), k)
  {
    match a
    case Crash(c) => assert w.calls - {c} == w.calls;
    case BeginSave(c, user, session, messages) =>
      var store := w.store.(threads := w.store.threads[(user, session) := LastN(messages, m)]);
      if c !in w.calls { BeginKeepsSound(w, c, store, Saving(user, session), k); }
    case BeginUpdate(c, user, session, messages) =>
      var call := Indexing(user, IndexOf(w.store, user, k) + [session], Some(Snippet(session, Shorten(messages))));
      if c !in w.calls { BeginKeepsSound(w, c, w.store, call, k); }
    case BeginForget(c, user) =>
      if c !in w.calls { BeginKeepsSound(w, c, w.store, Forgetting(user, IndexOf(w.store, user, k)), k); }
    case Advance(c) => if c in w.calls { AdvanceKeepsSound(w, c, k); }
  }

  lemma {:induction false} PerformKeepsSound(w: World, actions: seq<Action>, k: nat, m: nat)
    requires k >= 1 && Sound(w, k) && AllOrderly(w, actions, k, m)
    ensures Sound(Perform(w, actions, k, m), k)
    decreases actions
  {
    if actions != [] {
      ActKeepsSound(w, actions[0], k, m);
      PerformKeepsSound(Act(w, actions[0], k, m), actions[1..], k, m);
    }
  }

  const NOTHING := World(EMPTY, map[])

  /** If calls of one user never overlap and none breaks off, then however those of different
      users interleave: a forgetting that takes its last step leaves no thread, index or record
      of its user, and so does one that runs at once while its user has no other call. */
  lemma ForgettingIsComplete(actions: seq<Action>, k: nat, m: nat, user: string)
    requires k >= 1 && AllOrderly(NOTHING, actions, k, m)
    ensures var w := Perform(NOTHING, actions, k, m);
      && (forall c :: c in w.calls && w.calls[c] == Dropping(user) ==> Absent(Act(w, Advance(c), k, m).store, user))
      && (!Busy(w, user) ==> Absent(ForgetUser(w.store, user, k), user))
  {
    PerformKeepsSound(NOTHING, actions, k, m);
    var w := Perform(NOTHING, actions, k, m);
    forall c | c in w.calls && w.calls[c] == Dropping(user) ensures Absent(Act(w, Advance(c), k, m).store, user) {
      assert CallOk(w.store, w.calls[c], k);
    }
  }

  // ---------------------------------------------------------------- overlap and crashes

  /** Exactly when a forgetting is complete, whatever happened before: when every stored thread
      of the user is in the index as it is loaded. */
  lemma ForgetCompleteIff(st: State, user: string, k: nat)
    ensures Absent(ForgetUser(st, user, k), user) <==> forall s :: (user, s) in st.threads ==> s in IndexOf(st, user, k)
  {
  }

  lemma PerformOne(w: World, a: Action, rest: seq<Action>, k: nat, m: nat)
    ensures Perform(w, [a] + rest, k, m) == Perform(Act(w, a, k, m), rest, k, m)
  {
    assert ([a] + rest)[1..] == rest;
  }

  function Two(st: State, x: Call, y: Call): World {
    World(st, map[0 := x, 1 := y])
  }

  lemma AdvanceFirst(st: State, x: Call, y: Call, rest: seq<Action>, k: nat, m: nat)
    requires Proceed(st, x, k).1.Some?
    ensures Perform(Two(st, x, y), [Advance(0)] + rest, k, m)
      == Perform(Two(Proceed(st, x, k).0, Proceed(st, x, k).1.value, y), rest, k, m)
  {
    PerformOne(Two(st, x, y), Advance(0), rest, k, m);
    assert map[0 := x, 1 := y][0 := Proceed(st, x, k).1.value] == map[0 := Proceed(st, x, k).1.value, 1 := y];
  }

  lemma AdvanceSecond(st: State, x: Call, y: Call, rest: seq<Action>, k: nat, m: nat)
    requires Proceed(st, y, k).1.Some?
    ensures Perform(Two(st, x, y), [Advance(1)] + rest, k, m)
      == Perform(Two(Proceed(st, y, k).0, x, Proceed(st, y, k).1.value), rest, k, m)
  {
    PerformOne(Two(st, x, y), Advance(1), rest, k, m);
    assert map[0 := x, 1 := y][1 := Proceed(st, y, k).1.value] == map[0 := x, 1 := Proceed(st, y, k).1.value];
  }

  /** The second of two calls ends, then the first. */
  lemma BothEnd(st: State, x: Call, y: Call, k: nat, m: nat)
    requires Proceed(st, y, k).1.None? && Proceed(Proceed(st, y, k).0, x, k).1.None?
    ensures Perform(Two(st, x, y), [Advance(1), Advance(0)], k, m) == World(Proceed(Proceed(st, y, k).0, x, k).0, map[])
  {
    var w := World(Proceed(st, y, k).0, map[0 := x]);
    assert [Advance(1), Advance(0)] == [Advance(1)] + [Advance(0)] && [Advance(0)] == [Advance(0)] + [];
    PerformOne(Two(st, x, y), Advance(1), [Advance(0)], k, m);
    assert map[0 := x, 1 := y] - {1} == map[0 := x];
    PerformOne(w, Advance(0), [], k, m);
    assert map[0 := x] - {0} == map[];
  }

  lemma UniqueOne(x: string)
    ensures Unique([x]) == [x]
  {
    assert [x][..0] == [] && Remove([], x) == [];
  }

  /** Storing an index of one session evicts nothing. */
  lemma StoresOne(st: State, user: string, x: string, note: Option<Snippet>, k: nat)
    requires k >= 1
    ensures Proceed(st, Indexing(user, [x], note), k)
      == (st.(indexes := st.indexes[user := [x]]), Some(Evicting(user, [], [x], note)))
  {
    UniqueOne(x);
    assert [x][..0] == [];
  }

  /** Two saves that both load the index before either stores it: the session stored first is
      lost from the index, and forgetting leaves its thread. */
  function Overlap(user: string, a: string, b: string): seq<Action> {
    var twice := [Advance(0)] + ([Advance(1)] + ([Advance(0)] + ([Advance(1)] + [Advance(1), Advance(0)])));
    [BeginSave(0, user, a, [])] + ([BeginSave(1, user, b, [])] + twice)
  }

  lemma OverlapLeaks(user: string, a: string, b: string, k: nat, m: nat)
    requires k >= 1 && a != b
    ensures var w := Perform(NOTHING, Overlap(user, a, b), k, m);
      w.calls == map[] && (user, a) in ForgetUser(w.store, user, k).threads
  {
    var st := State(map[(user, a) := [], (user, b) := []], map[], map[]);
    var end := [Advance(1), Advance(0)];
    var store := [Advance(0)] + ([Advance(1)] + end);
    var load := [Advance(0)] + ([Advance(1)] + store);
    OverlapBegins(user, a, b, load, k, m);
    assert [] + [a] == [a] && [] + [b] == [b];
    AdvanceFirst(st, Saving(user, a), Saving(user, b), [Advance(1)] + store, k, m);
    AdvanceSecond(st, Indexing(user, [a], None), Saving(user, b), store, k, m);
    OverlapEnds(st, user, a, b, k, m);
  }

  lemma OverlapBegins(user: string, a: string, b: string, rest: seq<Action>, k: nat, m: nat)
    ensures Perform(NOTHING, [BeginSave(0, user, a, [])] + ([BeginSave(1, user, b, [])] + rest), k, m)
      == Perform(Two(State(map[(user, a) := [], (user, b) := []], map[], map[]), Saving(user, a), Saving(user, b)),
           rest, k, m)
  {
    var one := Act(NOTHING, BeginSave(0, user, a, []), k, m);
    PerformOne(NOTHING, BeginSave(0, user, a, []), [BeginSave(1, user, b, [])] + rest, k, m);
    PerformOne(one, BeginSave(1, user, b, []), rest, k, m);
  }

  lemma OverlapEnds(st: State, user: string, a: string, b: string, k: nat, m: nat)
    requires k >= 1 && st.indexes == map[]
    ensures Perform(Two(st, Indexing(user, [a], None), Indexing(user, [b], None)),
              [Advance(0)] + ([Advance(1)] + [Advance(1), Advance(0)]), k, m)
      == World(st.(indexes := map[user := [b]]), map[])
  {
    var end := [Advance(1), Advance(0)];
    StoresOne(st, user, a, None, k);
    AdvanceFirst(st, Indexing(user, [a], None), Indexing(user, [b], None), [Advance(1)] + end, k, m);
    SecondStores(st.(indexes := st.indexes[user := [a]]), user, a, b, k, m);
  }

  lemma SecondStores(st: State, user: string, a: string, b: string, k: nat, m: nat)
    requires k >= 1 && st.indexes == map[user := [a]]
    ensures Perform(Two(st, Evicting(user, [], [a], None), Indexing(user, [b], None)),
              [Advance(1)] + [Advance(1), Advance(0)], k, m)
      == World(st.(indexes := map[user := [b]]), map[])
  {
    StoresOne(st, user, b, None, k);
    AdvanceSecond(st, Evicting(user, [], [a], None), Indexing(user, [b], None), [Advance(1), Advance(0)], k, m);
    assert map[user := [a]][user := [b]] == map[user := [b]];
    BothEnd(st.(indexes := map[user := [b]]), Evicting(user, [], [a], None), Evicting(user, [], [b], None), k, m);
  }

  /** So does a save that breaks off after writing its thread. */
  lemma CrashLeaks(user: string, session: string, k: nat, m: nat)
    ensures var w := Perform(NOTHING, [BeginSave(0, user, session, [])] + ([Crash(0)] + []), k, m);
      w.calls == map[] && (user, session) in ForgetUser(w.store, user, k).threads
  {
    PerformOne(NOTHING, BeginSave(0, user, session, []), [Crash(0)] + [], k, m);
    PerformOne(Act(NOTHING, BeginSave(0, user, session, []), k, m), Crash(0), [], k, m);
  }

  lemma AdvanceOnly(st: State, x: Call, rest: seq<Action>, k: nat, m: nat)
    requires Proceed(st, x, k).1.Some?
    ensures Perform(World(st, map[0 := x]), [Advance(0)] + rest, k, m)
      == Perform(World(Proceed(st, x, k).0, map[0 := Proceed(st, x, k).1.value]), rest, k, m)
  {
    PerformOne(World(st, map[0 := x]), Advance(0), rest, k, m);
    assert map[0 := x][0 := Proceed(st, x, k).1.value] == map[0 := Proceed(st, x, k).1.value];
  }

  /** An update that has loaded the record when its user is forgotten puts a record back. */
  function LateUpdate(user: string, a: string): seq<Action> {
    var forget := [BeginForget(1, user)] + ([Advance(1)] + ([Advance(1)] + [Advance(1), Advance(0)]));
    [BeginUpdate(0, user, a, [])] + ([Advance(0)] + ([Advance(0)] + forget))
  }

  lemma LateRecordReturns(user: string, a: string, k: nat, m: nat)
    requires k >= 1
    ensures var w := Perform(NOTHING, LateUpdate(user, a), k, m); w.calls == map[] && user in w.store.continuity
  {
    var note := Some(Snippet(a, Shorten([])));
    var indexed := State(map[], map[user := [a]], map[]);
    var record := Arrange([a], ContinuityOf(indexed, user, k) + [note.value]);
    var forget := [BeginForget(1, user)] + ([Advance(1)] + ([Advance(1)] + [Advance(1), Advance(0)]));
    PerformOne(NOTHING, BeginUpdate(0, user, a, []), [Advance(0)] + ([Advance(0)] + forget), k, m);
    assert [] + [a] == [a] && map[][0 := Indexing(user, [a], note)] == map[0 := Indexing(user, [a], note)];
    StoresOne(EMPTY, user, a, note, k);
    AdvanceOnly(EMPTY, Indexing(user, [a], note), [Advance(0)] + forget, k, m);
    assert EMPTY.(indexes := EMPTY.indexes[user := [a]]) == indexed;
    AdvanceOnly(indexed, Evicting(user, [], [a], note), forget, k, m);
    LateForgetting(indexed, user, a, record, k, m);
  }

  lemma LateForgetting(st: State, user: string, a: string, record: seq<Snippet>, k: nat, m: nat)
    requires k >= 1 && st == State(map[], map[user := [a]], map[])
    ensures var forget := [BeginForget(1, user)] + ([Advance(1)] + ([Advance(1)] + [Advance(1), Advance(0)]));
      var w := Perform(World(st, map[0 := Storing(user, record)]), forget, k, m);
      w.calls == map[] && user in w.store.continuity
  {
    var end, x := [Advance(1), Advance(0)], Storing(user, record);
    PerformOne(World(st, map[0 := x]), BeginForget(1, user), [Advance(1)] + ([Advance(1)] + end), k, m);
    assert map[0 := x][1 := Forgetting(user, [a])] == map[0 := x, 1 := Forgetting(user, [a])];
    AdvanceSecond(st, x, Forgetting(user, [a]), [Advance(1)] + end, k, m);
    var deleted := WithoutThread(st, user, a);
    assert [a][1..] == [];
    AdvanceSecond(deleted, x, Forgetting(user, []), end, k, m);
    BothEnd(deleted.(indexes := deleted.indexes - {user}), x, Dropping(user), k, m);
  }
}
