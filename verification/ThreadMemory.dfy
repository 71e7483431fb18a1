/** Per-user conversation memory (app/memory.py): threads, the bounded least-recently-used
    index of a user's sessions, and the continuity record; and what forgetting leaves behind. */
module ThreadMemory {
  import opened Outcomes
  import opened Text

  datatype Message = Message(role: string, content: string)

  /** One entry of the continuity record. */
  datatype Snippet = Snippet(session: string, messages: seq<Message>)

  /** The three record scopes of the encrypted store. */
  datatype State = State(threads: map<(string, string), seq<Message>>, indexes: map<string, seq<string>>,
    continuity: map<string, seq<Snippet>>)

  const EMPTY := State(map[], map[], map[])

  // ---------------------------------------------------------------- identifiers

  /** A UUID in its hyphenated form, in either case; the canonical form is lower-case. */
  predicate IsUuid(s: string) {
    && |s| == 36
    && forall i :: 0 <= i < 36 ==>
         if i in {8, 13, 18, 23} then s[i] == '-' else '0' <= s[i] <= '9' || 'a' <= Fold(s[i]) <= 'f'
  }

  predicate IsSession(s: string) {
    0 < |s| <= 256
  }

  predicate AllHex(s: string) {
    forall i :: 0 <= i < |s| ==> s[i] in "0123456789abcdefABCDEF"
  }

  /** Five groups of hexadecimal digits. */
  ghost predicate Grouped(s: string, a: string, b: string, c: string, d: string, e: string) {
    && s == a + "-" + b + "-" + c + "-" + d + "-" + e
    && |a| == 8 && |b| == 4 && |c| == 4 && |d| == 4 && |e| == 12
    && AllHex(a) && AllHex(b) && AllHex(c) && AllHex(d) && AllHex(e)
  }

  lemma HexDigit(c: char)
    ensures '0' <= c <= '9' || 'a' <= Fold(c) <= 'f' <==> c in "0123456789abcdefABCDEF"
  {
  }

  lemma UuidIff(s: string)
    ensures IsUuid(s) <==> exists a, b, c, d, e :: Grouped(s, a, b, c, d, e)
  {
    if IsUuid(s) {
      HexPart(s, 0, 8);
      HexPart(s, 9, 13);
      HexPart(s, 14, 18);
      HexPart(s, 19, 23);
      HexPart(s, 24, 36);
      Rejoined(s, 8, 13);
      Rejoined(s, 13, 18);
      Rejoined(s, 18, 23);
      Rejoined(s, 23, 36);
      assert s[..36] == s && s[..8] == s[0..8];
      assert Grouped(s, s[0..8], s[9..13], s[14..18], s[19..23], s[24..36]);
    }
    if a, b, c, d, e :| Grouped(s, a, b, c, d, e) {
      GroupedIsUuid(s, a, b, c, d, e);
    }
  }

  lemma Rejoined(s: string, i: nat, j: nat)
    requires i < j <= |s| && s[i] == '-'
    ensures s[..i] + "-" + s[i + 1..j] == s[..j]
  {
  }

  lemma HexPart(s: string, i: nat, j: nat)
    requires IsUuid(s) && i <= j <= 36
    requires (j <= 8 || 8 < i) && (j <= 13 || 13 < i) && (j <= 18 || 18 < i) && (j <= 23 || 23 < i)
    ensures AllHex(s[i..j])
  {
    forall n: nat | n < j - i ensures s[i..j][n] in "0123456789abcdefABCDEF" {
      assert i + n !in {8, 13, 18, 23};
      HexDigit(s[i + n]);
    }
  }

  lemma GroupedIsUuid(s: string, a: string, b: string, c: string, d: string, e: string)
    requires Grouped(s, a, b, c, d, e)
    ensures IsUuid(s)
  {
    forall i | 0 <= i < 36
      ensures if i in {8, 13, 18, 23} then s[i] == '-' else '0' <= s[i] <= '9' || 'a' <= Fold(s[i]) <= 'f'
    {
      if i !in {8, 13, 18, 23} {
        var x := if i < 8 then a[i] else if i < 13 then b[i - 9] else if i < 18 then c[i - 14]
                 else if i < 23 then d[i - 19] else e[i - 24];
        HexDigit(x);
      }
    }
  }

  /** The text that is hashed into a thread's record key. */
  function ThreadKey(user: string, session: string): string {
    user + ['\0'] + session
  }

  /** Pairs stand for these texts without loss. */
  lemma ThreadKeyInjective(u: string, s: string, v: string, t: string)
    requires IsUuid(u) && IsUuid(v) && ThreadKey(Lower(u), s) == ThreadKey(Lower(v), t)
    ensures Lower(u) == Lower(v) && s == t
  {
    assert Lower(u) == ThreadKey(Lower(u), s)[..36] && Lower(v) == ThreadKey(Lower(v), t)[..36];
    assert s == ThreadKey(Lower(u), s)[37..] && t == ThreadKey(Lower(v), t)[37..];
  }

  // ---------------------------------------------------------------- the index

  /** Python's `xs[-n:]` for n >= 1. */
  function LastN<T>(xs: seq<T>, n: nat): seq<T> {
    if |xs| <= n then xs else xs[|xs| - n..]
  }

  function Remove(xs: seq<string>, x: string): seq<string> {
    if xs == [] then [] else if xs[0] == x then xs[1..] else [xs[0]] + Remove(xs[1..], x)
  }

  function Touch(xs: seq<string>, x: string): seq<string> {
    Remove(xs, x) + [x]
  }

  function Unique(xs: seq<string>): seq<string> {
    if xs == [] then [] else Touch(Unique(xs[..|xs| - 1]), xs[|xs| - 1])
  }

  function IndexOf(st: State, user: string, k: nat): seq<string> {
    if user in st.indexes then LastN(st.indexes[user], k) else []
  }

  /** The stored index and the threads after a session was used. */
  function UseSession(st: State, user: string, session: string, k: nat): State {
    var unique := Unique(IndexOf(st, user, k) + [session]);
    var bounded := LastN(unique, k);
    var evicted := set s | s in unique[..|unique| - |bounded|] :: (user, s);
    st.(indexes := st.indexes[user := bounded], threads := st.threads - evicted)
  }

  function SaveThread(st: State, user: string, session: string, messages: seq<Message>, k: nat, m: nat): State {
    UseSession(st.(threads := st.threads[(user, session) := LastN(messages, m)]), user, session, k)
  }

  function Shorten(messages: seq<Message>): seq<Message> {
    var last := LastN(messages, 6);
    seq(|last|, i requires 0 <= i < |last| => last[i].(content :=
      last[i].content[..if |last[i].content| < 500 then |last[i].content| else 500]))
  }

  /** The last entry for a session, if any: what a dictionary built in order would hold. */
  function Latest(snippets: seq<Snippet>, session: string): Option<Snippet> {
    if snippets == [] then None
    else if snippets[|snippets| - 1].session == session then Some(snippets[|snippets| - 1])
    else Latest(snippets[..|snippets| - 1], session)
  }

  /** The snippets of the indexed sessions, in index order. */
  function Arrange(index: seq<string>, snippets: seq<Snippet>): seq<Snippet> {
    if index == [] then []
    else
      var found := Latest(snippets, index[0]);
      (if found.Some? then [found.value] else []) + Arrange(index[1..], snippets)
  }

  function ContinuityOf(st: State, user: string, k: nat): seq<Snippet> {
    if user in st.continuity then LastN(st.continuity[user], k) else []
  }

  function UpdateContinuity(st: State, user: string, session: string, messages: seq<Message>, k: nat): State {
    var next := UseSession(st, user, session, k);
    var snippets := ContinuityOf(st, user, k) + [Snippet(session, Shorten(messages))];
    next.(continuity := next.continuity[user := Arrange(next.indexes[user], snippets)])
  }

  function ForgetUser(st: State, user: string, k: nat): State {
    var gone := set s | s in IndexOf(st, user, k) :: (user, s);
    State(st.threads - gone, st.indexes - {user}, st.continuity - {user})
  }

  // ---------------------------------------------------------------- the memory, in place

  type Positive = n: nat | n >= 1 witness 1

  class ConversationMemory {
    const maxMessages: Positive
    const maxItems: Positive
    var threads: map<(string, string), seq<Message>>
    var indexes: map<string, seq<string>>
    var continuity: map<string, seq<Snippet>>

    ghost function Contents(): State
      reads this
    {
      State(threads, indexes, continuity)
    }

    constructor (maxMessages: nat, maxItems: nat)
      ensures this.maxMessages == (if maxMessages < 1 then 1 else maxMessages)
      ensures this.maxItems == (if maxItems < 1 then 1 else maxItems)
      ensures Contents() == EMPTY
    {
      this.maxMessages := if maxMessages < 1 then 1 else maxMessages;
      this.maxItems := if maxItems < 1 then 1 else maxItems;
      threads, indexes, continuity := map[], map[], map[];
    }

    method SaveThreadIndex(user: string, sessions: seq<string>) returns (bounded: seq<string>)
      modifies this
      ensures bounded == LastN(Unique(sessions), maxItems)
      ensures var unique := Unique(sessions);
        Contents() == State(old(threads) - (set s | s in unique[..|unique| - |bounded|] :: (user, s)),
          old(indexes)[user := bounded], old(continuity))
    {
      var unique: seq<string> := [];
      for i := 0 to |sessions|
        invariant unique == Unique(sessions[..i]) && Contents() == old(Contents())
      {
        assert sessions[..i + 1][..i] == sessions[..i];
        if sessions[i] in unique { unique := Remove(unique, sessions[i]); } else { RemoveAbsent(unique, sessions[i]); }
        unique := unique + [sessions[i]];
      }
      assert sessions[..|sessions|] == sessions;
      bounded := LastN(unique, maxItems);
      var evicted := unique[..|unique| - |bounded|];
      indexes := indexes[user := bounded];
      for i := 0 to |evicted|
        invariant indexes == old(indexes)[user := bounded] && continuity == old(continuity)
        invariant threads == old(threads) - (set s | s in evicted[..i] :: (user, s))
      {
        assert evicted[..i + 1] == evicted[..i] + [evicted[i]];
        threads := threads - {(user, evicted[i])};
      }
      assert evicted[..|evicted|] == evicted;
    }

    method SaveForUser(user: string, session: string, messages: seq<Message>) returns (ok: bool)
      modifies this
      ensures ok <==> IsUuid(user) && 0 < |session| <= 256
      ensures Contents() ==
        if ok then SaveThread(old(Contents()), Lower(user), session, messages, maxItems, maxMessages)
        else old(Contents())
    {
      if !IsUuid(user) || !IsSession(session) { return false; }
      var u := Lower(user);
      threads := threads[(u, session) := LastN(messages, maxMessages)];
      var index := TouchIndex(u, session);
      return true;
    }

    method LoadForUser(user: string, session: string) returns (messages: Option<seq<Message>>)
      ensures messages == if !IsUuid(user) || |session| == 0 || |session| > 256 then None
                          else Some(if (Lower(user), session) in threads then threads[(Lower(user), session)] else [])
      ensures messages.Some? ==> forall ops :: Contents() == Run(ops, maxItems, maxMessages) ==>
        messages.value == Expected(ops, Lower(user), session, maxItems, maxMessages)
    {
      if !IsUuid(user) || !IsSession(session) { return None; }
      forall ops | Contents() == Run(ops, maxItems, maxMessages) {
        StoredIsLastSaved(ops, maxItems, maxMessages, Lower(user), session);
      }
      var key := (Lower(user), session);
      return Some(if key in threads then threads[key] else []);
    }

    method UpdateUserContinuity(user: string, session: string, messages: seq<Message>) returns (ok: bool)
      modifies this
      ensures ok <==> IsUuid(user) && 0 < |session| <= 256
      ensures Contents() == if ok then UpdateContinuity(old(Contents()), Lower(user), session, messages, maxItems)
        else old(Contents())
    {
      if !IsUuid(user) || !IsSession(session) { return false; }
      RecordSnippet(Lower(user), session, messages);
      return true;
    }

    /** Loading the index, appending a session and storing it again. */
    method TouchIndex(u: string, session: string) returns (index: seq<string>)
      modifies this
      ensures Contents() == UseSession(old(Contents()), u, session, maxItems)
      ensures index == Contents().indexes[u] && continuity == old(continuity)
    {
      index := if u in indexes then LastN(indexes[u], maxItems) else [];
      index := SaveThreadIndex(u, index + [session]);
    }

    /** The same for a canonical user. */
    method RecordSnippet(u: string, session: string, messages: seq<Message>)
      modifies this
      ensures Contents() == UpdateContinuity(old(Contents()), u, session, messages, maxItems)
    {
      var index := TouchIndex(u, session);
      var previous := if u in continuity then LastN(continuity[u], maxItems) else [];
      var snippets := previous + [Snippet(session, Shorten(messages))];
      var kept := ArrangeSnippets(index, snippets);
      continuity := continuity[u := kept];
    }

    method ArrangeSnippets(index: seq<string>, snippets: seq<Snippet>) returns (kept: seq<Snippet>)
      ensures kept == Arrange(index, snippets)
    {
      kept := [];
      for i := 0 to |index|
        invariant kept + Arrange(index[i..], snippets) == Arrange(index, snippets)
      {
        assert index[i..][1..] == index[i + 1..];
        var found := Latest(snippets, index[i]);
        if found.Some? {
          assert kept + ([found.value] + Arrange(index[i + 1..], snippets)) == (kept + [found.value])
            + Arrange(index[i + 1..], snippets);
          kept := kept + [found.value];
        }
      }
    }

    method Forget(user: string) returns (ok: bool)
      modifies this
      ensures ok <==> IsUuid(user)
      ensures Contents() == if ok then ForgetUser(old(Contents()), Lower(user), maxItems) else old(Contents())
    {
      if !IsUuid(user) { return false; }
      var u := Lower(user);
      var index := if u in indexes then LastN(indexes[u], maxItems) else [];
      for i := 0 to |index|
        invariant indexes == old(indexes) && continuity == old(continuity)
        invariant threads == old(threads) - (set s | s in index[..i] :: (u, s))
      {
        assert index[..i + 1] == index[..i] + [index[i]];
        threads := threads - {(u, index[i])};
      }
      assert index[..|index|] == index;
      indexes := indexes - {u};
      continuity := continuity - {u};
      return true;
    }
  }

  // ---------------------------------------------------------------- runs

  datatype Op =
    | Save(user: string, session: string, messages: seq<Message>)
    | Update(user: string, session: string, messages: seq<Message>)
    | Forget(user: string)

  /** A completed operation of a validated caller, under the bound `k`. */
  function Step(st: State, op: Op, k: nat, m: nat): State {
    match op
    case Save(user, session, messages) => SaveThread(st, user, session, messages, k, m)
    case Update(user, session, messages) => UpdateContinuity(st, user, session, messages, k)
    case Forget(user) => ForgetUser(st, user, k)
  }

  function Run(ops: seq<Op>, k: nat, m: nat): State {
    if ops == [] then EMPTY else Step(Run(ops[..|ops| - 1], k, m), ops[|ops| - 1], k, m)
  }

  /** The sessions a user has used since it was last forgotten, oldest first. */
  function History(ops: seq<Op>, user: string): seq<string> {
    if ops == [] then []
    else
      var op, before := ops[|ops| - 1], History(ops[..|ops| - 1], user);
      if op.user != user then before else if op.Forget? then [] else before + [op.session]
  }

  /** Only the latest occurrence of each element, in order: the definition read off the list. */
  function LatestOnly(xs: seq<string>): seq<string> {
    if xs == [] then [] else if xs[0] in xs[1..] then LatestOnly(xs[1..]) else [xs[0]] + LatestOnly(xs[1..])
  }

  ghost predicate NoRepeats(xs: seq<string>) {
    forall i, j :: 0 <= i < j < |xs| ==> xs[i] != xs[j]
  }

  lemma {:induction false} RemoveAbsent(xs: seq<string>, x: string)
    requires x !in xs
    ensures Remove(xs, x) == xs
  {
    if xs != [] { RemoveAbsent(xs[1..], x); }
  }

  lemma {:induction false} LatestOnlyHolds(xs: seq<string>)
    ensures NoRepeats(LatestOnly(xs))
    ensures forall x :: x in LatestOnly(xs) <==> x in xs
  {
    if xs != [] {
      LatestOnlyHolds(xs[1..]);
      assert forall x :: x in xs <==> x == xs[0] || x in xs[1..];
    }
  }

  lemma {:induction false} LatestOnlyTouch(xs: seq<string>, x: string)
    ensures LatestOnly(xs + [x]) == Touch(LatestOnly(xs), x)
  {
    if xs == [] {
      assert [] + [x] == [x] && LatestOnly([x][1..]) == [];
    } else {
      var rest := xs[1..];
      assert (xs + [x])[1..] == rest + [x];
      LatestOnlyTouch(rest, x);
      LatestOnlyHolds(rest);
      if xs[0] !in rest && xs[0] == x {
        RemoveAbsent(LatestOnly(rest), x);
        assert LatestOnly(xs)[1..] == LatestOnly(rest);
      } else if xs[0] !in rest {
        assert ([xs[0]] + LatestOnly(rest))[1..] == LatestOnly(rest);
        assert xs[0] !in rest + [x];
      }
    }
  }

  lemma {:induction false} UniqueIsLatestOnly(xs: seq<string>)
    ensures Unique(xs) == LatestOnly(xs)
    decreases xs
  {
    if xs != [] {
      UniqueIsLatestOnly(xs[..|xs| - 1]);
      LatestOnlyTouch(xs[..|xs| - 1], xs[|xs| - 1]);
      assert xs[..|xs| - 1] + [xs[|xs| - 1]] == xs;
    }
  }

  lemma {:induction false} LatestOnlyFixed(xs: seq<string>)
    requires NoRepeats(xs)
    ensures LatestOnly(xs) == xs
  {
    if xs != [] { LatestOnlyFixed(xs[1..]); }
  }

  /** Truncating before a removal loses nothing that the truncation after it would keep. */
  lemma {:induction false} TruncateThenRemove(xs: seq<string>, x: string, k: nat)
    requires k >= 1 && NoRepeats(xs)
    ensures LastN(Remove(LastN(xs, k), x), k - 1) == LastN(Remove(xs, x), k - 1)
  {
    if |xs| > k {
      var rest := xs[1..];
      assert xs == [xs[0]] + rest;
      LastOfSuffix([xs[0]], rest, k);
      if xs[0] == x {
        LastOfLast(rest, k);
        assert x !in LastN(rest, k);
        RemoveAbsent(LastN(rest, k), x);
      } else {
        assert NoRepeats(rest);
        TruncateThenRemove(rest, x, k);
        RemoveSize(rest, x);
        LastOfSuffix([xs[0]], Remove(rest, x), k - 1);
      }
    }
  }

  lemma LastOfSuffix(pre: seq<string>, xs: seq<string>, n: nat)
    requires n <= |xs|
    ensures LastN(pre + xs, n) == LastN(xs, n)
  {
  }

  lemma LastOfLast(xs: seq<string>, k: nat)
    requires 1 <= k <= |xs|
    ensures LastN(LastN(xs, k), k - 1) == LastN(xs, k - 1)
    ensures forall y :: y in LastN(xs, k) ==> y in xs
  {
  }

  lemma {:induction false} RemoveSize(xs: seq<string>, x: string)
    ensures |xs| - 1 <= |Remove(xs, x)| <= |xs|
  {
    if xs != [] { RemoveSize(xs[1..], x); }
  }

  lemma LastAppended(xs: seq<string>, x: string, k: nat)
    requires k >= 1
    ensures LastN(xs + [x], k) == LastN(xs, k - 1) + [x]
  {
  }

  /** One use of a session, on an index that is already in order. */
  lemma UseKeepsLatest(history: seq<string>, x: string, k: nat)
    requires k >= 1
    ensures LastN(Unique(LastN(LatestOnly(history), k) + [x]), k) == LastN(LatestOnly(history + [x]), k)
  {
    var full := LatestOnly(history);
    LatestOnlyHolds(history);
    var index := LastN(full, k);
    UniqueIsLatestOnly(index + [x]);
    LatestOnlyTouch(index, x);
    LatestOnlyFixed(index);
    LatestOnlyTouch(history, x);
    TruncateThenRemove(full, x, k);
    LastAppended(Remove(index, x), x, k);
    LastAppended(Remove(full, x), x, k);
  }

  lemma StepUses(st: State, op: Op, k: nat, m: nat, history: seq<string>)
    requires k >= 1 && !op.Forget? && IndexOf(st, op.user, k) == LastN(LatestOnly(history), k)
    ensures var next := Step(st, op, k, m);
      op.user in next.indexes && next.indexes[op.user] == LastN(LatestOnly(history + [op.session]), k)
  {
    UseKeepsLatest(history, op.session, k);
  }

  /** Each step sees only the truncated index, and yet the stored index is the last `k` of the
      user's whole history with only the latest use of each session kept. */
  lemma {:induction false} IndexIsLru(ops: seq<Op>, k: nat, m: nat, user: string)
    requires k >= 1
    ensures var st := Run(ops, k, m);
      && IndexOf(st, user, k) == LastN(LatestOnly(History(ops, user)), k)
      && (user in st.indexes ==> |st.indexes[user]| <= k)
      && (user !in st.indexes ==> History(ops, user) == [])
    decreases ops
  {
    if ops != [] {
      var before, op := ops[..|ops| - 1], ops[|ops| - 1];
      IndexIsLru(before, k, m, user);
      if op.user == user && !op.Forget? { StepUses(Run(before, k, m), op, k, m, History(before, user)); }
    }
  }

  // ---------------------------------------------------------------- forgetting

  /** A stored thread belongs to an indexed session of its user, and the index fits. */
  ghost predicate Inv(st: State, k: nat) {
    && (forall u, s :: (u, s) in st.threads ==> u in st.indexes && s in st.indexes[u])
    && (forall u :: u in st.indexes ==> |st.indexes[u]| <= k && NoRepeats(st.indexes[u]))
  }

  lemma UseKeepsInv(st: State, user: string, session: string, k: nat)
    requires k >= 1 && (forall u :: u in st.indexes ==> |st.indexes[u]| <= k && NoRepeats(st.indexes[u]))
    requires forall u, s :: (u, s) in st.threads ==>
      (u, s) == (user, session) || (u in st.indexes && s in st.indexes[u])
    ensures Inv(UseSession(st, user, session, k), k)
  {
    var next := UseSession(st, user, session, k);
    var xs := IndexOf(st, user, k) + [session];
    UniqueIsLatestOnly(xs);
    LatestOnlyHolds(xs);
    BoundedPart(Unique(xs), k);
    assert xs[|xs| - 1] == session;
    forall u, s | (u, s) in next.threads ensures u in next.indexes && s in next.indexes[u] {
      if u == user { assert s in xs; }
    }
  }

  lemma BoundedPart(xs: seq<string>, k: nat)
    requires NoRepeats(xs)
    ensures var bounded := LastN(xs, k);
      |bounded| <= k && NoRepeats(bounded) && forall x :: x in xs ==> x in bounded || x in xs[..|xs| - |bounded|]
  {
    assert xs == xs[..|xs| - |LastN(xs, k)|] + LastN(xs, k);
  }

  lemma {:induction false} InvRun(ops: seq<Op>, k: nat, m: nat)
    requires k >= 1
    ensures Inv(Run(ops, k, m), k)
    decreases ops
  {
    if ops != [] {
      var st := Run(ops[..|ops| - 1], k, m);
      InvRun(ops[..|ops| - 1], k, m);
      match ops[|ops| - 1]
      case Save(user, session, messages) =>
        UseKeepsInv(st.(threads := st.threads[(user, session) := LastN(messages, m)]), user, session, k);
      case Update(user, session, _) => UseKeepsInv(st, user, session, k);
      case Forget(user) =>
    }
  }

  /** A thread just saved is the one that loads. */
  lemma SavedThreadLoads(st: State, user: string, session: string, messages: seq<Message>, k: nat, m: nat)
    requires k >= 1
    ensures var next := SaveThread(st, user, session, messages, k, m);
      (user, session) in next.threads && next.threads[(user, session)] == LastN(messages, m)
  {
    var xs := IndexOf(st, user, k) + [session];
    UniqueIsLatestOnly(xs);
    LatestOnlyHolds(xs);
    var unique := Unique(xs);
    assert unique[|unique| - 1] == session;
  }

  /** Nothing of a user is left in any scope. */
  ghost predicate Absent(st: State, user: string) {
    user !in st.indexes && user !in st.continuity && forall s :: (user, s) !in st.threads
  }

  /** Under a constant bound, forgetting is complete after every run. */
  lemma ForgetIsComplete(ops: seq<Op>, k: nat, m: nat, user: string)
    requires k >= 1
    ensures Absent(Run(ops + [Forget(user)], k, m), user)
  {
    InvRun(ops, k, m);
    assert (ops + [Forget(user)])[..|ops|] == ops;
  }

  /** An operation for one user leaves every record of every other user alone. */
  lemma OthersUntouched(st: State, op: Op, k: nat, m: nat, other: string, session: string)
    requires other != op.user
    ensures var next := Step(st, op, k, m);
      && ((other, session) in next.threads <==> (other, session) in st.threads)
      && ((other, session) in st.threads ==> next.threads[(other, session)] == st.threads[(other, session)])
      && (other in next.indexes <==> other in st.indexes)
        && (other in st.indexes ==> next.indexes[other] == st.indexes[other])
      && (other in next.continuity <==> other in st.continuity)
        && (other in st.continuity ==> next.continuity[other] == st.continuity[other])
  {
  }

  /** Forgetting under a bound `k'` other than the one the index was kept with: it is
      complete exactly when no thread is stored for the part of the index that the load cuts
      off; in particular always when the index still fits. */
  lemma ForgetUnderOtherBound(st: State, k: nat, k': nat, user: string)
    requires Inv(st, k)
    ensures var index := if user in st.indexes then st.indexes[user] else []; var cut := |index| - |LastN(index, k')|;
      Absent(ForgetUser(st, user, k'), user) <==> forall i :: 0 <= i < cut ==> (user, index[i]) !in st.threads
  {
    var index := if user in st.indexes then st.indexes[user] else [];
    var cut := |index| - |LastN(index, k')|;
    var next := ForgetUser(st, user, k');
    assert index == index[..cut] + LastN(index, k');
    forall i | 0 <= i < cut ensures index[i] !in LastN(index, k') {}
    assert forall i :: 0 <= i < cut && (user, index[i]) in st.threads ==> (user, index[i]) in next.threads;
  }

  lemma TwoSaves(user: string, a: string, b: string)
    requires a != b
    ensures var st := Run([Save(user, a, []), Save(user, b, [])], 2, 1000);
      st.indexes == map[user := [a, b]] && (user, a) in st.threads
  {
    var first, ops := [Save(user, a, [])], [Save(user, a, []), Save(user, b, [])];
    assert first[..0] == [] && ops[..1] == first;
    assert Run(first[..0], 2, 1000) == EMPTY;
    var one := SaveThread(EMPTY, user, a, [], 2, 1000);
    assert Run(first, 2, 1000) == Step(EMPTY, first[0], 2, 1000) == one;
    assert [a][..0] == [] && IndexOf(EMPTY, user, 2) + [a] == [a];
    assert Unique([a]) == Touch(Unique([]), a) == [a];
    assert one.indexes == map[user := [a]] && (user, a) in one.threads;
    assert Run(ops, 2, 1000) == SaveThread(one, user, b, [], 2, 1000);
    assert [a] + [b] == [a, b] && [a, b][..1] == [a];
    RemoveAbsent([a], b);
    assert Unique([a, b]) == Touch(Unique([a]), b) == [a, b];
  }

  /** So lowering the bound between a save and the forgetting can leave a thread behind. */
  lemma ShrunkBoundLeaks(user: string, a: string, b: string)
    requires a != b
    ensures var st := Run([Save(user, a, []), Save(user, b, [])], 2, 1000);
      Absent(ForgetUser(st, user, 2), user) && (user, a) in ForgetUser(st, user, 1).threads
  {
    var ops := [Save(user, a, []), Save(user, b, [])];
    TwoSaves(user, a, b);
    InvRun(ops, 2, 1000);
    assert LastN([a, b], 1) == [b];
  }

  /** What the user last saved under a session since it was last forgotten, cut to `m`. */
  function LastSaved(ops: seq<Op>, user: string, session: string, m: nat): Option<seq<Message>> {
    if ops == [] then None
    else
      var earlier, op := LastSaved(ops[..|ops| - 1], user, session, m), ops[|ops| - 1];
      if op.user != user then earlier
      else if op.Forget? then None
      else if op.Save? && op.session == session then Some(LastN(op.messages, m))
      else earlier
  }

  /** A session stays kept from a save on as long as it is among the last `k` of the history. */
  predicate Kept(ops: seq<Op>, user: string, session: string, k: nat) {
    ops != [] &&
    var op := ops[|ops| - 1];
    if op.user != user then Kept(ops[..|ops| - 1], user, session, k)
    else if op.Forget? then false
    else if op.Save? && op.session == session then true
    else Kept(ops[..|ops| - 1], user, session, k) && session in LastN(LatestOnly(History(ops, user)), k)
  }

  /** What a load should return after a run: the last save of a kept session, or nothing. */
  function Expected(ops: seq<Op>, user: string, session: string, k: nat, m: nat): seq<Message> {
    var saved := LastSaved(ops, user, session, m);
    if Kept(ops, user, session, k) && saved.Some? then saved.value else []
  }

  /** Using a session removes exactly the threads whose sessions drop out of the index. */
  lemma UseEvictsExactly(st: State, user: string, used: string, k: nat, u: string, s: string)
    requires k >= 1 && (forall v :: v in st.indexes ==> |st.indexes[v]| <= k && NoRepeats(st.indexes[v]))
    requires (u, s) in st.threads ==> (u, s) == (user, used) || (u in st.indexes && s in st.indexes[u])
    ensures var next := UseSession(st, user, used, k);
      ((u, s) in next.threads <==> (u, s) in st.threads && (u == user ==> s in next.indexes[user]))
  {
    var xs := IndexOf(st, user, k) + [used];
    UniqueIsLatestOnly(xs);
    LatestOnlyHolds(xs);
    BoundedPart(Unique(xs), k);
    SplitApart(Unique(xs), k);
    assert xs[|xs| - 1] == used;
    if u == user && (u, s) in st.threads { assert s in xs; }
  }

  lemma SplitApart(xs: seq<string>, k: nat)
    requires NoRepeats(xs)
    ensures forall x :: x in LastN(xs, k) ==> x !in xs[..|xs| - |LastN(xs, k)|]
  {
  }

  /** What one operation of a user does to one of its threads. */
  lemma StepEvictsExactly(st: State, op: Op, k: nat, m: nat, session: string)
    requires k >= 1 && Inv(st, k)
    ensures var next := Step(st, op, k, m); var thread := (op.user, session);
      if op.Forget? then thread !in next.threads
      else if op.Save? && op.session == session then
        thread in next.threads && next.threads[thread] == LastN(op.messages, m)
      else
        && (thread in next.threads <==> thread in st.threads && session in IndexOf(next, op.user, k))
        && (thread in next.threads ==> next.threads[thread] == st.threads[thread])
  {
    match op
    case Save(u, s, messages) =>
      UseEvictsExactly(st.(threads := st.threads[(u, s) := LastN(messages, m)]), u, s, k, u, session);
      SavedThreadLoads(st, u, s, messages, k, m);
      UseKeepsInv(st.(threads := st.threads[(u, s) := LastN(messages, m)]), u, s, k);
    case Update(u, s, _) =>
      UseEvictsExactly(st, u, s, k, u, session);
      UseKeepsInv(st, u, s, k);
    case Forget(u) =>
  }

  /** A thread is stored exactly as long as its session is kept, and always as last saved. */
  lemma {:induction false} StoredIsLastSaved(ops: seq<Op>, k: nat, m: nat, user: string, session: string)
    requires k >= 1
    ensures var st := Run(ops, k, m);
      && ((user, session) in st.threads <==> Kept(ops, user, session, k))
      && (Kept(ops, user, session, k) ==> LastSaved(ops, user, session, m) == Some(st.threads[(user, session)]))
    decreases ops
  {
    if ops != [] {
      var before, op := ops[..|ops| - 1], ops[|ops| - 1];
      StoredIsLastSaved(before, k, m, user, session);
      if op.user == user {
        InvRun(before, k, m);
        IndexIsLru(ops, k, m, user);
        StepEvictsExactly(Run(before, k, m), op, k, m, session);
      } else {
        OthersUntouched(Run(before, k, m), op, k, m, user, session);
      }
    }
  }

  // ---------------------------------------------------------------- the continuity record

  function Sessions(snippets: seq<Snippet>): seq<string> {
    seq(|snippets|, i requires 0 <= i < |snippets| => snippets[i].session)
  }

  /** The sessions of an index for which there is a snippet. */
  function Present(index: seq<string>, snippets: seq<Snippet>): seq<string> {
    if index == [] then []
    else (if index[0] in Sessions(snippets) then [index[0]] else []) + Present(index[1..], snippets)
  }

  lemma {:induction false} LatestIff(snippets: seq<Snippet>, session: string)
    ensures Latest(snippets, session).Some? <==> session in Sessions(snippets)
    ensures Latest(snippets, session).Some? ==> Latest(snippets, session).value.session == session
    decreases snippets
  {
    if snippets != [] {
      var n := |snippets| - 1;
      LatestIff(snippets[..n], session);
      assert Sessions(snippets) == Sessions(snippets[..n]) + [snippets[n].session];
    }
  }

  lemma SessionsAppend(a: seq<Snippet>, b: seq<Snippet>)
    ensures Sessions(a + b) == Sessions(a) + Sessions(b)
  {
  }

  /** The record lists sessions in index order. */
  lemma {:induction false} RecordFollowsIndex(index: seq<string>, snippets: seq<Snippet>)
    ensures Sessions(Arrange(index, snippets)) == Present(index, snippets)
  {
    if index != [] {
      LatestIff(snippets, index[0]);
      RecordFollowsIndex(index[1..], snippets);
      var found := Latest(snippets, index[0]);
      SessionsAppend(if found.Some? then [found.value] else [], Arrange(index[1..], snippets));
    }
  }

  /** And each of them with its latest snippet. */
  lemma {:induction false} RecordIsLatest(index: seq<string>, snippets: seq<Snippet>, e: Snippet)
    requires e in Arrange(index, snippets)
    ensures Latest(snippets, e.session) == Some(e)
  {
    LatestIff(snippets, index[0]);
    if e in Arrange(index[1..], snippets) { RecordIsLatest(index[1..], snippets, e); }
  }

  lemma {:induction false} ArrangeAppend(a: seq<string>, x: string, snippets: seq<Snippet>)
    ensures Arrange(a + [x], snippets) == Arrange(a, snippets) + Arrange([x], snippets)
  {
    if a == [] {
      assert [] + [x] == [x];
    } else {
      assert (a + [x])[1..] == a[1..] + [x];
      ArrangeAppend(a[1..], x, snippets);
      var found := Latest(snippets, a[0]);
      var head := if found.Some? then [found.value] else [];
      assert Arrange(a, snippets) == head + Arrange(a[1..], snippets);
      assert Arrange(a + [x], snippets) == head + (Arrange(a[1..], snippets) + Arrange([x], snippets));
    }
  }

  lemma LastArranged(index: seq<string>, snippets: seq<Snippet>, last: Snippet)
    requires index != [] && index[|index| - 1] == last.session
    ensures var r := Arrange(index, snippets + [last]); r != [] && r[|r| - 1] == last
  {
    var n := |index| - 1;
    assert index == index[..n] + [last.session];
    ArrangeAppend(index[..n], last.session, snippets + [last]);
    assert Arrange([last.session], snippets + [last]) == [last] + Arrange([], snippets + [last]);
  }

  lemma UsedIsLast(st: State, user: string, session: string, k: nat)
    requires k >= 1
    ensures var index := UseSession(st, user, session, k).indexes[user]; index != [] && index[|index| - 1] == session
  {
    var xs := IndexOf(st, user, k);
    assert (xs + [session])[..|xs|] == xs;
    assert Unique(xs + [session]) == Remove(Unique(xs), session) + [session];
    LastAppended(Remove(Unique(xs), session), session, k);
  }

  /** The session just used comes last in its user's record, with its last messages shortened. */
  lemma CurrentSnippetIsLast(st: State, user: string, session: string, messages: seq<Message>, k: nat)
    requires k >= 1
    ensures var record := UpdateContinuity(st, user, session, messages, k).continuity[user];
      record != [] && record[|record| - 1] == Snippet(session, Shorten(messages))
  {
    UsedIsLast(st, user, session, k);
    LastArranged(UseSession(st, user, session, k).indexes[user], ContinuityOf(st, user, k),
      Snippet(session, Shorten(messages)));
  }

  /** What the user last put into the record under a session since it was last forgotten. */
  function LastUpdate(ops: seq<Op>, user: string, session: string): Option<seq<Message>> {
    if ops == [] then None
    else
      var earlier, op := LastUpdate(ops[..|ops| - 1], user, session), ops[|ops| - 1];
      if op.user != user then earlier
      else if op.Forget? then None
      else if op.Update? && op.session == session then Some(Shorten(op.messages))
      else earlier
  }

  /** A session is listed from an update on; a later update of another session drops it if it
      is then no longer among the last `k` of the history. A save in between drops nothing. */
  predicate Listed(ops: seq<Op>, user: string, session: string, k: nat) {
    ops != [] &&
    var op := ops[|ops| - 1];
    if op.user != user || op.Save? then Listed(ops[..|ops| - 1], user, session, k)
    else if op.Forget? then false
    else if op.session == session then true
    else Listed(ops[..|ops| - 1], user, session, k) && session in LastN(LatestOnly(History(ops, user)), k)
  }

  function ListedOf(index: seq<string>, ops: seq<Op>, user: string, k: nat): seq<string> {
    if index == [] then []
    else (if Listed(ops, user, index[0], k) then [index[0]] else []) + ListedOf(index[1..], ops, user, k)
  }

  /** The listed sessions, in the order of the history as it was at the last update. */
  function RecordOrder(ops: seq<Op>, user: string, k: nat): seq<string> {
    if ops == [] then []
    else
      var op := ops[|ops| - 1];
      if op.user != user || op.Save? then RecordOrder(ops[..|ops| - 1], user, k)
      else if op.Forget? then []
      else ListedOf(LastN(LatestOnly(History(ops, user)), k), ops, user, k)
  }

  function RecordIn(st: State, user: string): seq<Snippet> {
    if user in st.continuity then st.continuity[user] else []
  }

  lemma {:induction false} PresentIsListed(index: seq<string>, snippets: seq<Snippet>, ops: seq<Op>, user: string,
      k: nat)
    requires forall x :: x in index ==> (x in Sessions(snippets) <==> Listed(ops, user, x, k))
    ensures Present(index, snippets) == ListedOf(index, ops, user, k) && |Present(index, snippets)| <= |index|
    ensures forall x :: x in ListedOf(index, ops, user, k) <==> x in index && Listed(ops, user, x, k)
  {
    if index != [] {
      assert index[0] in index && forall x :: x in index[1..] ==> x in index;
      PresentIsListed(index[1..], snippets, ops, user, k);
    }
  }

  lemma LatestAppended(snippets: seq<Snippet>, last: Snippet, session: string)
    ensures Latest(snippets + [last], session) == if last.session == session then Some(last)
      else Latest(snippets, session)
    ensures session in Sessions(snippets + [last]) <==> session in Sessions(snippets) || session == last.session
  {
    assert (snippets + [last])[..|snippets|] == snippets;
    SessionsAppend(snippets, [last]);
    assert Sessions([last]) == [last.session];
  }

  lemma {:induction false} LatestIsEntry(snippets: seq<Snippet>, session: string)
    ensures Latest(snippets, session).Some? ==> Latest(snippets, session).value in snippets
    decreases snippets
  {
    if snippets != [] { LatestIsEntry(snippets[..|snippets| - 1], session); }
  }

  /** The stored record is in order, lists what it should, and holds last updates. */
  ghost predicate RecordOk(st: State, ops: seq<Op>, user: string, k: nat) {
    var record := RecordIn(st, user);
    && |record| <= k
    && Sessions(record) == RecordOrder(ops, user, k)
    && (forall x :: x in Sessions(record) <==> Listed(ops, user, x, k))
    && (forall e :: e in record ==> LastUpdate(ops, user, e.session) == Some(e.messages))
  }

  lemma UpdateKeepsRecord(before: seq<Op>, op: Op, k: nat, m: nat)
    requires k >= 1 && op.Update? && RecordOk(Run(before, k, m), before, op.user, k)
    ensures RecordOk(Run(before + [op], k, m), before + [op], op.user, k)
  {
    var st, ops, user := Run(before, k, m), before + [op], op.user;
    assert ops[..|before|] == before;
    var was := RecordIn(st, user);
    var last := Snippet(op.session, Shorten(op.messages));
    IndexIsLru(before, k, m, user);
    StepUses(st, op, k, m, History(before, user));
    var index := LastN(LatestOnly(History(ops, user)), k);
    assert UseSession(st, user, op.session, k).indexes[user] == index && ContinuityOf(st, user, k) == was;
    UsedIsLast(st, user, op.session, k);
    assert RecordIn(Run(ops, k, m), user) == Arrange(index, was + [last]);
    forall x ensures x in Sessions(was + [last]) <==> x in Sessions(was) || x == op.session {
      LatestAppended(was, last, x);
    }
    assert op.session in index;
    RecordFollowsIndex(index, was + [last]);
    PresentIsListed(index, was + [last], ops, user, k);
    forall e | e in Arrange(index, was + [last]) ensures LastUpdate(ops, user, e.session) == Some(e.messages) {
      RecordIsLatest(index, was + [last], e);
      LatestAppended(was, last, e.session);
      LatestIsEntry(was, e.session);
    }
  }

  /** The other operations leave the record alone, or empty it. */
  lemma OthersKeepRecord(before: seq<Op>, op: Op, k: nat, m: nat, user: string)
    requires RecordOk(Run(before, k, m), before, user, k) && (op.user == user ==> !op.Update?)
    ensures RecordOk(Run(before + [op], k, m), before + [op], user, k)
  {
    var ops := before + [op];
    assert ops[..|before|] == before;
    if op.user == user && op.Forget? {
      assert RecordIn(Run(ops, k, m), user) == [];
    } else {
      assert RecordIn(Run(ops, k, m), user) == RecordIn(Run(before, k, m), user);
      assert RecordOrder(ops, user, k) == RecordOrder(before, user, k);
      assert forall x :: Listed(ops, user, x, k) <==> Listed(before, user, x, k);
      assert forall x :: LastUpdate(ops, user, x) == LastUpdate(before, user, x);
    }
  }

  /** What the continuity record of a user holds after any run: exactly the listed sessions, in
      the order of the history, each with the shortened messages of its last update. */
  lemma {:induction false} RecordIsLastUpdates(ops: seq<Op>, k: nat, m: nat, user: string)
    requires k >= 1
    ensures RecordOk(Run(ops, k, m), ops, user, k)
    decreases ops
  {
    if ops != [] {
      var before, op := ops[..|ops| - 1], ops[|ops| - 1];
      RecordIsLastUpdates(before, k, m, user);
      assert before + [op] == ops;
      if op.user == user && op.Update? {
        UpdateKeepsRecord(before, op, k, m);
      } else {
        OthersKeepRecord(before, op, k, m, user);
      }
    }
  }

  // ---------------------------------------------------------------- what is kept of a message

  /** The end of a list, as long as it may be. */
  ghost predicate IsTail(tail: seq<Message>, xs: seq<Message>, most: nat) {
    |tail| == (if |xs| < most then |xs| else most) && exists front :: front + tail == xs
  }

  /** Of each message its role, and at most the first `most` letters of what it says. */
  ghost predicate Cut(short: seq<Message>, messages: seq<Message>, most: nat) {
    && |short| == |messages|
    && forall i :: 0 <= i < |short| ==>
      && short[i].role == messages[i].role
      && |short[i].content| == (if |messages[i].content| < most then |messages[i].content| else most)
      && short[i].content <= messages[i].content
  }

  ghost predicate IsSnippet(short: seq<Message>, messages: seq<Message>) {
    exists last :: IsTail(last, messages, 6) && Cut(short, last, 500)
  }

  lemma LastNIsTail(xs: seq<Message>, n: nat)
    ensures IsTail(LastN(xs, n), xs, n)
  {
    assert xs[..|xs| - |LastN(xs, n)|] + LastN(xs, n) == xs;
  }

  /** A snippet keeps the last six messages, and 500 letters of each. */
  lemma SnippetIsShort(messages: seq<Message>)
    ensures IsSnippet(Shorten(messages), messages)
  {
    LastNIsTail(messages, 6);
    assert Cut(Shorten(messages), LastN(messages, 6), 500);
  }

  /** What the memory holds is cut from what it was given: a stored thread is the end of the
      messages of some save of that thread, a stored snippet the shortened end of the messages
      of some update of that session. */
  lemma KeptMessagesWereGiven(ops: seq<Op>, k: nat, m: nat, user: string, session: string)
    requires k >= 1
    ensures var st := Run(ops, k, m); (user, session) in st.threads ==>
      exists op ::
        && op in ops && op.Save? && op.user == user && op.session == session
        && IsTail(st.threads[(user, session)], op.messages, m)
    ensures forall e :: e in RecordIn(Run(ops, k, m), user) ==>
      exists op ::
        && op in ops && op.Update? && op.user == user && op.session == e.session
        && IsSnippet(e.messages, op.messages)
  {
    StoredIsLastSaved(ops, k, m, user, session);
    RecordIsLastUpdates(ops, k, m, user);
    if (user, session) in Run(ops, k, m).threads {
      var op := SaveOf(ops, user, session, m);
      LastNIsTail(op.messages, m);
    }
    forall e | e in RecordIn(Run(ops, k, m), user)
      ensures exists op ::
        && op in ops && op.Update? && op.user == user && op.session == e.session
        && IsSnippet(e.messages, op.messages)
    {
      var op := UpdateOf(ops, user, e.session);
      SnippetIsShort(op.messages);
    }
  }

  lemma {:induction false} SaveOf(ops: seq<Op>, user: string, session: string, m: nat) returns (op: Op)
    requires LastSaved(ops, user, session, m).Some?
    ensures op in ops && op.Save? && op.user == user && op.session == session
    ensures LastSaved(ops, user, session, m) == Some(LastN(op.messages, m))
    decreases ops
  {
    op := ops[|ops| - 1];
    if !(op.user == user && op.Save? && op.session == session) { op := SaveOf(ops[..|ops| - 1], user, session, m); }
  }

  lemma {:induction false} UpdateOf(ops: seq<Op>, user: string, session: string) returns (op: Op)
    requires LastUpdate(ops, user, session).Some?
    ensures op in ops && op.Update? && op.user == user && op.session == session
    ensures LastUpdate(ops, user, session) == Some(Shorten(op.messages))
    decreases ops
  {
    op := ops[|ops| - 1];
    if !(op.user == user && op.Update? && op.session == session) { op := UpdateOf(ops[..|ops| - 1], user, session); }
  }
}
