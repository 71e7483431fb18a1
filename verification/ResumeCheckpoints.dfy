/** Resume checkpoints (sara_public.py): sealed states against the stored head, in threads of
    several atomic database calls. */
module ResumeCheckpoints {
  import opened Outcomes

  /** Stored text: the canonical form of a state, which parses back to it, or anything else. */
  datatype Raw = Canonical(state: string) | Malformed(text: string)

  datatype StateHash = StateHash(raw: Raw)

  /** AES-GCM under the service key: opens only with the associated data it was sealed with. */
  datatype Cipher = Cipher(nonce: nat, raw: Raw, aad: string) | Junk

  /** HMAC-SHA256 over the associated data, the state's hash, the nonce and the ciphertext, as
      an injective constructor. */
  datatype Signature = Hmac(aad: string, hash: StateHash, nonce: nat, cipher: Cipher) | Forged

  /** A token: no decodable text; one with a field of a type or form that opening fails on
      with an error of another kind; or an envelope. */
  datatype Token =
    | Undecodable
    | Misshapen
    | Envelope(
        sequence: int, schema: string, policy: string, expires: int,
        hash: StateHash, nonce: nat, cipher: Cipher, signature: Signature)

  datatype Violation =
    | TooLarge | BadEncoding | Unhandled | SchemaMismatch | PolicyMismatch | Expired
    | BadSignature | BadCipher | HashMismatch | NotAnObject | SequenceChanged | HeadAbsent | Stale

  datatype Opened = Opened(sequence: int, state: string, hash: StateHash)

  // ---------------------------------------------------------------- the associated data

  function Digits(n: nat): (s: string)
    ensures s != [] && forall i :: 0 <= i < |s| ==> '0' <= s[i] <= '9'
  {
    var last := [(n % 10) as char + '0'];
    if n < 10 then last else Digits(n / 10) + last
  }

  /** An integer as it is formatted into text. */
  function Decimal(n: int): (s: string)
    ensures '|' !in s && s != [] && (s[0] == '-' <==> n < 0)
  {
    if n < 0 then "-" + Digits(-n) else Digits(n)
  }

  lemma {:induction false} DigitsInjective(m: nat, n: nat)
    requires Digits(m) == Digits(n)
    ensures m == n
  {
    var a, b := Digits(m), Digits(n);
    assert a[|a| - 1] == (m % 10) as char + '0' && b[|b| - 1] == (n % 10) as char + '0';
    assert m % 10 == n % 10;
    if m >= 10 && n >= 10 {
      assert a[..|a| - 1] == Digits(m / 10) && b[..|b| - 1] == Digits(n / 10);
      DigitsInjective(m / 10, n / 10);
    }
  }

  lemma DecimalInjective(m: int, n: int)
    requires Decimal(m) == Decimal(n)
    ensures m == n
  {
    if m < 0 && n < 0 {
      assert Decimal(m)[1..] == Digits(-m) && Decimal(n)[1..] == Digits(-n);
      DigitsInjective(-m, -n);
    } else if m >= 0 && n >= 0 {
      DigitsInjective(m, n);
    }
  }

  /** An account and a workflow as the associated data spells them. */
  function Place(account: string, workflow: string): string {
    account + "|" + workflow
  }

  /** Two texts that end in a part without separator agree only part by part. */
  lemma SplitAtLast(x: string, d: string, y: string, f: string)
    requires '|' !in d && '|' !in f
    ensures x + "|" + d == y + "|" + f <==> x == y && d == f
  {
    var s, t := x + "|" + d, y + "|" + f;
    assert s[|x|] == '|' && forall i :: |x| < i < |s| ==> s[i] == d[i - |x| - 1];
    assert t[|y|] == '|' && forall i :: |y| < i < |t| ==> t[i] == f[i - |y| - 1];
    if s == t {
      assert |x| == |y|;
      assert s[..|x|] == x && t[..|y|] == y && s[|x| + 1..] == d && t[|y| + 1..] == f;
    }
  }

  lemma SameEnd(x: string, y: string, end: string)
    ensures x + end == y + end <==> x == y
  {
    if x + end == y + end {
      assert (x + end)[..|x|] == x && (y + end)[..|y|] == y;
    }
  }

  /** Separated accounts keep places apart. */
  lemma NoSeparatorNoCollision(account: string, workflow: string, account': string, workflow': string)
    requires '|' !in account && '|' !in account'
    ensures Place(account, workflow) == Place(account', workflow') <==> account == account' && workflow == workflow'
  {
    var s, t := Place(account, workflow), Place(account', workflow');
    assert s[|account|] == '|' && forall i :: 0 <= i < |account| ==> s[i] == account[i];
    assert t[|account'|] == '|' && forall i :: 0 <= i < |account'| ==> t[i] == account'[i];
    if s == t {
      assert |account| == |account'|;
      assert s[..|account|] == account && t[..|account'|] == account';
      assert s[|account| + 1..] == workflow && t[|account'| + 1..] == workflow';
    }
  }

  // ---------------------------------------------------------------- sealing and opening

  datatype ResumeVector = ResumeVector(schema: string, policy: string, ttl: nat, maxBytes: nat) {

    /** The associated data that binds a token to its place, joined with a separator. */
    function AadText(account: string, workflow: string, sequence: int, expires: int): string {
      Place(account, workflow) + "|" + Decimal(sequence) + ("|" + schema + "|" + policy) + "|" + Decimal(expires)
    }

    /** `size` is the length of the canonical state in bytes. */
    function Seal(
      account: string, workflow: string, sequence: int, state: string, size: nat, now: int, nonce: nat
    ): Result<(Token, StateHash), Violation> {
      if size > maxBytes then Err(TooLarge)
      else
        var raw := Canonical(state);
        var hash := StateHash(raw);
        var aad := AadText(account, workflow, sequence, now + ttl);
        var cipher := Cipher(nonce, raw, aad);
        var signature := Hmac(aad, hash, nonce, cipher);
        Ok((Envelope(sequence, schema, policy, now + ttl, hash, nonce, cipher, signature), hash))
    }

    function Open(account: string, workflow: string, token: Token, now: int): Result<Opened, Violation> {
      if token.Undecodable? then Err(BadEncoding)
      else if token.Misshapen? then Err(Unhandled)
      else if token.schema != schema then Err(SchemaMismatch)
      else if token.policy != policy then Err(PolicyMismatch)
      else if now >= token.expires then Err(Expired)
      else
        var aad := AadText(account, workflow, token.sequence, token.expires);
        if token.signature != Hmac(aad, token.hash, token.nonce, token.cipher) then Err(BadSignature)
        else if token.cipher.Junk? || token.cipher.nonce != token.nonce || token.cipher.aad != aad then Err(BadCipher)
        else if StateHash(token.cipher.raw) != token.hash then Err(HashMismatch)
        else if token.cipher.raw.Malformed? then Err(NotAnObject)
        else Ok(Opened(token.sequence, token.cipher.raw.state, token.hash))
    }
  }

  /** What the associated data pins down: the sequence, the expiry, and the place as spelled. */
  lemma AadBinds(v: ResumeVector, account: string, workflow: string, sequence: int, expires: int,
                 account': string, workflow': string, sequence': int, expires': int)
    ensures v.AadText(account, workflow, sequence, expires) == v.AadText(account', workflow', sequence', expires') <==>
      Place(account, workflow) == Place(account', workflow') && sequence == sequence' && expires == expires'
  {
    var end := "|" + v.schema + "|" + v.policy;
    var x, y := Place(account, workflow) + "|" + Decimal(sequence),
      Place(account', workflow') + "|" + Decimal(sequence');
    SplitAtLast(x + end, Decimal(expires), y + end, Decimal(expires'));
    SameEnd(x, y, end);
    SplitAtLast(Place(account, workflow), Decimal(sequence), Place(account', workflow'), Decimal(sequence'));
    if Decimal(sequence) == Decimal(sequence') { DecimalInjective(sequence, sequence'); }
    if Decimal(expires) == Decimal(expires') { DecimalInjective(expires, expires'); }
  }

  /** A sealed token opens, to what was sealed, exactly until it expires and exactly for the
      accounts and workflows that are spelled like its own. */
  lemma SealedOpensIff(v: ResumeVector, account: string, workflow: string, sequence: int, state: string, size: nat,
                       now: int, nonce: nat, account': string, workflow': string, later: int)
    requires size <= v.maxBytes
    ensures var (token, hash) := v.Seal(account, workflow, sequence, state, size, now, nonce).value;
      var content := v.Open(account', workflow', token, later);
      && (content.Ok? <==> Place(account', workflow') == Place(account, workflow) && later < now + v.ttl)
      && (content.Ok? ==> content.value == Opened(sequence, state, hash))
  {
    AadBinds(v, account, workflow, sequence, now + v.ttl, account', workflow', sequence, now + v.ttl);
  }

  /** Nothing else can be made of its ciphertext: a token that carries it opens only with the
      sequence, the expiry, the hash and the place it was sealed with. */
  lemma CipherOpensAsSealed(v: ResumeVector, account: string, workflow: string, sequence: int, state: string, size: nat,
                            now: int, nonce: nat, account': string, workflow': string, token': Token, later: int)
    requires size <= v.maxBytes
    requires token'.Envelope? && v.Open(account', workflow', token', later).Ok?
    requires token'.cipher == v.Seal(account, workflow, sequence, state, size, now, nonce).value.0.cipher
    ensures var (token, hash) := v.Seal(account, workflow, sequence, state, size, now, nonce).value;
      && token' == token && Place(account', workflow') == Place(account, workflow) && later < now + v.ttl
      && v.Open(account', workflow', token', later) == Ok(Opened(sequence, state, hash))
  {
    AadBinds(v, account, workflow, sequence, now + v.ttl, account', workflow', token'.sequence, token'.expires);
  }

  /** Only sealed tokens open: the tokens that open for a place are exactly those that sealing
      some state for it makes, until their time is over. */
  lemma OpensIffSealed(v: ResumeVector, account: string, workflow: string, token: Token, later: int)
    ensures v.Open(account, workflow, token, later).Ok? <==>
      exists sequence, state, now, nonce ::
        && v.Seal(account, workflow, sequence, state, 0, now, nonce).value.0 == token && later < now + v.ttl
  {
    if v.Open(account, workflow, token, later).Ok? {
      var now := token.expires - v.ttl;
      assert v.Seal(account, workflow, token.sequence, token.cipher.raw.state, 0, now, token.nonce).value.0 == token;
    }
  }

  /** The first thing that is wrong with a token names the error. */
  lemma OpenFailsFor(v: ResumeVector, account: string, workflow: string, token: Token, now: int)
    ensures var answer := v.Open(account, workflow, token, now);
      match token
      case Undecodable => answer == Err(BadEncoding)
      case Misshapen => answer == Err(Unhandled)
      case Envelope(sequence, schema, policy, expires, hash, nonce, cipher, signature) =>
        var aad := v.AadText(account, workflow, sequence, expires);
        && (schema != v.schema <==> answer == Err(SchemaMismatch))
        && (schema == v.schema && policy != v.policy <==> answer == Err(PolicyMismatch))
        && (schema == v.schema && policy == v.policy && expires <= now <==> answer == Err(Expired))
        && (schema == v.schema && policy == v.policy && expires > now ==>
             (signature != Hmac(aad, hash, nonce, cipher) <==> answer == Err(BadSignature))
             && (answer.Ok? || answer == Err(BadSignature)
                 || answer == Err(if cipher.Junk? || cipher.nonce != nonce || cipher.aad != aad then BadCipher
                      else if hash != StateHash(cipher.raw) then HashMismatch else NotAnObject)))
  {
  }

  lemma SameSpelling(a: string, b: string, c: string)
    ensures Place(a, b + "|" + c) == Place(a + "|" + b, c)
  {
    assert a + "|" + (b + "|" + c) == a + "|" + b + "|" + c;
  }

  /** Places spelled alike: a token sealed for account `a` and workflow `b|c` opens for account
      `a|b` and workflow `c`. */
  lemma CollidingPlaces(v: ResumeVector, a: string, b: string, c: string, sequence: int, state: string, size: nat,
                        now: int, nonce: nat, later: int)
    requires size <= v.maxBytes && later < now + v.ttl
    ensures a != a + "|" + b
    ensures var (token, hash) := v.Seal(a, b + "|" + c, sequence, state, size, now, nonce).value;
      v.Open(a + "|" + b, c, token, later) == Ok(Opened(sequence, state, hash))
  {
    SameSpelling(a, b, c);
    assert |a| < |a + "|" + b|;
    SealedOpensIff(v, a, b + "|" + c, sequence, state, size, now, nonce, a + "|" + b, c, later);
  }

  // ---------------------------------------------------------------- the heads, in place

  datatype Head = Head(sequence: nat, hash: Option<StateHash>)

  /** An account and one of its workflows. */
  type Key = (string, string)

  type Heads = map<Key, Head>

  function NextSequence(heads: Heads, key: Key): nat {
    if key in heads then heads[key].sequence + 1 else 1
  }

  function AfterAllocation(heads: Heads, key: Key): Heads {
    heads[key := Head(NextSequence(heads, key), None)]
  }

  /** Only the head with exactly this sequence takes the hash. */
  function AfterHash(heads: Heads, key: Key, sequence: int, hash: StateHash): Option<Heads> {
    if key in heads && heads[key].sequence == sequence then Some(heads[key := Head(heads[key].sequence, Some(hash))])
      else None
  }

  /** Whether opened content is what the head stands for. */
  predicate MatchesHead(heads: Heads, key: Key, content: Opened) {
    key in heads && content.sequence == heads[key].sequence && heads[key].hash == Some(content.hash)
  }

  class Database {
    var heads: Heads

    constructor ()
      ensures heads == map[]
    {
      heads := map[];
    }

    method AllocateWorkflowSequence(key: Key) returns (sequence: nat)
      modifies this
      ensures sequence == NextSequence(old(heads), key)
      ensures heads == AfterAllocation(old(heads), key)
    {
      sequence := 1;
      if key in heads { sequence := heads[key].sequence + 1; }
      heads := heads[key := Head(sequence, None)];
    }

    method SetWorkflowHash(key: Key, sequence: nat, hash: StateHash) returns (ok: bool)
      modifies this
      ensures ok <==> AfterHash(old(heads), key, sequence, hash).Some?
      ensures heads == if ok then AfterHash(old(heads), key, sequence, hash).value else old(heads)
    {
      ok := key in heads && heads[key].sequence == sequence;
      if ok { heads := heads[key := Head(sequence, Some(hash))]; }
    }

    method WorkflowHead(key: Key) returns (head: Option<Head>)
      ensures forall content :: MatchesHead(heads, key, content) <==>
        head.Some? && content.sequence == head.value.sequence && head.value.hash == Some(content.hash)
      ensures head.None? <==> key !in heads
    {
      return if key in heads then Some(heads[key]) else None;
    }

    /** A whole checkpoint that no other thread disturbs is the protocol's run of one thread. */
    method CreateCheckpoint(v: ResumeVector, key: Key, state: string, size: nat, now: int, nonce: nat)
      returns (result: Result<Token, Violation>)
      modifies this
      ensures var begun := Step(v, State(old(heads), map[], map[]), Allocate(0, key, state));
        var end := Step(v, begun, SealAndSet(0, size, now, nonce));
        && heads == end.heads
        && end.threads[0] == if result.Ok? then Saved(key, result.value) else Failed
    {
      var sequence := AllocateWorkflowSequence(key);
      var sealed := v.Seal(key.0, key.1, sequence, state, size, now, nonce);
      if sealed.Err? { return Err(sealed.error); }
      var ok := SetWorkflowHash(key, sequence, sealed.value.1);
      if !ok { return Err(SequenceChanged); }
      return Ok(sealed.value.0);
    }

    /** A whole restore, likewise. */
    method RestoreCheckpoint(v: ResumeVector, key: Key, token: Token, now: int)
      returns (result: Result<(int, string), Violation>)
      ensures var reading := Step(v, State(heads, map[], map[]), OpenToken(0, key, token, now));
        Step(v, reading, CompareHead(0)).threads[0]
          == if result.Ok? then Restored(key, result.value.0, result.value.1) else Failed
    {
      var content := v.Open(key.0, key.1, token, now);
      if content.Err? { return Err(content.error); }
      var head := WorkflowHead(key);
      if head.None? { return Err(HeadAbsent); }
      if content.value.sequence != head.value.sequence || head.value.hash != Some(content.value.hash) {
        return Err(Stale);
      }
      assert MatchesHead(heads, key, content.value);
      return Ok((content.value.sequence, content.value.state));
    }
  }

  // ---------------------------------------------------------------- interleaved threads

  /** Where a thread stands: a checkpoint after its allocation or after its end, a restore
      after opening its token or after its end. */
  datatype Thread =
    | Allocated(key: Key, sequence: int, state: string)
    | Saved(key: Key, token: Token)
    | Reading(key: Key, content: Opened)
    | Restored(key: Key, sequence: int, state: string)
    | Failed

  /** `made` lists, per workflow, the states of the allocations so far: a record of the run. */
  datatype State = State(heads: Heads, threads: map<nat, Thread>, made: map<Key, seq<string>>)

  datatype Action =
    | Allocate(t: nat, key: Key, state: string)
    | SealAndSet(t: nat, size: nat, now: int, nonce: nat)
    | OpenToken(t: nat, key: Key, token: Token, now: int)
    | CompareHead(t: nat)
    | Crash(t: nat)

  function Made(st: State, key: Key): seq<string> {
    if key in st.made then st.made[key] else []
  }

  function Become(st: State, t: nat, to: Thread): State {
    st.(threads := st.threads[t := to])
  }

  function Step(v: ResumeVector, st: State, a: Action): State {
    match a
    case Allocate(t, key, state) =>
      if t in st.threads then st
      else
        var sequence := NextSequence(st.heads, key);
        State(AfterAllocation(st.heads, key), st.threads[t := Allocated(key, sequence, state)],
          st.made[key := Made(st, key) + [state]])
    case SealAndSet(t, size, now, nonce) =>
      if t !in st.threads || !st.threads[t].Allocated? then st
      else
        var me := st.threads[t];
        var sealed := v.Seal(me.key.0, me.key.1, me.sequence, me.state, size, now, nonce);
        if sealed.Err? then Become(st, t, Failed)
        else
          var heads := AfterHash(st.heads, me.key, me.sequence, sealed.value.1);
          if heads.None? then Become(st, t, Failed)
          else Become(st, t, Saved(me.key, sealed.value.0)).(heads := heads.value)
    case OpenToken(t, key, token, now) =>
      if t in st.threads then st
      else
        var content := v.Open(key.0, key.1, token, now);
        Become(st, t, if content.Ok? then Reading(key, content.value) else Failed)
    case CompareHead(t) =>
      if t !in st.threads || !st.threads[t].Reading? then st
      else
        var me := st.threads[t];
        Become(st, t,
          if MatchesHead(st.heads, me.key, me.content) then Restored(me.key, me.content.sequence, me.content.state)
          else Failed)
    case Crash(t) => st.(threads := st.threads - {t})
  }

  function Run(v: ResumeVector, actions: seq<Action>): State {
    if actions == [] then State(map[], map[], map[])
      else Step(v, Run(v, actions[..|actions| - 1]), actions[|actions| - 1])
  }

  /** A head counts its allocations, and its hash, if set, is that of the newest one's state. */
  ghost predicate HeadOk(st: State, key: Key)
    requires key in st.heads
  {
    var head, made := st.heads[key], Made(st, key);
    && head.sequence == |made| && made != []
    && (head.hash.Some? ==> head.hash.value == StateHash(Canonical(made[|made| - 1])))
  }

  ghost predicate ThreadOk(st: State, t: nat)
    requires t in st.threads
  {
    var me := st.threads[t];
    && (me.Allocated? ==> 0 < me.sequence <= |Made(st, me.key)| && Made(st, me.key)[me.sequence - 1] == me.state)
    && (me.Reading? ==> me.content.hash == StateHash(Canonical(me.content.state)))
  }

  ghost predicate Inv(st: State) {
    && st.heads.Keys == st.made.Keys
    && (forall key :: key in st.heads ==> HeadOk(st, key))
    && (forall t :: t in st.threads ==> ThreadOk(st, t))
  }

  lemma InvAllocate(v: ResumeVector, st: State, t: nat, key: Key, state: string)
    requires Inv(st) && t !in st.threads
    ensures Inv(Step(v, st, Allocate(t, key, state)))
  {
    var next := Step(v, st, Allocate(t, key, state));
    assert key in st.heads ==> HeadOk(st, key);
    forall k | k in next.heads ensures HeadOk(next, k) {
      if k != key { assert HeadOk(st, k); }
    }
    forall u | u in next.threads ensures ThreadOk(next, u) {
      if u != t { assert ThreadOk(st, u); }
    }
  }

  /** A step that changes no head and at most one thread, which it leaves in order. */
  lemma InvQuiet(st: State, next: State, t: nat)
    requires Inv(st) && next.heads == st.heads && next.made == st.made
    requires forall u :: u in next.threads && u != t ==> u in st.threads && next.threads[u] == st.threads[u]
    requires t in next.threads ==> ThreadOk(next, t)
    ensures Inv(next)
  {
    forall k | k in next.heads ensures HeadOk(next, k) { assert HeadOk(st, k); }
    forall u | u in next.threads ensures ThreadOk(next, u) {
      if u != t { assert ThreadOk(st, u); }
    }
  }

  lemma InvSeal(v: ResumeVector, st: State, t: nat, size: nat, now: int, nonce: nat)
    requires Inv(st) && t in st.threads && st.threads[t].Allocated?
    ensures Inv(Step(v, st, SealAndSet(t, size, now, nonce)))
  {
    var next := Step(v, st, SealAndSet(t, size, now, nonce));
    assert ThreadOk(st, t);
    if next.heads == st.heads {
      InvQuiet(st, next, t);
    } else {
      var me := st.threads[t];
      var hash := StateHash(Canonical(me.state));
      assert HeadOk(st, me.key) && next.heads == st.heads[me.key := Head(me.sequence, Some(hash))];
      HeadTakesHash(st, next, t, me.key, hash);
    }
  }

  lemma HeadTakesHash(st: State, next: State, t: nat, key: Key, hash: StateHash)
    requires Inv(st) && key in st.heads && next.made == st.made
    requires next.heads == st.heads[key := Head(st.heads[key].sequence, Some(hash))]
    requires 0 < st.heads[key].sequence <= |Made(st, key)|
    requires hash == StateHash(Canonical(Made(st, key)[st.heads[key].sequence - 1]))
    requires next.threads.Keys == st.threads.Keys && forall u :: u in st.threads && u != t ==>
      next.threads[u] == st.threads[u]
    requires t in next.threads && next.threads[t].Saved?
    ensures Inv(next)
  {
    forall k | k in next.heads ensures HeadOk(next, k) { assert HeadOk(st, k); }
    forall u | u in next.threads ensures ThreadOk(next, u) {
      if u != t { assert ThreadOk(st, u); }
    }
  }

  lemma InvStep(v: ResumeVector, st: State, a: Action)
    requires Inv(st)
    ensures Inv(Step(v, st, a))
  {
    if a.t in st.threads { assert ThreadOk(st, a.t); }
    match a
    case Allocate(t, key, state) => if t !in st.threads { InvAllocate(v, st, t, key, state); }
    case SealAndSet(t, size, now, nonce) =>
      if t in st.threads && st.threads[t].Allocated? { InvSeal(v, st, t, size, now, nonce); }
    case _ => InvQuiet(st, Step(v, st, a), a.t);
  }

  lemma {:induction false} InvRun(v: ResumeVector, actions: seq<Action>)
    ensures Inv(Run(v, actions))
    decreases actions
  {
    if actions != [] {
      InvRun(v, actions[..|actions| - 1]);
      InvStep(v, Run(v, actions[..|actions| - 1]), actions[|actions| - 1]);
    }
  }

  /** A restore that succeeds returns exactly the state of the newest allocation of the
      workflow at that moment, under its sequence number, whatever token was presented. */
  lemma OnlyNewestRestores(v: ResumeVector, actions: seq<Action>, t: nat)
    requires var st := Run(v, actions); t in st.threads && st.threads[t].Reading?
    ensures var st := Run(v, actions); var after := Step(v, st, CompareHead(t)).threads[t];
      var made := Made(st, st.threads[t].key);
      after.Restored? ==> made != [] && after.sequence == |made| && after.state == made[|made| - 1]
  {
    InvRun(v, actions);
    var st := Run(v, actions);
    var key := st.threads[t].key;
    assert ThreadOk(st, t);
    if key in st.heads { assert HeadOk(st, key); }
  }

  /** And the newest one does restore: a token just saved opens and matches the head, until it
      expires or another checkpoint of the workflow starts. */
  lemma SavedTokenRestores(v: ResumeVector, st: State, c: nat, size: nat, now: int, nonce: nat, t: nat, later: int)
    requires Inv(st) && c in st.threads && st.threads[c].Allocated? && t !in st.threads
    requires size <= v.maxBytes && st.threads[c].sequence == |Made(st, st.threads[c].key)| && later < now + v.ttl
    ensures var me := st.threads[c]; var saved := Step(v, st, SealAndSet(c, size, now, nonce));
      && saved.threads[c].Saved?
      && Step(v, Step(v, saved, OpenToken(t, me.key, saved.threads[c].token, later)), CompareHead(t)).threads[t]
           == Restored(me.key, me.sequence, me.state)
  {
    var me := st.threads[c];
    assert ThreadOk(st, c);
    assert me.key in st.heads && HeadOk(st, me.key);
    SealedOpensIff(v, me.key.0, me.key.1, me.sequence, me.state, size, now, nonce, me.key.0, me.key.1, later);
    var saved := Step(v, st, SealAndSet(c, size, now, nonce));
    var reading := Step(v, saved, OpenToken(t, me.key, saved.threads[c].token, later));
    assert reading.threads[t] == Reading(me.key, Opened(me.sequence, me.state, StateHash(Canonical(me.state))));
  }

  /** A checkpoint overtaken by a later allocation fails and leaves the newer head alone. */
  lemma LateHashIsRefused(v: ResumeVector, st: State, t: nat, size: nat, now: int, nonce: nat)
    requires Inv(st) && t in st.threads && st.threads[t].Allocated?
    ensures var me := st.threads[t]; var next := Step(v, st, SealAndSet(t, size, now, nonce));
      && (me.sequence < |Made(st, me.key)| ==> next.threads[t].Failed? && next.heads == st.heads)
      && (forall key :: key in st.heads && key != me.key ==> next.heads[key] == st.heads[key])
  {
    var me := st.threads[t];
    if me.key in st.heads { assert HeadOk(st, me.key); }
  }

  lemma StepGrows(v: ResumeVector, st: State, a: Action, key: Key)
    requires Inv(st)
    ensures Precedes(st, Step(v, st, a), key)
  {
  }

  /** Where one state may stand before another, as far as a workflow can tell. */
  ghost predicate Precedes(a: State, b: State, key: Key) {
    && Made(a, key) <= Made(b, key)
    && (key in a.heads ==> key in b.heads && a.heads[key].sequence <= b.heads[key].sequence)
  }

  lemma PrecedesTransitive(a: State, b: State, c: State, key: Key)
    requires Precedes(a, b, key) && Precedes(b, c, key)
    ensures Precedes(a, c, key)
  {
    assert Made(c, key)[..|Made(b, key)|] == Made(b, key);
  }

  lemma RunOneMore(v: ResumeVector, actions: seq<Action>, a: Action)
    ensures Run(v, actions + [a]) == Step(v, Run(v, actions), a)
  {
    assert (actions + [a])[..|actions|] == actions;
  }

  /** Sequences only grow, and the record of allocations is never rewritten. */
  lemma {:induction false} SequencesGrow(v: ResumeVector, actions: seq<Action>, more: seq<Action>, key: Key)
    ensures Precedes(Run(v, actions), Run(v, actions + more), key)
    decreases more
  {
    if more == [] {
      assert actions + more == actions;
    } else {
      var before, last := actions + more[..|more| - 1], more[|more| - 1];
      SequencesGrow(v, actions, more[..|more| - 1], key);
      assert actions + more == before + [last];
      RunOneMore(v, before, last);
      InvRun(v, before);
      StepGrows(v, Run(v, before), last, key);
      PrecedesTransitive(Run(v, actions), Run(v, before), Run(v, before + [last]), key);
    }
  }

  /** An allocation gets a number that no earlier allocation of the workflow had. */
  lemma AllocationIsNew(v: ResumeVector, actions: seq<Action>, t: nat, key: Key, state: string)
    requires t !in Run(v, actions).threads
    ensures var st := Run(v, actions); var next := Step(v, st, Allocate(t, key, state));
      && next.threads[t].sequence == |Made(st, key)| + 1
      && (key in st.heads ==> next.threads[t].sequence > st.heads[key].sequence)
  {
    InvRun(v, actions);
    var st := Run(v, actions);
    if key in st.heads { assert HeadOk(st, key); }
  }

  /** A whole checkpoint without disturbance, from its two steps. */
  lemma CheckpointEnds(v: ResumeVector, st: State, t: nat, key: Key, state: string, size: nat, now: int, nonce: nat)
    requires Inv(st) && t !in st.threads
    ensures var begun := Step(v, st, Allocate(t, key, state));
      var next := Step(v, begun, SealAndSet(t, size, now, nonce));
      var n := |Made(st, key)| + 1; var hash := StateHash(Canonical(state));
      && t in next.threads && next.threads.Keys == begun.threads.Keys
      && (next.threads[t].Failed? <==> size > v.maxBytes) && !next.threads[t].Allocated?
      && next.heads == st.heads[key := Head(n, if size > v.maxBytes then None else Some(hash))]
      && Made(next, key) == Made(st, key) + [state]
      && forall u :: u in st.threads ==> next.threads[u] == st.threads[u]
  {
    if key in st.heads { assert HeadOk(st, key); }
    var begun := Step(v, st, Allocate(t, key, state));
    var n := |Made(st, key)| + 1;
    assert begun.threads[t] == Allocated(key, n, state) && begun.heads == st.heads[key := Head(n, None)];
    var next := Step(v, begun, SealAndSet(t, size, now, nonce));
    if size <= v.maxBytes {
      assert next.heads == begun.heads[key := Head(n, Some(StateHash(Canonical(state))))];
    } else {
      assert next == Become(begun, t, Failed);
    }
  }

  /** A state that is too large: its checkpoint has taken a number before its size is looked at,
      and fails; the head keeps that number with no hash. */
  lemma OversizeFails(v: ResumeVector, actions: seq<Action>, t: nat, key: Key, state: string, size: nat, now: int,
      nonce: nat)
    requires t !in Run(v, actions).threads
    ensures var st := Run(v, actions); var n := |Made(st, key)| + 1;
      var next := Run(v, actions + [Allocate(t, key, state), SealAndSet(t, size, now, nonce)]);
      && t in next.threads && (size > v.maxBytes <==> next.threads[t].Failed?)
      && (size > v.maxBytes ==> v.Seal(key.0, key.1, n, state, size, now, nonce) == Err(TooLarge))
      && next.heads == st.heads[key := Head(n, if size > v.maxBytes then None else Some(StateHash(Canonical(state))))]
      && NoneMaySet(next, key)
  {
    var st := Run(v, actions);
    var a, b := Allocate(t, key, state), SealAndSet(t, size, now, nonce);
    InvRun(v, actions);
    RunOneMore(v, actions, a);
    RunOneMore(v, actions + [a], b);
    assert actions + [a, b] == actions + [a] + [b];
    CheckpointEnds(v, st, t, key, state, size, now, nonce);
    var next := Run(v, actions + [a, b]);
    forall u | u in next.threads && next.threads[u].Allocated? && next.threads[u].key == key
      ensures next.threads[u].sequence < |Made(next, key)|
    {
      assert u in st.threads && ThreadOk(st, u);
    }
  }

  /** No checkpoint under way has the newest number of the workflow. */
  ghost predicate NoneMaySet(st: State, key: Key) {
    forall t :: t in st.threads && st.threads[t].Allocated? && st.threads[t].key == key ==>
      st.threads[t].sequence < |Made(st, key)|
  }

  predicate Allocates(a: Action, key: Key) {
    a.Allocate? && a.key == key
  }

  lemma StepRests(v: ResumeVector, st: State, a: Action, key: Key)
    requires Inv(st) && key in st.heads && NoneMaySet(st, key) && !Allocates(a, key)
    ensures var next := Step(v, st, a);
      key in next.heads && next.heads[key] == st.heads[key] && Made(next, key) == Made(st, key) && NoneMaySet(next, key)
  {
    assert HeadOk(st, key);
    var next := Step(v, st, a);
    assert Made(next, key) == Made(st, key);
    forall t | t in next.threads && next.threads[t].Allocated? && next.threads[t].key == key
      ensures t in st.threads && next.threads[t] == st.threads[t]
    {
    }
  }

  /** A head whose newest checkpoint is over stays as it is until the workflow's next one. */
  lemma {:induction false} HeadRests(v: ResumeVector, actions: seq<Action>, more: seq<Action>, key: Key)
    requires key in Run(v, actions).heads && NoneMaySet(Run(v, actions), key)
    requires forall a :: a in more ==> !Allocates(a, key)
    ensures var st, end := Run(v, actions), Run(v, actions + more);
      && key in end.heads && end.heads[key] == st.heads[key] && Made(end, key) == Made(st, key)
      && NoneMaySet(end, key)
    decreases more
  {
    if more == [] {
      assert actions + more == actions;
    } else {
      var before, last := actions + more[..|more| - 1], more[|more| - 1];
      HeadRests(v, actions, more[..|more| - 1], key);
      assert actions + more == before + [last];
      RunOneMore(v, before, last);
      InvRun(v, before);
      StepRests(v, Run(v, before), last, key);
    }
  }

  /** So a checkpoint that is too large costs the workflow what it had: until the next checkpoint
      of the workflow starts, no token restores, not even the one that did before. */
  lemma OversizeBlocksRestores(v: ResumeVector, actions: seq<Action>, t: nat, key: Key, state: string, size: nat,
      now: int, nonce: nat, more: seq<Action>, r: nat)
    requires t !in Run(v, actions).threads && size > v.maxBytes && forall a :: a in more ==> !Allocates(a, key)
    ensures var st := Run(v, actions + [Allocate(t, key, state), SealAndSet(t, size, now, nonce)] + more);
      r in st.threads && st.threads[r].Reading? && st.threads[r].key == key ==>
        Step(v, st, CompareHead(r)).threads[r].Failed?
  {
    OversizeFails(v, actions, t, key, state, size, now, nonce);
    HeadRests(v, actions + [Allocate(t, key, state), SealAndSet(t, size, now, nonce)], more, key);
  }
}
