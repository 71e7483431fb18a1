/** The read-before-definition pass of the Madhouse analysis (app/madhouse.py) and what its
    silence is worth: a small Python-like language, its executions, and the pass itself. */
module DefiniteAssignment {
  import opened Outcomes

  type Name = string

  /** One read of a name, with its line number. */
  datatype Load = Load(name: Name, line: nat)

  /** Statements. `loads` are the reads of the statement's own expressions. An assignment
      with an annotation and a value is an `Assign`; `pass` is an `Expr` with no reads. */
  datatype Stmt =
    | Import(names: set<Name>)
    | Assign(targets: set<Name>, loads: seq<Load>)
    | AugAssign(target: Name, loads: seq<Load>, line: nat)
    | Annotate(target: Name, loads: seq<Load>)
    | Expr(loads: seq<Load>)
    | If(loads: seq<Load>, body: seq<Stmt>, orelse: seq<Stmt>)
    | For(targets: set<Name>, loads: seq<Load>, body: seq<Stmt>, orelse: seq<Stmt>)
    | While(loads: seq<Load>, body: seq<Stmt>, orelse: seq<Stmt>)
    | Break
    | Continue
    | Raise(loads: seq<Load>)

  // ---------------------------------------------------------------- executions

  /** How a run of a statement ends. `Exhausted` means that the oracle ran dry: the run
      observed is a finite prefix of a longer one. */
  datatype Exit = Normal | Broke | Continued | Raised | Exhausted | Unbound(load: Load)

  datatype Run = Run(exit: Exit, env: set<Name>, rest: seq<bool>)

  function FirstUnbound(loads: seq<Load>, env: set<Name>): Exit {
    if loads == [] then Normal
    else if loads[0].name !in env then Unbound(loads[0])
    else FirstUnbound(loads[1..], env)
  }

  /** Evaluates `loads`, then binds `stores`, and ends with `exit` if every read succeeds. */
  function Simple(loads: seq<Load>, stores: set<Name>, exit: Exit, env: set<Name>, oracle: seq<bool>): Run {
    var f := FirstUnbound(loads, env);
    if f.Unbound? then Run(f, env, oracle) else Run(exit, env + stores, oracle)
  }

  /** One execution: every branch taken and every further iteration is decided by the next
      entry of `oracle`, so the executions of a program, finite or not, are observed through
      the finite oracles. */
  function ExecStmt(s: Stmt, env: set<Name>, oracle: seq<bool>): (r: Run)
    ensures |r.rest| <= |oracle|
    decreases |oracle|, s, 1
  {
    match s
    case Import(names) => Run(Normal, env + names, oracle)
    case Assign(targets, loads) => Simple(loads, targets, Normal, env, oracle)
    case AugAssign(target, loads, line) =>
      // Python reads the target before evaluating the right-hand side
      Simple([Load(target, line)] + loads, {target}, Normal, env, oracle)
    case Annotate(_, loads) => Simple(loads, {}, Normal, env, oracle)
    case Expr(loads) => Simple(loads, {}, Normal, env, oracle)
    case Raise(loads) => Simple(loads, {}, Raised, env, oracle)
    case Break => Run(Broke, env, oracle)
    case Continue => Run(Continued, env, oracle)
    case If(loads, body, orelse) =>
      var f := FirstUnbound(loads, env);
      if f.Unbound? then Run(f, env, oracle)
      else if oracle == [] then Run(Exhausted, env, oracle)
      else ExecBlock(if oracle[0] then body else orelse, env, oracle[1..])
    case For(_, loads, _, _) =>
      var f := FirstUnbound(loads, env);
      if f.Unbound? then Run(f, env, oracle) else Iterate(s, env, oracle)
    case While(_, _, _) => Iterate(s, env, oracle)
  }

  function ExecBlock(ss: seq<Stmt>, env: set<Name>, oracle: seq<bool>): (r: Run)
    ensures |r.rest| <= |oracle|
    decreases |oracle|, ss, 0
  {
    if ss == [] then Run(Normal, env, oracle)
    else
      var r := ExecStmt(ss[0], env, oracle);
      if r.exit.Normal? then ExecBlock(ss[1..], r.env, r.rest) else r
  }

  /** The reads a loop performs before each iteration: a `while` evaluates its test again,
      a `for` has evaluated its iterable once and for all. */
  function Test(s: Stmt): seq<Load>
    requires s.For? || s.While?
  {
    if s.While? then s.loads else []
  }

  function Binds(s: Stmt): set<Name>
    requires s.For? || s.While?
  {
    if s.For? then s.targets else {}
  }

  function Iterate(s: Stmt, env: set<Name>, oracle: seq<bool>): (r: Run)
    requires s.For? || s.While?
    ensures |r.rest| <= |oracle|
    decreases |oracle|, s, 0
  {
    var f := FirstUnbound(Test(s), env);
    if f.Unbound? then Run(f, env, oracle)
    else if oracle == [] then Run(Exhausted, env, oracle)
    else if !oracle[0] then ExecBlock(s.orelse, env, oracle[1..])
    else
      var r := ExecBlock(s.body, env + Binds(s), oracle[1..]);
      if r.exit.Normal? || r.exit.Continued? then Iterate(s, r.env, r.rest)
      else if r.exit.Broke? then r.(exit := Normal)
      else r
  }

  /** No execution of the program reads a name that is not bound at that moment. */
  ghost predicate Safe(program: seq<Stmt>, env: set<Name>) {
    forall oracle: seq<bool> :: !ExecBlock(program, env, oracle).exit.Unbound?
  }

  // ---------------------------------------------------------------- the exact condition

  function Names(loads: seq<Load>): set<Name> {
    set l | l in loads :: l.name
  }

  /** What a statement needs bound on entry (`needs`), and what it has certainly bound on
      each way out; `None` marks a way out that no execution takes. */
  datatype Facts = Facts(needs: set<Name>, normal: Option<set<Name>>, broke: Option<set<Name>>,
    continued: Option<set<Name>>)
  {
    function At(exit: Exit): Option<set<Name>> {
      match exit
      case Normal => normal
      case Broke => broke
      case Continued => continued
      case _ => None
    }
  }

  function Meet(a: Option<set<Name>>, b: Option<set<Name>>): Option<set<Name>> {
    if a.None? then b else if b.None? then a else Some(a.value * b.value)
  }

  function Plus(a: set<Name>, b: Option<set<Name>>): Option<set<Name>> {
    if b.None? then None else Some(a + b.value)
  }

  function FactsOf(s: Stmt): Facts
    decreases s, 1
  {
    match s
    case Import(names) => Facts({}, Some(names), None, None)
    case Assign(targets, loads) => Facts(Names(loads), Some(targets), None, None)
    case AugAssign(target, loads, line) => Facts(Names([Load(target, line)] + loads), Some({target}), None, None)
    case Annotate(_, loads) => Facts(Names(loads), Some({}), None, None)
    case Expr(loads) => Facts(Names(loads), Some({}), None, None)
    case Raise(loads) => Facts(Names(loads), None, None, None)
    case Break => Facts({}, None, Some({}), None)
    case Continue => Facts({}, None, None, Some({}))
    case If(loads, body, orelse) =>
      var b, e := BlockFacts(body), BlockFacts(orelse);
      Facts(Names(loads) + b.needs + e.needs, Meet(b.normal, e.normal), Meet(b.broke, e.broke),
        Meet(b.continued, e.continued))
    case For(_, loads, body, orelse) => LoopFacts(s)
    case While(loads, body, orelse) => LoopFacts(s)
  }

  function LoopFacts(s: Stmt): Facts
    requires s.For? || s.While?
    decreases s, 0
  {
    var b, e := BlockFacts(s.body), BlockFacts(s.orelse);
    Facts(Names(s.loads) + (b.needs - Binds(s)) + e.needs, Meet(Plus(Binds(s), b.broke), e.normal), e.broke,
      e.continued)
  }

  function BlockFacts(ss: seq<Stmt>): Facts
    decreases ss, 0
  {
    if ss == [] then Facts({}, Some({}), None, None)
    else
      var h, t := FactsOf(ss[0]), BlockFacts(ss[1..]);
      if h.normal.None? then h
      else
        var g := h.normal.value;
        Facts(h.needs + (t.needs - g), Plus(g, t.normal), Meet(h.broke, Plus(g, t.broke)),
          Meet(h.continued, Plus(g, t.continued)))
  }

  // ---------------------------------------------------------------- enough: needs <= env

  lemma FirstUnboundIff(loads: seq<Load>, env: set<Name>)
    ensures FirstUnbound(loads, env).Normal? || FirstUnbound(loads, env).Unbound?
    ensures FirstUnbound(loads, env).Normal? <==> Names(loads) <= env
  {
    if loads != [] {
      FirstUnboundIff(loads[1..], env);
      assert Names(loads) == {loads[0].name} + Names(loads[1..]);
    }
  }

  /** What the facts `f` promise about a run from `env`. */
  ghost predicate Delivers(f: Facts, env: set<Name>, r: Run) {
    && env <= r.env
    && !r.exit.Unbound?
    && (r.exit.Normal? || r.exit.Broke? || r.exit.Continued? ==> f.At(r.exit).Some? && f.At(r.exit).value <= r.env)
  }

  lemma {:induction false} StmtSafe(s: Stmt, env: set<Name>, oracle: seq<bool>)
    requires FactsOf(s).needs <= env
    ensures Delivers(FactsOf(s), env, ExecStmt(s, env, oracle))
    decreases |oracle|, s, 1
  {
    match s
    case Import(_) =>
    case Break =>
    case Continue =>
    case Assign(_, loads) => FirstUnboundIff(loads, env);
    case AugAssign(target, loads, line) => FirstUnboundIff([Load(target, line)] + loads, env);
    case Annotate(_, loads) => FirstUnboundIff(loads, env);
    case Expr(loads) => FirstUnboundIff(loads, env);
    case Raise(loads) => FirstUnboundIff(loads, env);
    case If(loads, body, orelse) =>
      FirstUnboundIff(loads, env);
      if oracle != [] {
        BlockSafe(if oracle[0] then body else orelse, env, oracle[1..]);
      }
    case For(_, loads, _, _) =>
      FirstUnboundIff(loads, env);
      LoopSafe(s, env, oracle);
    case While(_, _, _) =>
      LoopSafe(s, env, oracle);
  }

  lemma {:induction false} BlockSafe(ss: seq<Stmt>, env: set<Name>, oracle: seq<bool>)
    requires BlockFacts(ss).needs <= env
    ensures Delivers(BlockFacts(ss), env, ExecBlock(ss, env, oracle))
    decreases |oracle|, ss, 0
  {
    if ss != [] {
      StmtSafe(ss[0], env, oracle);
      var r := ExecStmt(ss[0], env, oracle);
      if r.exit.Normal? {
        BlockSafe(ss[1..], r.env, r.rest);
      }
    }
  }

  lemma {:induction false} LoopSafe(s: Stmt, env: set<Name>, oracle: seq<bool>)
    requires s.For? || s.While?
    requires LoopFacts(s).needs <= env
    ensures Delivers(LoopFacts(s), env, Iterate(s, env, oracle))
    decreases |oracle|, s, 0
  {
    FirstUnboundIff(Test(s), env);
    if oracle != [] {
      if oracle[0] {
        BlockSafe(s.body, env + Binds(s), oracle[1..]);
        var r := ExecBlock(s.body, env + Binds(s), oracle[1..]);
        if r.exit.Normal? || r.exit.Continued? {
          LoopSafe(s, r.env, r.rest);
        }
      } else {
        BlockSafe(s.orelse, env, oracle[1..]);
      }
    }
  }

  // ---------------------------------------------------------------- and no less

  /** A run that did not drain its oracle ignores what is added behind it. */
  lemma {:induction false} StmtExtends(s: Stmt, env: set<Name>, oracle: seq<bool>, more: seq<bool>)
    requires !ExecStmt(s, env, oracle).exit.Exhausted?
    ensures var r := ExecStmt(s, env, oracle); ExecStmt(s, env, oracle + more) == r.(rest := r.rest + more)
    decreases |oracle|, s, 1
  {
    match s
    case If(loads, body, orelse) =>
      FirstUnboundIff(loads, env);
      if oracle != [] && FirstUnbound(loads, env).Normal? {
        assert (oracle + more)[1..] == oracle[1..] + more;
        BlockExtends(if oracle[0] then body else orelse, env, oracle[1..], more);
      }
    case For(_, loads, _, _) =>
      FirstUnboundIff(loads, env);
      if FirstUnbound(loads, env).Normal? { LoopExtends(s, env, oracle, more); }
    case While(_, _, _) => LoopExtends(s, env, oracle, more);
    case _ =>
  }

  lemma {:induction false} BlockExtends(ss: seq<Stmt>, env: set<Name>, oracle: seq<bool>, more: seq<bool>)
    requires !ExecBlock(ss, env, oracle).exit.Exhausted?
    ensures var r := ExecBlock(ss, env, oracle); ExecBlock(ss, env, oracle + more) == r.(rest := r.rest + more)
    decreases |oracle|, ss, 0
  {
    if ss != [] {
      StmtExtends(ss[0], env, oracle, more);
      var r := ExecStmt(ss[0], env, oracle);
      if r.exit.Normal? {
        BlockExtends(ss[1..], r.env, r.rest, more);
      }
    }
  }

  lemma {:induction false} LoopExtends(s: Stmt, env: set<Name>, oracle: seq<bool>, more: seq<bool>)
    requires s.For? || s.While?
    requires !Iterate(s, env, oracle).exit.Exhausted?
    ensures var r := Iterate(s, env, oracle); Iterate(s, env, oracle + more) == r.(rest := r.rest + more)
    decreases |oracle|, s, 0
  {
    FirstUnboundIff(Test(s), env);
    if oracle != [] && FirstUnbound(Test(s), env).Normal? {
      assert (oracle + more)[1..] == oracle[1..] + more;
      if oracle[0] {
        BlockExtends(s.body, env + Binds(s), oracle[1..], more);
        var r := ExecBlock(s.body, env + Binds(s), oracle[1..]);
        if r.exit.Normal? || r.exit.Continued? {
          LoopExtends(s, r.env, r.rest, more);
        }
      } else {
        BlockExtends(s.orelse, env, oracle[1..], more);
      }
    }
  }

  /** `x` is missing after a run that left through `exit`, unless the run already failed. */
  ghost predicate Escapes(r: Run, exit: Exit, x: Name) {
    r.exit.Unbound? || (r.exit == exit && r.rest == [] && x !in r.env)
  }

  /** A name that is not certainly bound at `exit` can be missing there: some execution
      leaves that way without it, or fails on a read before. */
  lemma {:induction false} StmtMisses(s: Stmt, env: set<Name>, exit: Exit, x: Name) returns (oracle: seq<bool>)
    requires x !in env
    requires FactsOf(s).At(exit).Some? && x !in FactsOf(s).At(exit).value
    ensures Escapes(ExecStmt(s, env, oracle), exit, x)
    decreases s, 1
  {
    oracle := [];
    match s
    case Import(_) =>
    case Break =>
    case Continue =>
    case Assign(_, loads) => FirstUnboundIff(loads, env);
    case AugAssign(target, loads, line) => FirstUnboundIff([Load(target, line)] + loads, env);
    case Annotate(_, loads) => FirstUnboundIff(loads, env);
    case Expr(loads) => FirstUnboundIff(loads, env);
    case Raise(loads) =>
    case If(loads, body, orelse) =>
      var b := BlockFacts(body).At(exit);
      if b.Some? && x !in b.value {
        var tail := BlockMisses(body, env, exit, x);
        oracle := [true] + tail;
        assert oracle[1..] == tail;
      } else {
        var tail := BlockMisses(orelse, env, exit, x);
        oracle := [false] + tail;
        assert oracle[1..] == tail;
      }
    case For(_, loads, _, _) => oracle := LoopMisses(s, env, exit, x);
    case While(_, _, _) => oracle := LoopMisses(s, env, exit, x);
  }

  lemma {:induction false} LoopMisses(s: Stmt, env: set<Name>, exit: Exit, x: Name) returns (oracle: seq<bool>)
    requires s.For? || s.While?
    requires x !in env
    requires LoopFacts(s).At(exit).Some? && x !in LoopFacts(s).At(exit).value
    ensures Escapes(Iterate(s, env, oracle), exit, x)
    decreases s, 0
  {
    FirstUnboundIff(Test(s), env);
    var b := Plus(Binds(s), BlockFacts(s.body).broke);
    if exit.Normal? && b.Some? && x !in b.value {
      var tail := BlockMisses(s.body, env + Binds(s), Broke, x);
      oracle := [true] + tail;
      assert oracle[1..] == tail;
    } else {
      var tail := BlockMisses(s.orelse, env, exit, x);
      oracle := [false] + tail;
      assert oracle[1..] == tail;
    }
  }

  lemma {:induction false} BlockMisses(ss: seq<Stmt>, env: set<Name>, exit: Exit, x: Name) returns (oracle: seq<bool>)
    requires x !in env
    requires BlockFacts(ss).At(exit).Some? && x !in BlockFacts(ss).At(exit).value
    ensures Escapes(ExecBlock(ss, env, oracle), exit, x)
    decreases ss, 0
  {
    if ss == [] { return []; }
    var h := FactsOf(ss[0]);
    if !exit.Normal? && h.At(exit).Some? && x !in h.At(exit).value {
      oracle := StmtMisses(ss[0], env, exit, x);
    } else {
      var first := StmtMisses(ss[0], env, Normal, x);
      var r := ExecStmt(ss[0], env, first);
      if r.exit.Unbound? { return first; }
      var second := BlockMisses(ss[1..], r.env, exit, x);
      StmtExtends(ss[0], env, first, second);
      assert [] + second == second;
      oracle := first + second;
    }
  }

  /** A needed name that is missing makes some execution fail. */
  lemma {:induction false} StmtFails(s: Stmt, env: set<Name>, x: Name) returns (oracle: seq<bool>)
    requires x in FactsOf(s).needs && x !in env
    ensures ExecStmt(s, env, oracle).exit.Unbound?
    decreases s, 1
  {
    oracle := [];
    match s
    case Assign(_, loads) => FirstUnboundIff(loads, env);
    case AugAssign(target, loads, line) => FirstUnboundIff([Load(target, line)] + loads, env);
    case Annotate(_, loads) => FirstUnboundIff(loads, env);
    case Expr(loads) => FirstUnboundIff(loads, env);
    case Raise(loads) => FirstUnboundIff(loads, env);
    case If(loads, body, orelse) =>
      FirstUnboundIff(loads, env);
      if x !in Names(loads) {
        var inBody := x in BlockFacts(body).needs;
        var tail := BlockFails(if inBody then body else orelse, env, x);
        oracle := [inBody] + tail;
        assert oracle[1..] == tail;
      }
    case For(_, loads, _, _) =>
      FirstUnboundIff(loads, env);
      if x !in Names(loads) { oracle := LoopFails(s, env, x); }
    case While(_, _, _) => oracle := LoopFails(s, env, x);
    case _ =>
  }

  lemma {:induction false} LoopFails(s: Stmt, env: set<Name>, x: Name) returns (oracle: seq<bool>)
    requires s.For? || s.While?
    requires x in LoopFacts(s).needs && x !in env && (s.For? ==> x !in Names(s.loads))
    ensures Iterate(s, env, oracle).exit.Unbound?
    decreases s, 0
  {
    FirstUnboundIff(Test(s), env);
    if x in Names(Test(s)) {
      oracle := [];
    } else {
      var inBody := x in BlockFacts(s.body).needs - Binds(s);
      var tail := BlockFails(if inBody then s.body else s.orelse, env + (if inBody then Binds(s) else {}), x);
      assert env + {} == env;
      oracle := [inBody] + tail;
      assert oracle[1..] == tail;
    }
  }

  lemma {:induction false} BlockFails(ss: seq<Stmt>, env: set<Name>, x: Name) returns (oracle: seq<bool>)
    requires x in BlockFacts(ss).needs && x !in env
    ensures ExecBlock(ss, env, oracle).exit.Unbound?
    decreases ss, 0
  {
    if x in FactsOf(ss[0]).needs {
      oracle := StmtFails(ss[0], env, x);
    } else {
      var first := StmtMisses(ss[0], env, Normal, x);
      var r := ExecStmt(ss[0], env, first);
      if r.exit.Unbound? { return first; }
      var second := BlockFails(ss[1..], r.env, x);
      StmtExtends(ss[0], env, first, second);
      assert [] + second == second;
      oracle := first + second;
    }
  }

  /** A program is safe exactly when everything it needs is bound at the start. */
  lemma SafeIff(program: seq<Stmt>, env: set<Name>)
    ensures Safe(program, env) <==> BlockFacts(program).needs <= env
  {
    if BlockFacts(program).needs <= env {
      forall oracle: seq<bool> ensures !ExecBlock(program, env, oracle).exit.Unbound? {
        BlockSafe(program, env, oracle);
      }
    } else {
      var x :| x in BlockFacts(program).needs && x !in env;
      var oracle := BlockFails(program, env, x);
    }
  }

  // ---------------------------------------------------------------- the pass, as functions

  /** Every read inside a statement and the statements nested in it. */
  function AllLoads(s: Stmt): seq<Load>
    decreases s, 1
  {
    match s
    case If(loads, body, orelse) => loads + BlockLoads(body) + BlockLoads(orelse)
    case For(_, loads, body, orelse) => loads + BlockLoads(body) + BlockLoads(orelse)
    case While(loads, body, orelse) => loads + BlockLoads(body) + BlockLoads(orelse)
    case Import(_) => []
    case Break => []
    case Continue => []
    case _ => s.loads
  }

  function BlockLoads(ss: seq<Stmt>): seq<Load>
    decreases ss, 0
  {
    if ss == [] then [] else AllLoads(ss[0]) + BlockLoads(ss[1..])
  }

  /** Every name bound by a `for` inside a statement. */
  function LoopBound(s: Stmt): set<Name>
    decreases s, 1
  {
    match s
    case If(_, body, orelse) => BlockLoopBound(body) + BlockLoopBound(orelse)
    case While(_, body, orelse) => BlockLoopBound(body) + BlockLoopBound(orelse)
    case For(targets, _, body, orelse) => targets + BlockLoopBound(body) + BlockLoopBound(orelse)
    case _ => {}
  }

  function BlockLoopBound(ss: seq<Stmt>): set<Name>
    decreases ss, 0
  {
    if ss == [] then {} else LoopBound(ss[0]) + BlockLoopBound(ss[1..])
  }

  function Without(loads: seq<Load>, bound: set<Name>): seq<Load> {
    if loads == [] then []
    else (if loads[0].name in bound then [] else [loads[0]]) + Without(loads[1..], bound)
  }

  /** The reads that the pass compares with the scope when it meets `s`. */
  function Reads(s: Stmt): seq<Load> {
    if s.If? || s.For? then s.loads else Without(AllLoads(s), LoopBound(s))
  }

  /** The statement and all the statements nested in it. */
  function Walk(s: Stmt): seq<Stmt>
    decreases s, 1
  {
    [s] + if s.If? || s.For? || s.While? then BlockWalk(s.body) + BlockWalk(s.orelse) else []
  }

  function BlockWalk(ss: seq<Stmt>): seq<Stmt>
    decreases ss, 0
  {
    if ss == [] then [] else Walk(ss[0]) + BlockWalk(ss[1..])
  }

  /** What a statement reads itself, apart from the statements in it. */
  predicate ReadsItself(s: Stmt, l: Load) {
    !s.Import? && !s.Break? && !s.Continue? && l in s.loads
  }

  predicate Loops(s: Stmt, x: Name) {
    s.For? && x in s.targets
  }

  ghost predicate SomeReads(ts: seq<Stmt>, l: Load) {
    exists t :: t in ts && ReadsItself(t, l)
  }

  ghost predicate SomeLoops(ts: seq<Stmt>, x: Name) {
    exists t :: t in ts && Loops(t, x)
  }

  lemma Joined(a: seq<Stmt>, b: seq<Stmt>, l: Load, x: Name)
    ensures SomeReads(a + b, l) <==> SomeReads(a, l) || SomeReads(b, l)
    ensures SomeLoops(a + b, x) <==> SomeLoops(a, x) || SomeLoops(b, x)
  {
    forall t ensures t in a + b <==> t in a || t in b {}
  }

  lemma Alone(s: Stmt, l: Load, x: Name)
    ensures SomeReads([s], l) <==> ReadsItself(s, l)
    ensures SomeLoops([s], x) <==> Loops(s, x)
  {
    assert s in [s];
  }

  lemma {:induction false} WalkFinds(s: Stmt, l: Load, x: Name)
    ensures l in AllLoads(s) <==> SomeReads(Walk(s), l)
    ensures x in LoopBound(s) <==> SomeLoops(Walk(s), x)
    decreases s, 1
  {
    Alone(s, l, x);
    if s.If? || s.For? || s.While? {
      BlockWalkFinds(s.body, l, x);
      BlockWalkFinds(s.orelse, l, x);
      Joined(BlockWalk(s.body), BlockWalk(s.orelse), l, x);
      Joined([s], BlockWalk(s.body) + BlockWalk(s.orelse), l, x);
    } else {
      assert Walk(s) == [s];
    }
  }

  lemma {:induction false} BlockWalkFinds(ss: seq<Stmt>, l: Load, x: Name)
    ensures l in BlockLoads(ss) <==> SomeReads(BlockWalk(ss), l)
    ensures x in BlockLoopBound(ss) <==> SomeLoops(BlockWalk(ss), x)
    decreases ss, 0
  {
    if ss != [] {
      WalkFinds(ss[0], l, x);
      BlockWalkFinds(ss[1..], l, x);
      Joined(Walk(ss[0]), BlockWalk(ss[1..]), l, x);
    }
  }

  lemma {:induction false} WithoutHolds(loads: seq<Load>, bound: set<Name>, l: Load)
    ensures l in Without(loads, bound) <==> l in loads && l.name !in bound
  {
    if loads != [] { WithoutHolds(loads[1..], bound, l); }
  }

  /** What the pass compares with the scope when it meets a `while`: every read anywhere in it,
      except of names that some `for` in it binds, wherever that `for` stands. */
  lemma WhileReads(s: Stmt, l: Load)
    requires s.While?
    ensures l in Reads(s) <==> SomeReads(Walk(s), l) && !SomeLoops(Walk(s), l.name)
  {
    WalkFinds(s, l, l.name);
    WithoutHolds(AllLoads(s), LoopBound(s), l);
  }

  function DirectStores(s: Stmt): set<Name> {
    match s
    case Import(names) => names
    case Assign(targets, _) => targets
    case AugAssign(target, _, _) => {target}
    case Annotate(target, _) => {target}
    case For(targets, _, _, _) => targets
    case _ => {}
  }

  function ScopeAfter(ss: seq<Stmt>, scope: set<Name>): set<Name>
    decreases ss, 0
  {
    if ss == [] then scope else ScopeAfter(ss[1..], ScopeAfterStmt(ss[0], scope))
  }

  function ScopeAfterStmt(s: Stmt, scope: set<Name>): set<Name>
    decreases s, 1
  {
    match s
    case For(_, _, _, _) => scope
    case If(_, body, orelse) => scope + ScopeAfter(body, scope) * ScopeAfter(orelse, scope)
    case _ => scope + DirectStores(s)
  }

  /** The reads the pass objects to, in the order in which it meets them. */
  function Reports(ss: seq<Stmt>, scope: set<Name>): seq<Load>
    decreases ss, 0
  {
    if ss == [] then []
    else StmtReports(ss[0], scope) + Reports(ss[1..], ScopeAfterStmt(ss[0], scope))
  }

  function StmtReports(s: Stmt, scope: set<Name>): seq<Load>
    decreases s, 1
  {
    Without(Reads(s), scope) +
    match s
    case If(_, body, orelse) => Reports(body, scope) + Reports(orelse, scope)
    case For(targets, _, body, orelse) => Reports(body, scope + targets) + Reports(orelse, scope)
    case _ => []
  }

  /** Findings are kept in order, each (name, line) once. */
  function Record(findings: seq<Load>, loads: seq<Load>): seq<Load>
    decreases loads
  {
    if loads == [] then findings
    else Record(if loads[0] in findings then findings else findings + [loads[0]], loads[1..])
  }

  lemma {:induction false} RecordAppend(findings: seq<Load>, a: seq<Load>, b: seq<Load>)
    ensures Record(findings, a + b) == Record(Record(findings, a), b)
    decreases a
  {
    if a == [] {
      assert a + b == b;
    } else {
      assert (a + b)[1..] == a[1..] + b;
      RecordAppend(if a[0] in findings then findings else findings + [a[0]], a[1..], b);
    }
  }

  ghost predicate Distinct(loads: seq<Load>) {
    forall i, j :: 0 <= i < j < |loads| ==> loads[i] != loads[j]
  }

  /** Every report is recorded, nothing else is, and nothing is recorded twice. */
  lemma {:induction false} RecordKeeps(findings: seq<Load>, loads: seq<Load>)
    requires Distinct(findings)
    ensures Distinct(Record(findings, loads))
    ensures forall l :: l in Record(findings, loads) <==> l in findings || l in loads
    decreases loads
  {
    if loads != [] {
      RecordKeeps(if loads[0] in findings then findings else findings + [loads[0]], loads[1..]);
      assert loads == [loads[0]] + loads[1..];
    }
  }

  // ---------------------------------------------------------------- the pass, in place

  /** A scope is one mutable set, shared by reference down the statement list. */
  class Scope {
    var names: set<Name>

    constructor (names: set<Name>)
      ensures this.names == names
    {
      this.names := names;
    }
  }

  class UndefinedSymbols {
    var findings: seq<Load>
    var seen: set<Load>

    ghost predicate Valid()
      reads this
    {
      forall l :: l in seen <==> l in findings
    }

    constructor ()
      ensures Valid() && findings == []
    {
      findings, seen := [], {};
    }

    method ReportLoads(loads: seq<Load>, scope: set<Name>)
      requires Valid()
      modifies this
      ensures Valid()
      ensures findings == Record(old(findings), Without(loads, scope))
    {
      for i := 0 to |loads|
        invariant Valid()
        invariant Record(findings, Without(loads[i..], scope)) == Record(old(findings), Without(loads, scope))
      {
        assert loads[i..][1..] == loads[i + 1..];
        var load := loads[i];
        if load.name !in scope {
          var rest := Without(loads[i + 1..], scope);
          assert ([load] + rest)[1..] == rest;
          if load !in seen {
            seen := seen + {load};
            findings := findings + [load];
          }
        } else {
          assert [] + Without(loads[i + 1..], scope) == Without(loads[i + 1..], scope);
        }
      }
    }

    method AnalyzeBody(statements: seq<Stmt>, scope: Scope)
      requires Valid()
      modifies this, scope
      ensures Valid()
      ensures findings == Record(old(findings), Reports(statements, old(scope.names)))
      ensures scope.names == ScopeAfter(statements, old(scope.names))
      decreases statements
    {
      for i := 0 to |statements|
        invariant Valid()
        invariant Record(findings, Reports(statements[i..], scope.names))
          == Record(old(findings), Reports(statements, old(scope.names)))
        invariant ScopeAfter(statements[i..], scope.names) == ScopeAfter(statements, old(scope.names))
      {
        var s := statements[i];
        ghost var before, names := findings, scope.names;
        assert statements[i..][0] == s && statements[i..][1..] == statements[i + 1..];
        RecordAppend(before, StmtReports(s, names), Reports(statements[i + 1..], ScopeAfterStmt(s, names)));
        AnalyzeStatement(s, scope);
      }
    }

    method AnalyzeStatement(s: Stmt, scope: Scope)
      requires Valid()
      modifies this, scope
      ensures Valid()
      ensures findings == Record(old(findings), StmtReports(s, old(scope.names)))
      ensures scope.names == ScopeAfterStmt(s, old(scope.names))
      decreases s
    {
      ghost var before, names := findings, scope.names;
      if s.Import? {
        scope.names := scope.names + s.names;
      } else if s.For? {
        ghost var head, inBody := Without(Reads(s), names), Reports(s.body, names + s.targets);
        RecordAppend(before, head, inBody + Reports(s.orelse, names));
        RecordAppend(Record(before, head), inBody, Reports(s.orelse, names));
        ReportLoads(s.loads, scope.names);
        var loopScope := new Scope(scope.names + DirectStores(s));
        AnalyzeBody(s.body, loopScope);
        var elseScope := new Scope(scope.names);
        AnalyzeBody(s.orelse, elseScope);
      } else if s.If? {
        ghost var head, inBody := Without(Reads(s), names), Reports(s.body, names);
        RecordAppend(before, head, inBody + Reports(s.orelse, names));
        RecordAppend(Record(before, head), inBody, Reports(s.orelse, names));
        ReportLoads(s.loads, scope.names);
        var bodyScope := new Scope(scope.names);
        var elseScope := new Scope(scope.names);
        AnalyzeBody(s.body, bodyScope);
        AnalyzeBody(s.orelse, elseScope);
        scope.names := scope.names + bodyScope.names * elseScope.names;
      } else {
        assert Without(Reads(s), names) + [] == Without(Reads(s), names);
        ReportLoads(Reads(s), scope.names);
        scope.names := scope.names + DirectStores(s);
      }
    }
  }

  /** The whole pass over a module: its findings are exactly the reported reads. */
  method UndefinedSymbolFindings(program: seq<Stmt>, builtins: set<Name>) returns (findings: seq<Load>)
    ensures forall l :: l in findings <==> l in Reports(program, builtins)
    ensures findings == [] <==> Reports(program, builtins) == []
    ensures Distinct(findings)
  {
    var pass := new UndefinedSymbols();
    var moduleScope := new Scope(builtins);
    pass.AnalyzeBody(program, moduleScope);
    findings := pass.findings;
    var reports := Reports(program, builtins);
    RecordKeeps([], reports);
    assert reports != [] ==> reports[0] in reports;
    assert findings != [] ==> findings[0] in findings;
  }

  // ---------------------------------------------------------------- what a clean report is worth

  /** The names the pass insists on, and the names it goes on to take for granted. */
  function Asks(s: Stmt): set<Name>
    decreases s, 1
  {
    Names(Reads(s)) +
    match s
    case If(_, body, orelse) => BlockAsks(body) + BlockAsks(orelse)
    case For(targets, _, body, orelse) => (BlockAsks(body) - targets) + BlockAsks(orelse)
    case _ => {}
  }

  function Grants(s: Stmt): set<Name>
    decreases s, 1
  {
    match s
    case For(_, _, _, _) => {}
    case If(_, body, orelse) => BlockGrants(body) * BlockGrants(orelse)
    case _ => DirectStores(s)
  }

  function BlockAsks(ss: seq<Stmt>): set<Name>
    decreases ss, 0
  {
    if ss == [] then {} else Asks(ss[0]) + (BlockAsks(ss[1..]) - Grants(ss[0]))
  }

  function BlockGrants(ss: seq<Stmt>): set<Name>
    decreases ss, 0
  {
    if ss == [] then {} else Grants(ss[0]) + BlockGrants(ss[1..])
  }

  lemma {:induction false} WithoutNames(loads: seq<Load>, bound: set<Name>)
    ensures Names(Without(loads, bound)) == Names(loads) - bound
    ensures Without(loads, bound) == [] <==> Names(loads) <= bound
  {
    if loads != [] {
      WithoutNames(loads[1..], bound);
      var rest := Without(loads[1..], bound);
      assert Names(loads) == {loads[0].name} + Names(loads[1..]);
      if loads[0].name in bound {
        assert Without(loads, bound) == rest;
      } else {
        assert Without(loads, bound) == [loads[0]] + rest;
        assert Names([loads[0]] + rest) == {loads[0].name} + Names(rest) by {
          forall l | l in [loads[0]] + rest ensures l.name in {loads[0].name} + Names(rest) {}
          assert ([loads[0]] + rest)[0] == loads[0];
          forall l | l in rest ensures l in [loads[0]] + rest {}
        }
      }
    }
  }

  lemma {:induction false} StmtClean(s: Stmt, scope: set<Name>)
    ensures StmtReports(s, scope) == [] <==> Asks(s) <= scope
    ensures ScopeAfterStmt(s, scope) == scope + Grants(s)
    decreases s, 1
  {
    WithoutNames(Reads(s), scope);
    match s
    case If(_, body, orelse) =>
      BlockClean(body, scope);
      BlockClean(orelse, scope);
    case For(targets, _, body, orelse) =>
      BlockClean(body, scope + targets);
      BlockClean(orelse, scope);
    case _ =>
  }

  lemma {:induction false} BlockClean(ss: seq<Stmt>, scope: set<Name>)
    ensures Reports(ss, scope) == [] <==> BlockAsks(ss) <= scope
    ensures ScopeAfter(ss, scope) == scope + BlockGrants(ss)
    decreases ss, 0
  {
    if ss != [] {
      StmtClean(ss[0], scope);
      BlockClean(ss[1..], ScopeAfterStmt(ss[0], scope));
    }
  }

  /** For which programs is the pass right? A clean report means a safe program, whatever
      the builtins, exactly when the pass asks for everything the program needs. */
  lemma PassRightIff(program: seq<Stmt>)
    ensures (forall builtins :: Reports(program, builtins) == [] ==> Safe(program, builtins))
       <==> BlockFacts(program).needs <= BlockAsks(program)
  {
    forall builtins
      ensures Reports(program, builtins) == [] <==> BlockAsks(program) <= builtins
      ensures Safe(program, builtins) <==> BlockFacts(program).needs <= builtins
    {
      BlockClean(program, builtins);
      SafeIff(program, builtins);
    }
    assert Reports(program, BlockAsks(program)) == [];
  }

  /** And a safe program gets a clean report, whatever the builtins, exactly when the program
      needs everything the pass asks for. */
  lemma FindingsDeservedIff(program: seq<Stmt>)
    ensures (forall builtins :: Safe(program, builtins) ==> Reports(program, builtins) == [])
       <==> BlockAsks(program) <= BlockFacts(program).needs
  {
    forall builtins
      ensures Reports(program, builtins) == [] <==> BlockAsks(program) <= builtins
      ensures Safe(program, builtins) <==> BlockFacts(program).needs <= builtins
    {
      BlockClean(program, builtins);
      SafeIff(program, builtins);
    }
    assert Safe(program, BlockFacts(program).needs);
  }

  /** The statements the pass handles soundly: no bare annotation, an augmented assignment
      only where its right-hand side reads the target too, and a `while` only where the pass
      looks at all the `while` needs. */
  predicate Supported(s: Stmt)
    decreases s, 1
  {
    match s
    case Annotate(_, _) => false
    case AugAssign(target, loads, _) => target in Names(loads)
    case While(_, _, _) => FactsOf(s).needs <= Names(Reads(s))
    case If(_, body, orelse) => BlockSupported(body) && BlockSupported(orelse)
    case For(_, _, body, orelse) => BlockSupported(body) && BlockSupported(orelse)
    case _ => true
  }

  predicate BlockSupported(ss: seq<Stmt>)
    decreases ss, 0
  {
    ss == [] || (Supported(ss[0]) && BlockSupported(ss[1..]))
  }

  lemma ConcatNames(a: seq<Load>, b: seq<Load>)
    ensures Names(a + b) == Names(a) + Names(b)
  {
    forall l | l in a || l in b ensures l in a + b {}
  }

  lemma {:induction false} StmtSupported(s: Stmt)
    requires Supported(s)
    ensures FactsOf(s).needs <= Asks(s)
    ensures FactsOf(s).normal.Some? ==> Grants(s) <= FactsOf(s).normal.value
    decreases s, 1
  {
    match s
    case If(_, body, orelse) => SupportedBlock(body); SupportedBlock(orelse);
    case For(_, _, body, orelse) => SupportedBlock(body); SupportedBlock(orelse);
    case AugAssign(target, loads, line) => ConcatNames([Load(target, line)], loads); WithoutNames(loads, {});
    case While(_, _, _) =>
    case Import(_) =>
    case Break =>
    case Continue =>
    case Assign(_, loads) => WithoutNames(loads, {});
    case Annotate(_, loads) => WithoutNames(loads, {});
    case Expr(loads) => WithoutNames(loads, {});
    case Raise(loads) => WithoutNames(loads, {});
  }

  lemma {:induction false} SupportedBlock(ss: seq<Stmt>)
    requires BlockSupported(ss)
    ensures BlockFacts(ss).needs <= BlockAsks(ss)
    ensures BlockFacts(ss).normal.Some? ==> BlockGrants(ss) <= BlockFacts(ss).normal.value
    decreases ss, 0
  {
    if ss != [] {
      StmtSupported(ss[0]);
      SupportedBlock(ss[1..]);
    }
  }

  /** Soundness: no finding, no execution that reads an unbound name. */
  lemma CleanIsSafe(program: seq<Stmt>, builtins: set<Name>)
    requires BlockSupported(program)
    requires Reports(program, builtins) == []
    ensures Safe(program, builtins)
  {
    SupportedBlock(program);
    PassRightIff(program);
  }

  // ---------------------------------------------------------------- and what a finding is worth

  /** Programs without jumps, loop alternatives, `while`, augmented and bare assignments. */
  predicate Straight(s: Stmt)
    decreases s, 1
  {
    match s
    case Import(_) => true
    case Assign(_, _) => true
    case Expr(_) => true
    case If(_, body, orelse) => BlockStraight(body) && BlockStraight(orelse)
    case For(_, _, body, orelse) => BlockStraight(body) && orelse == []
    case _ => false
  }

  predicate BlockStraight(ss: seq<Stmt>)
    decreases ss, 0
  {
    ss == [] || (Straight(ss[0]) && BlockStraight(ss[1..]))
  }

  /** There the pass asks for exactly what is needed and grants exactly what is certain. */
  lemma {:induction false} StraightIsExact(s: Stmt)
    requires Straight(s)
    ensures FactsOf(s) == Facts(Asks(s), Some(Grants(s)), None, None)
    decreases s, 1
  {
    match s
    case Import(_) =>
    case Assign(_, loads) => WithoutNames(loads, {});
    case Expr(loads) => WithoutNames(loads, {});
    case If(_, body, orelse) =>
      StraightBlockIsExact(body);
      StraightBlockIsExact(orelse);
    case For(_, _, body, orelse) =>
      StraightBlockIsExact(body);
      ForIsExact(s);
  }

  lemma ForIsExact(s: Stmt)
    requires s.For? && s.orelse == []
    requires BlockFacts(s.body) == Facts(BlockAsks(s.body), Some(BlockGrants(s.body)), None, None)
    ensures FactsOf(s) == Facts(Asks(s), Some(Grants(s)), None, None)
  {
    assert BlockFacts(s.orelse) == Facts({}, Some({}), None, None) && BlockAsks(s.orelse) == {};
    assert LoopFacts(s) == Facts(Names(s.loads) + (BlockAsks(s.body) - s.targets) + {}, Some({}), None, None);
    assert Reads(s) == s.loads;
  }

  lemma {:induction false} StraightBlockIsExact(ss: seq<Stmt>)
    requires BlockStraight(ss)
    ensures BlockFacts(ss) == Facts(BlockAsks(ss), Some(BlockGrants(ss)), None, None)
    decreases ss, 0
  {
    if ss != [] {
      StraightIsExact(ss[0]);
      StraightBlockIsExact(ss[1..]);
    }
  }

  /** Precision: on these programs a clean report and safety are the same. */
  lemma StraightCleanIff(program: seq<Stmt>, builtins: set<Name>)
    requires BlockStraight(program)
    ensures Reports(program, builtins) == [] <==> Safe(program, builtins)
  {
    StraightBlockIsExact(program);
    BlockClean(program, builtins);
    SafeIff(program, builtins);
  }

  lemma {:induction false} FirstMissing(loads: seq<Load>, scope: set<Name>, env: set<Name>)
    requires scope <= env
    requires Without(loads, scope) != [] ==> Without(loads, scope)[0].name !in env
    ensures var missing := Without(loads, scope);
      FirstUnbound(loads, env) == if missing == [] then Normal else Unbound(missing[0])
  {
    if loads != [] && loads[0].name in scope {
      assert Without(loads, scope) == Without(loads[1..], scope);
      FirstMissing(loads[1..], scope, env);
    }
  }

  /** The first reported read fails in some execution, from any environment that extends the
      scope without binding it. */
  lemma {:induction false} StmtReportIsReal(s: Stmt, scope: set<Name>, env: set<Name>) returns (oracle: seq<bool>)
    requires Straight(s) && scope <= env && StmtReports(s, scope) != [] && StmtReports(s, scope)[0].name !in env
    ensures ExecStmt(s, env, oracle).exit == Unbound(StmtReports(s, scope)[0])
    decreases s, 1
  {
    oracle := [];
    var own := Without(Reads(s), scope);
    assert own != [] ==> StmtReports(s, scope)[0] == own[0];
    match s
    case Import(_) =>
    case Assign(_, loads) => WithoutNothing(loads); FirstMissing(loads, scope, env);
    case Expr(loads) => WithoutNothing(loads); FirstMissing(loads, scope, env);
    case If(loads, body, orelse) =>
      FirstMissing(loads, scope, env);
      if own == [] {
        var inBody := Reports(body, scope) != [];
        assert StmtReports(s, scope) == Reports(body, scope) + Reports(orelse, scope);
        var tail := ReportIsReal(if inBody then body else orelse, scope, env);
        oracle := [inBody] + tail;
        assert oracle[1..] == tail;
      }
    case For(targets, loads, body, orelse) =>
      FirstMissing(loads, scope, env);
      if own == [] {
        assert StmtReports(s, scope) == Reports(body, scope + targets);
        ReportedOutside(body, scope + targets);
        var tail := ReportIsReal(body, scope + targets, env + targets);
        oracle := [true] + tail;
        assert oracle[1..] == tail;
      }
  }

  lemma {:induction false} WithoutNothing(loads: seq<Load>)
    ensures Without(loads, {}) == loads
  {
    if loads != [] { WithoutNothing(loads[1..]); }
  }

  /** A read in the report is not in the scope. */
  lemma {:induction false} ReportedOutside(ss: seq<Stmt>, scope: set<Name>)
    ensures forall l :: l in Reports(ss, scope) ==> l.name !in scope
    decreases ss, 0
  {
    if ss != [] {
      StmtReportedOutside(ss[0], scope);
      ReportedOutside(ss[1..], ScopeAfterStmt(ss[0], scope));
      StmtClean(ss[0], scope);
    }
  }

  lemma {:induction false} StmtReportedOutside(s: Stmt, scope: set<Name>)
    ensures forall l :: l in StmtReports(s, scope) ==> l.name !in scope
    decreases s, 1
  {
    LeftOutside(Reads(s), scope);
    match s
    case If(_, body, orelse) =>
      ReportedOutside(body, scope);
      ReportedOutside(orelse, scope);
    case For(targets, _, body, orelse) =>
      ReportedOutside(body, scope + targets);
      ReportedOutside(orelse, scope);
    case _ =>
  }

  lemma {:induction false} LeftOutside(loads: seq<Load>, bound: set<Name>)
    ensures forall l :: l in Without(loads, bound) ==> l.name !in bound
  {
    if loads != [] { LeftOutside(loads[1..], bound); }
  }

  lemma {:induction false} ReportIsReal(ss: seq<Stmt>, scope: set<Name>, env: set<Name>) returns (oracle: seq<bool>)
    requires BlockStraight(ss) && scope <= env && Reports(ss, scope) != [] && Reports(ss, scope)[0].name !in env
    ensures ExecBlock(ss, env, oracle).exit == Unbound(Reports(ss, scope)[0])
    decreases ss, 0
  {
    var x := Reports(ss, scope)[0].name;
    if StmtReports(ss[0], scope) != [] {
      oracle := StmtReportIsReal(ss[0], scope, env);
    } else {
      var next := ScopeAfterStmt(ss[0], scope);
      assert Reports(ss, scope) == Reports(ss[1..], next);
      ReportedOutside(ss[1..], next);
      StmtClean(ss[0], scope);
      StraightIsExact(ss[0]);
      var first := StmtMisses(ss[0], env, Normal, x);
      StmtSafe(ss[0], env, first);
      var r := ExecStmt(ss[0], env, first);
      var second := ReportIsReal(ss[1..], next, r.env);
      StmtExtends(ss[0], env, first, second);
      assert [] + second == second;
      oracle := first + second;
    }
  }

  /** No false alarm: the first finding of a program is a read that some execution makes while
      the name is unbound. */
  lemma FirstFindingIsReal(program: seq<Stmt>, builtins: set<Name>) returns (oracle: seq<bool>)
    requires BlockStraight(program) && Reports(program, builtins) != []
    ensures ExecBlock(program, builtins, oracle).exit == Unbound(Reports(program, builtins)[0])
  {
    ReportedOutside(program, builtins);
    oracle := ReportIsReal(program, builtins, builtins);
  }

  /** Neither a `for` nor an augmented assignment anywhere inside. */
  predicate Plain(s: Stmt)
    decreases s, 1
  {
    match s
    case For(_, _, _, _) => false
    case AugAssign(_, _, _) => false
    case If(_, body, orelse) => BlockPlain(body) && BlockPlain(orelse)
    case While(_, body, orelse) => BlockPlain(body) && BlockPlain(orelse)
    case _ => true
  }

  predicate BlockPlain(ss: seq<Stmt>)
    decreases ss, 0
  {
    ss == [] || (Plain(ss[0]) && BlockPlain(ss[1..]))
  }

  lemma {:induction false} PlainNeeds(s: Stmt)
    requires Plain(s)
    ensures FactsOf(s).needs <= Names(AllLoads(s)) && LoopBound(s) == {}
    decreases s, 1
  {
    match s
    case If(loads, body, orelse) =>
      PlainBlockNeeds(body); PlainBlockNeeds(orelse);
      ConcatNames(loads, BlockLoads(body)); ConcatNames(loads + BlockLoads(body), BlockLoads(orelse));
    case While(loads, body, orelse) =>
      PlainBlockNeeds(body); PlainBlockNeeds(orelse);
      ConcatNames(loads, BlockLoads(body)); ConcatNames(loads + BlockLoads(body), BlockLoads(orelse));
    case _ =>
  }

  lemma {:induction false} PlainBlockNeeds(ss: seq<Stmt>)
    requires BlockPlain(ss)
    ensures BlockFacts(ss).needs <= Names(BlockLoads(ss)) && BlockLoopBound(ss) == {}
    decreases ss, 0
  {
    if ss != [] {
      PlainNeeds(ss[0]);
      PlainBlockNeeds(ss[1..]);
      ConcatNames(AllLoads(ss[0]), BlockLoads(ss[1..]));
    }
  }

  /** A `while` that holds no `for` and no augmented assignment is supported. */
  lemma PlainWhileSupported(s: Stmt)
    requires s.While? && Plain(s)
    ensures Supported(s)
  {
    PlainNeeds(s);
    WithoutNames(AllLoads(s), LoopBound(s));
  }

  // Outside that fragment a clean report can be wrong: three programs, each accepted by the
  // pass and each with an execution that reads `x` unbound.

  const BUILTINS: set<Name> := {"items", "int"}
  const READ_X: Stmt := Expr([Load("x", 3)])
  const LOOP: Stmt := For({"x"}, [Load("items", 2)], [], [])

  /** `while items: (for x in items: pass); x` */
  const FOR_IN_WHILE: seq<Stmt> := [While([Load("items", 1)], [LOOP, READ_X], [])]
  /** `x += 1; x` */
  const AUGMENTED: seq<Stmt> := [AugAssign("x", [], 1), READ_X]
  /** `x: int; x` */
  const BARE_ANNOTATION: seq<Stmt> := [Annotate("x", [Load("int", 1)]), READ_X]

  lemma ForInWhileClean()
    ensures Reports(FOR_IN_WHILE, BUILTINS) == []
  {
    var outer := FOR_IN_WHILE[0];
    assert outer.body[1..] == [READ_X] && [READ_X][1..] == [] && FOR_IN_WHILE[1..] == [];
    assert BlockLoads([READ_X]) == READ_X.loads;
    assert AllLoads(LOOP) == LOOP.loads;
    assert AllLoads(outer) == [Load("items", 1), Load("items", 2), Load("x", 3)];
    assert BlockLoopBound([READ_X]) == {};
    assert LoopBound(LOOP) == {"x"};
    assert LoopBound(outer) == {"x"};
    WithoutNames(AllLoads(outer), {"x"});
    WithoutNames(Reads(outer), BUILTINS);
  }

  /** Enter the `while`, find nothing to iterate over, read `x`. */
  lemma ForInWhileCrashes()
    ensures ExecBlock(FOR_IN_WHILE, BUILTINS, [true, false]).exit.Unbound?
  {
    var outer, oracle := FOR_IN_WHILE[0], [true, false];
    assert outer.body[1..] == [READ_X] && [READ_X][1..] == [] && FOR_IN_WHILE[1..] == [];
    assert oracle[1..] == [false] && [false][1..] == [];
    assert ExecStmt(LOOP, BUILTINS, [false]) == Run(Normal, BUILTINS, []);
    assert ExecBlock([READ_X], BUILTINS, []).exit == Unbound(Load("x", 3));
    assert ExecBlock(outer.body, BUILTINS, [false]).exit == Unbound(Load("x", 3));
    assert BUILTINS + Binds(outer) == BUILTINS;
    assert Iterate(outer, BUILTINS, oracle).exit.Unbound?;
  }

  lemma ForInWhileUnsafe()
    ensures Reports(FOR_IN_WHILE, BUILTINS) == [] && !Safe(FOR_IN_WHILE, BUILTINS)
  {
    ForInWhileClean();
    ForInWhileCrashes();
  }

  lemma AugmentedUnsafe()
    ensures Reports(AUGMENTED, BUILTINS) == [] && !Safe(AUGMENTED, BUILTINS)
  {
    assert AUGMENTED[1..] == [READ_X] && [READ_X][1..] == [];
    WithoutNames(Reads(AUGMENTED[0]), BUILTINS);
    WithoutNames(Reads(READ_X), BUILTINS + {"x"});
    assert Reports([READ_X], BUILTINS + {"x"}) == [];
    assert [Load("x", 1)] + [] == [Load("x", 1)];
    assert ExecStmt(AUGMENTED[0], BUILTINS, []).exit == Unbound(Load("x", 1));
    assert ExecBlock(AUGMENTED, BUILTINS, []).exit == Unbound(Load("x", 1));
  }

  lemma AnnotationClean()
    ensures Reports(BARE_ANNOTATION, BUILTINS) == []
  {
    assert BARE_ANNOTATION[1..] == [READ_X] && [READ_X][1..] == [];
    WithoutNames(Reads(BARE_ANNOTATION[0]), BUILTINS);
    WithoutNames(Reads(READ_X), BUILTINS + {"x"});
    assert Reports([READ_X], BUILTINS + {"x"}) == [];
  }

  lemma AnnotationUnsafe()
    ensures Reports(BARE_ANNOTATION, BUILTINS) == [] && !Safe(BARE_ANNOTATION, BUILTINS)
  {
    AnnotationClean();
    assert BARE_ANNOTATION[1..] == [READ_X] && [READ_X][1..] == [] && BUILTINS + {} == BUILTINS;
    assert ExecStmt(BARE_ANNOTATION[0], BUILTINS, []) == Run(Normal, BUILTINS, []);
    assert ExecBlock([READ_X], BUILTINS, []).exit == Unbound(Load("x", 3));
    assert ExecBlock(BARE_ANNOTATION, BUILTINS, []).exit == Unbound(Load("x", 3));
  }

  /** And a finding can be undeserved: `raise; x` */
  const UNREACHED: seq<Stmt> := [Raise([]), READ_X]

  lemma UnreachedReported()
    ensures Reports(UNREACHED, BUILTINS) == [Load("x", 3)] && Safe(UNREACHED, BUILTINS)
  {
    assert UNREACHED[1..] == [READ_X] && [READ_X][1..] == [];
    assert Without(Reads(READ_X), BUILTINS) == [Load("x", 3)] by { assert Reads(READ_X)[1..] == []; }
    assert Reports([READ_X], BUILTINS) == [Load("x", 3)];
    assert BUILTINS + {} == BUILTINS;
    forall oracle: seq<bool> ensures !ExecBlock(UNREACHED, BUILTINS, oracle).exit.Unbound? {
      assert ExecStmt(UNREACHED[0], BUILTINS, oracle).exit.Raised?;
    }
  }
}
