/** The perturbation analysis (app/hawkins_chaos.py): a score over seven dimensions, the
    verdict it falls under, how far small perturbations can move the one and when they cannot
    change the other, and what remains of confidence. Reals are exact. */
module ChaosStability {

  datatype Verdict = Block | Review | Allow

  datatype Authority = Low | Medium | High

  /** In order: confidence, support, contradiction, uncertainty, risk, context density and
      action pressure. */
  type Vector = v: seq<real> | |v| == 7 witness [0.0, 0.0, 0.0, 0.0, 0.0, 0.0, 0.0]

  /** Four hex digits of a digest. */
  type Word = x: int | 0 <= x <= 0xFFFF

  /** The digits of a digest that one step uses, one word for each dimension. */
  type Seed = s: seq<Word> | |s| == 7 witness [0, 0, 0, 0, 0, 0, 0]

  function Clamp(x: real): real {
    if x < 0.0 then 0.0 else if x > 1.0 then 1.0 else x
  }

  predicate Unit(x: real) {
    0.0 <= x <= 1.0
  }

  /** The base vector holds numbers in [0, 1]; each is clamped or a ratio where it is made. */
  predicate InUnit(v: Vector) {
    forall i :: 0 <= i < 7 ==> Unit(v[i])
  }

  // ---------------------------------------------------------------- the base vector

  /** What the status word of a piece of evidence counts as; the word lists are disjoint. */
  datatype Status = Supports | Contradicts | Uncertain | Other

  /** What a request comes to: the flags say whether the risk text and the action text are there
      and hold one of the alarming words. */
  datatype Request = Request(
    confidence: real, evidence: seq<Status>, gaps: bool, tags: nat, riskText: bool, riskWord: bool,
    contextLength: nat, acts: bool, actWord: bool)

  function Count(evidence: seq<Status>, s: Status): nat {
    if evidence == [] then 0 else (if evidence[0] == s then 1 else 0) + Count(evidence[1..], s)
  }

  function Ratio(evidence: seq<Status>, s: Status): real {
    if evidence == [] then 0.0 else Count(evidence, s) as real / |evidence| as real
  }

  function BaseVector(r: Request): Vector {
    var uncertainty := if r.evidence != [] then Ratio(r.evidence, Uncertain) else if r.gaps then 0.65 else 0.45;
    var risk := Clamp(0.12 * r.tags as real + (if r.riskText then 0.35 else 0.0));
    var density := Clamp(r.contextLength as real / 1200.0);
    var pressure := (if r.acts then 0.35 else 0.0) + (if r.actWord then 0.3 else 0.0);
    [Clamp(r.confidence), Ratio(r.evidence, Supports), Ratio(r.evidence, Contradicts), uncertainty,
     if r.riskWord then Clamp(risk + 0.25) else risk, density, Clamp(pressure)]
  }

  lemma {:induction false} CountIsMultiplicity(evidence: seq<Status>, s: Status)
    ensures Count(evidence, s) == multiset(evidence)[s]
  {
    if evidence != [] {
      assert evidence == [evidence[0]] + evidence[1..];
      CountIsMultiplicity(evidence[1..], s);
    }
  }

  function UpToOne(x: real): real {
    if x < 1.0 then x else 1.0
  }

  /** What each thing a request says adds to its base vector, one at a time. Without evidence no
      share is claimed and uncertainty is a matter of the gaps. */
  lemma ReasonsAddUp(r: Request)
    ensures BaseVector(r.(tags := 0, riskText := false, riskWord := false))[4] == 0.0
    ensures !r.riskWord ==> BaseVector(r.(tags := r.tags + 1))[4] == UpToOne(BaseVector(r)[4] + 0.12)
    ensures !r.riskWord && !r.riskText ==> BaseVector(r.(riskText := true))[4] == UpToOne(BaseVector(r)[4] + 0.35)
    ensures !r.riskWord ==> BaseVector(r.(riskWord := true))[4] == UpToOne(BaseVector(r)[4] + 0.25)
    ensures BaseVector(r.(acts := false, actWord := false))[6] == 0.0
    ensures !r.acts ==> BaseVector(r.(acts := true))[6] == BaseVector(r)[6] + 0.35
    ensures !r.actWord ==> BaseVector(r.(actWord := true))[6] == BaseVector(r)[6] + 0.3
    ensures r.evidence == [] ==>
      BaseVector(r)[1] == BaseVector(r)[2] == 0.0 && BaseVector(r)[3] == if r.gaps then 0.65 else 0.45
    ensures r.evidence != [] ==>
      var n, v := |r.evidence| as real, BaseVector(r);
      && v[1] == multiset(r.evidence)[Supports] as real / n
      && v[2] == multiset(r.evidence)[Contradicts] as real / n
      && v[3] == multiset(r.evidence)[Uncertain] as real / n
    ensures BaseVector(r)[5] == UpToOne(r.contextLength as real / 1200.0)
    ensures Unit(r.confidence) ==> BaseVector(r)[0] == r.confidence
  {
    forall s ensures Count(r.evidence, s) == multiset(r.evidence)[s] { CountIsMultiplicity(r.evidence, s); }
  }

  /** The three shares of the evidence. */
  predicate Plausible(v: Vector) {
    InUnit(v) && v[1] + v[2] + v[3] <= 1.0
  }

  lemma {:induction false} CountsAddUp(evidence: seq<Status>)
    ensures Count(evidence, Supports) + Count(evidence, Contradicts) + Count(evidence, Uncertain) <= |evidence|
  {
    if evidence != [] { CountsAddUp(evidence[1..]); }
  }

  lemma Cancel(x: real, y: real, m: real)
    requires m > 0.0 && x * m <= y * m
    ensures x <= y
  {
    assert x > y ==> (x - y) * m > 0.0;
  }

  lemma SharesAddUp(a: nat, b: nat, c: nat, n: nat)
    requires 0 < n && a + b + c <= n
    ensures var x, y, z := a as real / n as real, b as real / n as real, c as real / n as real;
      Unit(x) && Unit(y) && Unit(z) && x + y + z <= 1.0
  {
    var m := n as real;
    var x, y, z := a as real / m, b as real / m, c as real / m;
    assert x * m == a as real && y * m == b as real && z * m == c as real;
    Cancel(0.0, x, m);
    Cancel(0.0, y, m);
    Cancel(0.0, z, m);
    assert (x + y + z) * m == x * m + y * m + z * m;
    Cancel(x + y + z, 1.0, m);
  }

  /** Every base vector is plausible. */
  lemma BaseIsPlausible(r: Request)
    ensures Plausible(BaseVector(r))
  {
    CountsAddUp(r.evidence);
    if r.evidence != [] {
      var a, b, c := Count(r.evidence, Supports), Count(r.evidence, Contradicts), Count(r.evidence, Uncertain);
      SharesAddUp(a, b, c, |r.evidence|);
    }
    assert |BaseVector(r)| == 7;
  }

  // ---------------------------------------------------------------- score and verdict

  function Raw(v: Vector): real {
    0.46 * v[0] + 0.24 * v[1] + 0.08 * v[5] - 0.42 * v[2] - 0.23 * v[3] - 0.19 * v[4] - 0.12 * v[6]
  }

  function Score(v: Vector): real {
    Clamp(Raw(v))
  }

  function Decide(score: real): Verdict {
    if score >= 0.62 then Allow else if score >= 0.38 then Review else Block
  }

  /** The better the score, the better the verdict, by two thresholds. */
  lemma VerdictIff(score: real)
    ensures Decide(score) == Allow <==> score >= 0.62
    ensures Decide(score) == Block <==> score < 0.38
  {
  }

  // ---------------------------------------------------------------- perturbations

  /** A word scaled to [-1, 1]. */
  function Offset(word: Word): real {
    (word as real / 65535.0) * 2.0 - 1.0
  }

  /** One dimension after one step. */
  function Shifted(x: real, word: Word, epsilon: real): real {
    Clamp(x + Offset(word) * epsilon)
  }

  function Perturbed(base: Vector, seed: Seed, epsilon: real): Vector {
    seq(7, i requires 0 <= i < 7 => Shifted(base[i], seed[i], epsilon))
  }

  function VerdictAfter(base: Vector, seed: Seed, epsilon: real): Verdict {
    Decide(Score(Perturbed(base, seed, epsilon)))
  }

  /** Rounding to six digits, ties to even. */
  function Round6(x: real): (r: real)
    ensures -0.0000005 <= r - x <= 0.0000005
  {
    var scaled := x * 1000000.0;
    var low := scaled.Floor;
    var part := scaled - low as real;
    var n := if part < 0.5 || (part == 0.5 && low % 2 == 0) then low else low + 1;
    n as real / 1000000.0
  }

  /** How far a number is from `m` millionths, in millionths. */
  function Off(x: real, m: int): real {
    var d := x * 1000000.0 - m as real;
    if d < 0.0 then -d else d
  }

  /** The nearest multiple of a millionth, and of two the even one. */
  lemma RoundIsNearest(x: real) returns (n: int)
    ensures Round6(x) == n as real / 1000000.0
    ensures forall m: int :: Off(x, n) <= Off(x, m)
    ensures Off(x, n) == 0.5 ==> n % 2 == 0
  {
    var scaled := x * 1000000.0;
    var low := scaled.Floor;
    var part := scaled - low as real;
    n := if part < 0.5 || (part == 0.5 && low % 2 == 0) then low else low + 1;
    forall m: int ensures Off(x, n) <= Off(x, m) {
      assert m <= low || m >= low + 1;
    }
  }

  /** A point as it is reported: only the verdict comes from the score as it is. */
  datatype Point = Point(score: real, verdict: Verdict, delta: real)

  function PointAt(base: Vector, seed: Seed, epsilon: real): Point {
    var score := Score(Perturbed(base, seed, epsilon));
    Point(Round6(score), Decide(score), Round6(score - Score(base)))
  }

  /** One point for each seed; the dimensions are shifted one at a time. */
  method Trajectory(base: Vector, seeds: seq<Seed>, epsilon: real) returns (points: seq<Point>)
    ensures |points| == |seeds|
    ensures forall i :: 0 <= i < |seeds| ==> points[i] == PointAt(base, seeds[i], epsilon)
    ensures forall i :: 0 <= i < |seeds| ==> points[i].verdict == VerdictAfter(base, seeds[i], epsilon)
  {
    points := [];
    for index := 0 to |seeds|
      invariant |points| == index
      invariant forall i :: 0 <= i < index ==> points[i] == PointAt(base, seeds[i], epsilon)
    {
      var vector := base;
      for dimension := 0 to 7
        invariant forall i :: 0 <= i < dimension ==> vector[i] == Perturbed(base, seeds[index], epsilon)[i]
        invariant forall i :: dimension <= i < 7 ==> vector[i] == base[i]
      {
        var offset := Offset(seeds[index][dimension]) * epsilon;
        vector := vector[dimension := Clamp(vector[dimension] + offset)];
      }
      assert vector == Perturbed(base, seeds[index], epsilon);
      var score := Score(vector);
      points := points + [Point(Round6(score), Decide(score), Round6(score - Score(base)))];
    }
  }

  /** How many points carry a verdict. */
  function Tally(points: seq<Point>, verdict: Verdict): nat {
    if points == [] then 0 else (if points[0].verdict == verdict then 1 else 0) + Tally(points[1..], verdict)
  }

  /** How many points leave the base verdict. */
  function Flips(points: seq<Point>, base: Verdict): nat {
    if points == [] then 0 else (if points[0].verdict != base then 1 else 0) + Flips(points[1..], base)
  }

  function Largest(points: seq<Point>): nat {
    var most := if Tally(points, Block) >= Tally(points, Review) then Tally(points, Block) else Tally(points, Review);
    if most >= Tally(points, Allow) then most else Tally(points, Allow)
  }

  lemma {:induction false} TalliesAdd(points: seq<Point>, base: Verdict)
    ensures Tally(points, Block) + Tally(points, Review) + Tally(points, Allow) == |points|
    ensures Flips(points, base) == |points| - Tally(points, base)
    ensures Flips(points, base) == 0 <==> forall i :: 0 <= i < |points| ==> points[i].verdict == base
  {
    if points != [] {
      TalliesAdd(points[1..], base);
      assert forall i :: 0 < i < |points| ==> points[i] == points[1..][i - 1];
      assert forall i :: 0 <= i < |points| - 1 ==> points[1..][i] == points[i + 1];
    }
  }

  // ---------------------------------------------------------------- the extreme corners

  /** The seeds that shift every dimension by all of epsilon, for the score and against it. */
  function Best(): Seed { [0xFFFF, 0xFFFF, 0, 0, 0, 0xFFFF, 0] }
  function Worst(): Seed { [0, 0, 0xFFFF, 0xFFFF, 0xFFFF, 0, 0xFFFF] }

  lemma ScaledGrows(x: real, y: real, epsilon: real)
    requires x <= y && epsilon >= 0.0
    ensures x * epsilon <= y * epsilon
  {
    assert (y - x) * epsilon >= 0.0;
  }

  /** A larger word never lowers a dimension. */
  lemma ShiftGrows(x: real, v: Word, w: Word, epsilon: real)
    requires v <= w && epsilon >= 0.0
    ensures Shifted(x, v, epsilon) <= Shifted(x, w, epsilon)
  {
    assert v as real / 65535.0 <= w as real / 65535.0;
    ScaledGrows(Offset(v), Offset(w), epsilon);
  }

  lemma ShiftEnds(x: real, epsilon: real)
    ensures Shifted(x, 0, epsilon) == Clamp(x - epsilon) && Shifted(x, 0xFFFF, epsilon) == Clamp(x + epsilon)
  {
    assert Offset(0) == -1.0 && Offset(0xFFFF) == 1.0;
  }

  lemma ShiftNear(x: real, w: Word, epsilon: real)
    requires Unit(x) && epsilon >= 0.0
    ensures -epsilon <= Shifted(x, w, epsilon) - x <= epsilon
  {
    ShiftEnds(x, epsilon);
    ShiftGrows(x, 0, w, epsilon);
    ShiftGrows(x, w, 0xFFFF, epsilon);
  }

  /** `w` is at least as favourable as `v` in every dimension. */
  predicate Favours(v: Vector, w: Vector) {
    v[0] <= w[0] && v[1] <= w[1] && v[2] >= w[2] && v[3] >= w[3] && v[4] >= w[4] && v[5] <= w[5] && v[6] >= w[6]
  }

  lemma ScoreMonotone(v: Vector, w: Vector)
    requires Favours(v, w)
    ensures Score(v) <= Score(w)
  {
    assert Raw(v) <= Raw(w);
  }

  lemma BestFavours(base: Vector, seed: Seed, epsilon: real)
    requires epsilon >= 0.0
    ensures Favours(Perturbed(base, seed, epsilon), Perturbed(base, Best(), epsilon))
  {
    forall i: nat | i in {0, 1, 5} ensures Perturbed(base, seed, epsilon)[i] <= Perturbed(base, Best(), epsilon)[i] {
      ShiftGrows(base[i], seed[i], Best()[i], epsilon);
    }
    forall i: nat | i in {2, 3, 4, 6} ensures Perturbed(base, seed, epsilon)[i] >= Perturbed(base, Best(), epsilon)[i] {
      ShiftGrows(base[i], Best()[i], seed[i], epsilon);
    }
  }

  lemma WorstFavours(base: Vector, seed: Seed, epsilon: real)
    requires epsilon >= 0.0
    ensures Favours(Perturbed(base, Worst(), epsilon), Perturbed(base, seed, epsilon))
  {
    forall i: nat | i in {0, 1, 5} ensures Perturbed(base, Worst(), epsilon)[i] <= Perturbed(base, seed, epsilon)[i] {
      ShiftGrows(base[i], Worst()[i], seed[i], epsilon);
    }
    forall i: nat | i in {2, 3, 4, 6}
      ensures Perturbed(base, Worst(), epsilon)[i] >= Perturbed(base, seed, epsilon)[i]
    {
      ShiftGrows(base[i], seed[i], Worst()[i], epsilon);
    }
  }

  /** Every perturbed score lies between those of the two corners. */
  lemma ScoreBetweenCorners(base: Vector, seed: Seed, epsilon: real)
    requires epsilon >= 0.0
    ensures Score(Perturbed(base, Worst(), epsilon)) <= Score(Perturbed(base, seed, epsilon))
      <= Score(Perturbed(base, Best(), epsilon))
  {
    BestFavours(base, seed, epsilon);
    WorstFavours(base, seed, epsilon);
    ScoreMonotone(Perturbed(base, Worst(), epsilon), Perturbed(base, seed, epsilon));
    ScoreMonotone(Perturbed(base, seed, epsilon), Perturbed(base, Best(), epsilon));
  }

  /** Exactly when the verdict is stable: no digest whatever flips it if and only if neither
      corner does. */
  lemma NoFlipsIff(base: Vector, epsilon: real)
    requires epsilon >= 0.0
    ensures (forall seed :: VerdictAfter(base, seed, epsilon) == Decide(Score(base)))
      <==> VerdictAfter(base, Worst(), epsilon) == Decide(Score(base)) == VerdictAfter(base, Best(), epsilon)
  {
    forall seed
      ensures VerdictAfter(base, Worst(), epsilon) == Decide(Score(base)) == VerdictAfter(base, Best(), epsilon)
        ==> VerdictAfter(base, seed, epsilon) == Decide(Score(base))
    {
      ScoreBetweenCorners(base, seed, epsilon);
    }
  }

  // ---------------------------------------------------------------- the stability margin

  /** No dimension differs by more than `epsilon`. */
  predicate Near(v: Vector, w: Vector, epsilon: real) {
    forall i :: 0 <= i < 7 ==> -epsilon <= v[i] - w[i] <= epsilon
  }

  /** The weights sum to 1.74, so near vectors have near scores. */
  lemma NearScores(v: Vector, w: Vector, epsilon: real)
    requires Near(v, w, epsilon)
    ensures -1.74 * epsilon <= Score(v) - Score(w) <= 1.74 * epsilon
  {
    var d := seq(7, i requires 0 <= i < 7 => v[i] - w[i]);
    assert Raw(v) - Raw(w) == 0.46 * d[0] + 0.24 * d[1]
      + 0.08 * d[5] - 0.42 * d[2] - 0.23 * d[3] - 0.19 * d[4] - 0.12 * d[6];
    assert -1.74 * epsilon <= Raw(v) - Raw(w) <= 1.74 * epsilon;
  }

  lemma PerturbedNear(base: Vector, seed: Seed, epsilon: real)
    requires InUnit(base) && epsilon >= 0.0
    ensures Near(Perturbed(base, seed, epsilon), base, epsilon)
  {
    forall i | 0 <= i < 7 ensures -epsilon <= Perturbed(base, seed, epsilon)[i] - base[i] <= epsilon {
      ShiftNear(base[i], seed[i], epsilon);
    }
  }

  predicate Apart(score: real, threshold: real, margin: real) {
    score - threshold > margin || threshold - score > margin
  }

  /** The stability margin: every perturbed score is within 1.74 epsilon of the base score, so
      a base score farther than that from both thresholds keeps its verdict. */
  lemma StabilityMargin(base: Vector, seed: Seed, epsilon: real)
    requires InUnit(base) && epsilon >= 0.0
    ensures -1.74 * epsilon <= Score(Perturbed(base, seed, epsilon)) - Score(base) <= 1.74 * epsilon
    ensures Apart(Score(base), 0.38, 1.74 * epsilon) && Apart(Score(base), 0.62, 1.74 * epsilon) ==>
      VerdictAfter(base, seed, epsilon) == Decide(Score(base))
  {
    PerturbedNear(base, seed, epsilon);
    NearScores(Perturbed(base, seed, epsilon), base, epsilon);
  }

  lemma ScoreRange(v: Vector)
    requires InUnit(v)
    ensures 0.0 <= Score(v) <= 0.78
  {
    assert Unit(v[0]) && Unit(v[1]) && Unit(v[2]) && Unit(v[3]) && Unit(v[4]) && Unit(v[5]) && Unit(v[6]);
  }

  lemma PerturbedInUnit(base: Vector, seed: Seed, epsilon: real)
    ensures InUnit(Perturbed(base, seed, epsilon))
  {
  }

  /** The farthest a score can move: 1.74 epsilon, or from one end of its range to the other. */
  function Reach(epsilon: real): real {
    if 1.74 * epsilon <= 0.78 then 1.74 * epsilon else 0.78
  }

  /** No score moves farther. */
  lemma ReachIsBound(base: Vector, seed: Seed, epsilon: real)
    requires InUnit(base) && epsilon >= 0.0
    ensures -Reach(epsilon) <= Score(Perturbed(base, seed, epsilon)) - Score(base) <= Reach(epsilon)
  {
    StabilityMargin(base, seed, epsilon);
    PerturbedInUnit(base, seed, epsilon);
    ScoreRange(base);
    ScoreRange(Perturbed(base, seed, epsilon));
  }

  /** Downwards some base vector moves that far, for every epsilon the source admits. */
  lemma DownReachIsAttained(epsilon: real) returns (r: Request)
    requires 0.0 <= epsilon <= 0.5
    ensures Score(Perturbed(BaseVector(r), Worst(), epsilon)) - Score(BaseVector(r)) == -Reach(epsilon)
  {
    r := Request(1.0, [Supports], false, 0, false, false, 1200, false, false);
    assert Count([Supports], Supports) == 1 && Count([Supports], Contradicts) == 0 && Count([Supports], Uncertain) == 0;
    assert Ratio([Supports], Supports) == 1.0;
    assert Ratio([Supports], Contradicts) == 0.0 && Ratio([Supports], Uncertain) == 0.0;
    assert BaseVector(r) == [1.0, 1.0, 0.0, 0.0, 0.0, 1.0, 0.0];
    ShiftEnds(1.0, epsilon);
    ShiftEnds(0.0, epsilon);
    var d := 1.0 - epsilon;
    assert Perturbed(BaseVector(r), Worst(), epsilon) == [d, d, epsilon, epsilon, epsilon, d, epsilon];
  }

  /** Upwards the shares stand in each other's way: what rises in one must be taken from the
      others, so beyond 78/198 the full 1.74 epsilon is out of reach. */
  function UpReach(epsilon: real): real {
    if 1.98 * epsilon <= 0.78 then 1.74 * epsilon else 1.74 * epsilon - (23.0 / 47.0) * (1.98 * epsilon - 0.78)
  }

  /** No plausible score moves farther up, whatever the digest. */
  lemma UpReachIsBound(base: Vector, seed: Seed, epsilon: real)
    requires Plausible(base) && 0.0 <= epsilon <= 0.5
    ensures Score(Perturbed(base, seed, epsilon)) - Score(base) <= UpReach(epsilon)
  {
    ScoreBetweenCorners(base, seed, epsilon);
    StabilityMargin(base, Best(), epsilon);
    if 1.98 * epsilon > 0.78 {
      var w := Perturbed(base, Best(), epsilon);
      BestMoves(base, epsilon);
      WeighedMove(base, w, epsilon);
      ScoreAtLeast(base, 24.0 / 47.0);
    }
  }

  /** What the best corner can do to each dimension. */
  predicate MovedUp(v: Vector, w: Vector, epsilon: real) {
    && w[0] <= 1.0 && w[0] <= v[0] + epsilon && w[5] <= 1.0 && w[5] <= v[5] + epsilon && w[1] <= v[1] + epsilon
    && w[2] >= 0.0 && w[2] >= v[2] - epsilon && w[3] >= 0.0 && w[3] >= v[3] - epsilon
    && w[4] >= 0.0 && w[4] >= v[4] - epsilon && w[6] >= 0.0 && w[6] >= v[6] - epsilon
  }

  lemma BestMoves(v: Vector, epsilon: real)
    requires InUnit(v) && epsilon >= 0.0
    ensures MovedUp(v, Perturbed(v, Best(), epsilon), epsilon)
  {
    PerturbedInUnit(v, Best(), epsilon);
    PerturbedNear(v, Best(), epsilon);
    assert forall i :: 0 <= i < 7 ==> Unit(Perturbed(v, Best(), epsilon)[i]);
  }

  /** The weights at which support pays for uncertainty. */
  lemma WeighedMove(v: Vector, w: Vector, epsilon: real)
    requires Plausible(v) && MovedUp(v, w, epsilon) && epsilon >= 0.0
    ensures 47.0 * Raw(w) - 24.0 * Raw(v) <= 17.94 + 36.24 * epsilon
  {
    assert 47.0 * w[0] - 24.0 * v[0] <= 23.0 + 24.0 * epsilon && 47.0 * w[5] - 24.0 * v[5] <= 23.0 + 24.0 * epsilon;
    assert 47.0 * w[1] - 24.0 * v[1] <= 23.0 * v[1] + 47.0 * epsilon;
    assert 0.24 * 23.0 * (v[1] + v[2] + v[3]) <= 0.24 * 23.0;
    assert 0.42 * (24.0 * v[2] - 47.0 * w[2]) - 5.52 * v[2] <= 4.56 * epsilon;
    assert 0.23 * (24.0 * v[3] - 47.0 * w[3]) - 5.52 * v[3] <= 0.0;
    assert 24.0 * v[4] - 47.0 * w[4] <= 24.0 * epsilon && 24.0 * v[6] - 47.0 * w[6] <= 24.0 * epsilon;
  }

  lemma ScoreAtLeast(v: Vector, share: real)
    requires Unit(share) && InUnit(v)
    ensures share * Raw(v) <= Score(v)
  {
    ScoreRange(v);
    if Raw(v) >= 0.0 { ProductDrops(Raw(v), share); } else { assert share * Raw(v) <= 0.0; }
  }

  /** And some plausible score moves that far. */
  lemma UpReachIsAttained(epsilon: real) returns (base: Vector)
    requires 0.0 <= epsilon <= 0.5
    ensures Plausible(base) && Score(Perturbed(base, Best(), epsilon)) - Score(base) == UpReach(epsilon)
  {
    var e := epsilon;
    var x := if 1.98 * e <= 0.78 then 0.0 else (1.98 * e - 0.78) / 0.47;
    assert 0.0 <= x <= e;
    base := [1.0 - e, 1.0 - e - (e - x), e, e - x, e, 1.0 - e, e];
    ShiftEnds(1.0 - e, e);
    ShiftEnds(e, e);
    ShiftEnds(1.0 - e - (e - x), e);
    ShiftEnds(e - x, e);
    assert Perturbed(base, Best(), e) == [1.0, 1.0 - (e - x), 0.0, 0.0, 0.0, 1.0, 0.0];
    assert Raw(base) == 0.78 - 1.98 * e + 0.47 * x;
  }

  ghost predicate MovesBothWays(base: Vector, epsilon: real) {
    && Plausible(base)
    && Score(Perturbed(base, Best(), epsilon)) == Score(base) + 1.74 * epsilon
    && Score(Perturbed(base, Worst(), epsilon)) == Score(base) - 1.74 * epsilon
  }

  /** The whole margin of 1.74 epsilon is used on both sides of one plausible score exactly when
      epsilon is at most 78/372. */
  lemma BothWaysIff(epsilon: real)
    requires 0.0 <= epsilon <= 0.5
    ensures (exists base :: MovesBothWays(base, epsilon)) <==> 3.72 * epsilon <= 0.78
  {
    if base :| MovesBothWays(base, epsilon) { FullMoveNeedsRoom(base, epsilon); }
    if 3.72 * epsilon <= 0.78 { RoomForBoth(epsilon); }
  }

  lemma FullMoveNeedsRoom(base: Vector, epsilon: real)
    requires MovesBothWays(base, epsilon) && epsilon >= 0.0
    ensures 3.72 * epsilon <= 0.78
  {
    var w := Perturbed(base, Best(), epsilon);
    BestMoves(base, epsilon);
    PerturbedInUnit(base, Worst(), epsilon);
    PerturbedInUnit(base, Best(), epsilon);
    ScoreRange(base);
    ScoreRange(w);
    ScoreRange(Perturbed(base, Worst(), epsilon));
    if epsilon > 0.0 {
      assert Raw(w) - Raw(base) == 1.74 * epsilon;
      AllFull(base, w, epsilon);
    }
  }

  /** A move of 1.74 epsilon uses every dimension fully. */
  lemma AllFull(v: Vector, w: Vector, epsilon: real)
    requires MovedUp(v, w, epsilon) && Raw(w) - Raw(v) == 1.74 * epsilon
    ensures v[0] <= 1.0 - epsilon && v[5] <= 1.0 - epsilon
    ensures v[2] >= epsilon && v[3] >= epsilon && v[4] >= epsilon && v[6] >= epsilon
  {
    var d := [w[0] - v[0], w[1] - v[1], v[2] - w[2], v[3] - w[3], v[4] - w[4], w[5] - v[5], v[6] - w[6]];
    assert Raw(w) - Raw(v)
      == 0.46 * d[0] + 0.24 * d[1] + 0.08 * d[5] + 0.42 * d[2] + 0.23 * d[3] + 0.19 * d[4] + 0.12 * d[6];
    assert d[0] == epsilon && d[2] == epsilon && d[3] == epsilon;
    assert d[4] == epsilon && d[5] == epsilon && d[6] == epsilon;
  }

  lemma RoomForBoth(epsilon: real)
    requires 0.0 <= epsilon && 3.72 * epsilon <= 0.78
    ensures exists base :: MovesBothWays(base, epsilon)
  {
    var e := epsilon;
    var base: Vector := [1.0 - e, 1.0 - 2.0 * e, e, e, e, 1.0 - e, e];
    ShiftEnds(1.0 - e, e);
    ShiftEnds(1.0 - 2.0 * e, e);
    ShiftEnds(e, e);
    assert Perturbed(base, Best(), e) == [1.0, 1.0 - e, 0.0, 0.0, 0.0, 1.0, 0.0];
    var d := 2.0 * e;
    assert Perturbed(base, Worst(), e) == [1.0 - d, 1.0 - 3.0 * e, d, d, d, 1.0 - d, d];
    assert Raw(base) == 0.78 - 1.98 * e && Raw(Perturbed(base, Worst(), e)) == 0.78 - 3.72 * e;
    assert MovesBothWays(base, e);
  }

  // ---------------------------------------------------------------- effective confidence

  function Risk(points: seq<Point>, base: Verdict): real
    requires points != []
  {
    Flips(points, base) as real / |points| as real
  }

  function Attractor(points: seq<Point>): real
    requires points != []
  {
    Largest(points) as real / |points| as real
  }

  /** The stability multiplier; the spread-based terms enter as the clamped values they are. */
  function Stability(points: seq<Point>, base: Verdict, convergence: real, divergence: real): real
    requires points != []
  {
    var risk := Risk(points, base);
    Clamp(((1.0 - risk) + Attractor(points) + convergence + (1.0 - risk) + (1.0 - divergence)) / 5.0)
  }

  function EffectiveAuthority(base: Verdict, confidence: real, stability: real, risk: real): Authority {
    if base == Block then Low
    else if confidence >= 0.78 && stability >= 0.8 && risk <= 0.1 then High
    else if confidence >= 0.45 && stability >= 0.55 && risk <= 0.35 then Medium
    else Low
  }

  /** Which authority is left: none under a blocking verdict, and else by the three thresholds. */
  lemma AuthorityIff(base: Verdict, confidence: real, stability: real, risk: real)
    ensures var a := EffectiveAuthority(base, confidence, stability, risk);
      && (a == High <==> base != Block && confidence >= 0.78 && stability >= 0.8 && risk <= 0.1)
      && (a == Low <==> base == Block || confidence < 0.45 || stability < 0.55 || risk > 0.35)
  {
  }

  /** Stability is the mean of five numbers, the share of points that keep the verdict twice. */
  lemma StabilityIsMean(points: seq<Point>, base: Verdict, convergence: real, divergence: real)
    requires points != [] && Unit(convergence) && Unit(divergence)
    ensures var kept := |points| - Flips(points, base);
      5.0 * Stability(points, base, convergence, divergence)
      == 2.0 * (kept as real / |points| as real) + Largest(points) as real / |points| as real
         + convergence + 1.0 - divergence
  {
    var n := |points| as real;
    TalliesAdd(points, base);
    var f, l := Flips(points, base), Largest(points);
    SharesAddUp(f, 0, 0, |points|);
    SharesAddUp(l, 0, 0, |points|);
    SharesSplit(|points| - f, f, |points|);
    assert l <= |points|;
    var kept := |points| - f;
    assert kept as real / n == 1.0 - Risk(points, base);
    assert Unit(Attractor(points)) && Unit(Risk(points, base));
    MeanOfFive(Risk(points, base), Attractor(points), convergence, divergence);
    var s := Stability(points, base, convergence, divergence);
    assert 5.0 * s == 2.0 * (1.0 - Risk(points, base)) + Attractor(points) + convergence + 1.0 - divergence;
  }

  lemma MeanOfFive(risk: real, attractor: real, convergence: real, divergence: real)
    requires Unit(risk) && Unit(attractor) && Unit(convergence) && Unit(divergence)
    ensures 5.0 * Clamp(((1.0 - risk) + attractor + convergence + (1.0 - risk) + (1.0 - divergence)) / 5.0)
      == 2.0 * (1.0 - risk) + attractor + convergence + 1.0 - divergence
  {
  }

  lemma SharesSplit(a: nat, b: nat, n: nat)
    requires 0 < n && a + b == n
    ensures a as real / n as real == 1.0 - b as real / n as real
  {
    var m := n as real;
    var x, y := a as real / m, b as real / m;
    assert x * m == a as real && y * m == b as real;
    SumIsOne(x, y, a as real, b as real, m);
  }

  lemma SumIsOne(x: real, y: real, a: real, b: real, m: real)
    requires m > 0.0 && x * m == a && y * m == b && a + b == m
    ensures x + y == 1.0
  {
    var d := x + y - 1.0;
    assert d * m == x * m + y * m - m;
    assert d > 0.0 ==> d * m > 0.0;
    assert d < 0.0 ==> (-d) * m > 0.0;
  }

  /** A base score outside the margin: no flips, so bifurcation risk 0 and attractor
      strength 1, whatever the digests and however many. */
  lemma StableRun(base: Vector, seeds: seq<Seed>, epsilon: real, points: seq<Point>)
    requires InUnit(base) && epsilon >= 0.0 && seeds != [] && |points| == |seeds|
    requires forall i :: 0 <= i < |seeds| ==> points[i].verdict == VerdictAfter(base, seeds[i], epsilon)
    requires Apart(Score(base), 0.38, 1.74 * epsilon) && Apart(Score(base), 0.62, 1.74 * epsilon)
    ensures Flips(points, Decide(Score(base))) == 0
    ensures Risk(points, Decide(Score(base))) == 0.0 && Attractor(points) == 1.0
    ensures forall convergence, divergence :: Unit(convergence) && Unit(divergence) ==>
      Stability(points, Decide(Score(base)), convergence, divergence) == (4.0 + convergence - divergence) / 5.0
  {
    forall i | 0 <= i < |points| ensures points[i].verdict == Decide(Score(base)) {
      StabilityMargin(base, seeds[i], epsilon);
    }
    TalliesAdd(points, Decide(Score(base)));
    assert Largest(points) == |points|;
    WholeRatio(|points|);
  }

  lemma WholeRatio(n: nat)
    requires n > 0
    ensures n as real / n as real == 1.0 && 0 as real / n as real == 0.0
  {
  }

  lemma ProductDrops(x: real, s: real)
    requires Unit(x) && Unit(s)
    ensures 0.0 <= x * s <= x
  {
    assert x * s + x * (1.0 - s) == x;
  }

  lemma EffectiveDrops(confidence: real, s: real)
    requires Unit(confidence) && Unit(s)
    ensures 0.0 <= Clamp(confidence * s) <= confidence
  {
    ProductDrops(confidence, s);
  }

  /** Instability can only lower confidence: no authority is reached that the base verdict and
      the base confidence would not have allowed. */
  lemma ConfidenceOnlyDrops(confidence: real, points: seq<Point>, base: Verdict, convergence: real, divergence: real)
    requires Unit(confidence) && points != []
    ensures var s := Stability(points, base, convergence, divergence); var effective := Clamp(confidence * s);
      && 0.0 <= effective <= confidence
      && (EffectiveAuthority(base, effective, s, Risk(points, base)) == High ==> confidence >= 0.78 && base != Block)
      && (EffectiveAuthority(base, effective, s, Risk(points, base)) == Medium ==> confidence >= 0.45 && base != Block)
  {
    EffectiveDrops(confidence, Stability(points, base, convergence, divergence));
  }
}
