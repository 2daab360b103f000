/** Running the multigrid solver: the work vectors `MultigridState`
    allocates per level, the control flow of one cycle (`run_cycle`) as the
    sequence of steps it performs, and the iteration loop of `apply_impl`.
    The numerical kernels are steps without values; the k-cycle's stop
    check and the solver's stopping criterion are oracles. */
module MultigridCycle {
  import opened Wrappers
  import opened Multigrid
  import opened Arithmetic

  /** The size of a dense work vector. */
  datatype Dim = Dim(rows: nat, cols: nat)

  /** The ten k-cycle work vectors of one level. */
  datatype KWork = KWork(
    alpha: Dim, beta: Dim, gamma: Dim, rho: Dim, zeta: Dim,
    v: Dim, w: Dim, d: Dim, oldNorm: Dim, newNorm: Dim)

  /** The k-cycle work for a level whose next level has `nextRows` rows:
      scalars and norms are 1 x nrhs, vectors nextRows x nrhs. */
  function KWorkFor(nextRows: nat, nrhs: nat): KWork
  {
    var s, vec := Dim(1, nrhs), Dim(nextRows, nrhs);
    KWork(s, s, s, s, s, vec, vec, vec, s, s)
  }

  predicate IsK(cycle: Cycle)
  {
    cycle == Kfcg || cycle == Kgcr
  }

  /** The levels below `n` that get k-cycle work: those divisible by `k`,
      in increasing order. */
  function KLevels(n: nat, k: nat): (r: seq<nat>)
    requires k > 0
    ensures forall j :: 0 <= j < |r| ==> r[j] < n && r[j] % k == 0
  {
    if n == 0 then [] else KLevels(n - 1, k) + (if (n - 1) % k == 0 then [n - 1] else [])
  }

  /** Entry `j` of the k-cycle lists belongs to level `j * k`, and there are
      `ceil(n / k)` entries. */
  lemma {:induction false} KLevelsAt(n: nat, k: nat)
    requires k > 0
    ensures |KLevels(n, k)| == (n + k - 1) / k
    ensures forall j :: 0 <= j < |KLevels(n, k)| ==> KLevels(n, k)[j] == j * k
  {
    if n == 0 {
      DivUnique(k - 1, 0, k - 1, k);
    } else {
      KLevelsAt(n - 1, k);
      CeilDivStep(n, k);
    }
  }

  /** Counting one more level adds an entry exactly when that level is
      divisible by `k`, and the entry is the next multiple of `k`. */
  lemma CeilDivStep(n: nat, k: nat)
    requires k > 0 && n > 0
    ensures (n + k - 1) / k == (n - 1 + k - 1) / k + (if (n - 1) % k == 0 then 1 else 0)
    ensures (n - 1) % k == 0 ==> n - 1 == (n - 1 + k - 1) / k * k
  {
    var q, m := (n - 1) / k, (n - 1) % k;
    assert n - 1 == q * k + m;
    assert n + k - 1 == (q + 1) * k + m;
    DivUnique(n + k - 1, q + 1, m, k);
    if m == 0 {
      DivUnique(n - 1 + k - 1, q, k - 1, k);
    } else {
      assert n - 1 + k - 1 == (q + 1) * k + (m - 1);
      DivUnique(n - 1 + k - 1, q + 1, m - 1, k);
    }
  }

  /** `run_cycle` at a k-cycle level `l` looks up entry `l / k`: it exists
      and belongs to level `l`. */
  lemma KWorkLookup(n: nat, k: nat, l: nat)
    requires k > 0 && l < n && l % k == 0
    ensures l / k < |KLevels(n, k)| && KLevels(n, k)[l / k] == l
  {
    KLevelsAt(n, k);
    QuotientBelowCeil(n, k, l);
    assert l == l / k * k + l % k;
  }

  /** A level below `n` has its quotient below `ceil(n / k)`. */
  lemma QuotientBelowCeil(n: nat, k: nat, l: nat)
    requires k > 0 && l < n
    ensures l / k < (n + k - 1) / k
  {
    var q, top := l / k, (n + k - 1) / k;
    assert l == q * k + l % k;
    assert n + k - 1 == top * k + (n + k - 1) % k;
    if q >= top {
      MulMonotone(q, top, k);
      assert false;
    }
  }

  lemma MulMonotone(a: int, b: int, k: nat)
    requires a >= b && k > 0
    ensures a * k >= b * k
  {
    if a > b {
      NonzeroMultiple(a - b, k);
      assert (a - b) * k == a * k - b * k;
    }
  }

  // ----- the steps of a cycle -----

  datatype Phase = PreSmooth | MidSmooth | PostSmooth

  datatype Step =
    | Residual(level: nat)               // r = b - A x on the level
    | Smooth(phase: Phase, level: nat)   // x += relaxation * smoother(r)
    | Restrict(level: nat)               // g = R r
    | Prolong(level: nat)                // x += P e
    | CoarsestSolve                      // the coarsest solver on g
    | KDots(level: nat)                  // v = A e and its dot products
    | Norm(level: nat)                   // the norm of g
    | KStep1(level: nat)
    | KCheckStop(level: nat)
    | KStep2(level: nat)                 // w = A d, its dot products and the update of e
    | ZeroCorrections                    // every e set to zero

  /** What a cycle depends on: the number of levels, which levels have a
      pre-, mid- and post-smoother, the k-cycle base and tolerance, and the
      outcome of the k-cycle stop check given the steps so far. */
  datatype CycleCtx = CycleCtx(
    total: nat, hasPre: seq<bool>, hasMid: seq<bool>, hasPost: seq<bool>,
    kBase: nat, relTol: Tol, checkStop: seq<Step> -> bool)

  predicate CtxValid(c: CycleCtx)
  {
    |c.hasPre| == c.total && |c.hasMid| == c.total && |c.hasPost| == c.total
  }

  predicate CanRun(c: CycleCtx, cycle: Cycle, level: nat)
  {
    CtxValid(c) && level < c.total && (IsK(cycle) ==> c.kBase > 0)
  }

  /** `rel_tol >= 0` and `rel_tol < 0`; both false for NaN. */
  predicate NonNegative(t: Tol) { t.Num? && t.value >= 0.0 }
  predicate Negative(t: Tol) { t.Num? && t.value < 0.0 }

  /** The steps of `run_cycle(cycle, level)` after the steps `before`. */
  function CycleSteps(c: CycleCtx, cycle: Cycle, level: nat, before: seq<Step>): seq<Step>
    requires CanRun(c, cycle, level)
    decreases c.total - level, 3
  {
    var s1 := Descent(c.hasPre, level);
    var s2 := s1 + CoarseOrRecurse(c, cycle, level, before + s1);
    var s3 := s2 + SecondPart(c, cycle, level, before + s2);
    s3 + Ascent(c.hasPost, level)
  }

  /** A cycle is its descent, its coarse visits and its ascent, each
      following the steps before it. */
  lemma CycleStepsParts(c: CycleCtx, cycle: Cycle, level: nat, before: seq<Step>)
    requires CanRun(c, cycle, level)
    ensures var s1 := Descent(c.hasPre, level);
      var cr := CoarseOrRecurse(c, cycle, level, before + s1);
      CycleSteps(c, cycle, level, before)
        == s1 + cr + SecondPart(c, cycle, level, before + (s1 + cr)) + Ascent(c.hasPost, level)
  {
  }

  /** The steps before the first coarse visit: the residual (on every level
      but the finest), the pre-smoothing and the restriction. */
  function Descent(hasPre: seq<bool>, level: nat): seq<Step>
    requires level < |hasPre|
  {
    (if level != 0 then [Residual(level)] else [])
      + (if hasPre[level] then [Smooth(PreSmooth, level), Residual(level)] else [])
      + [Restrict(level)]
  }

  /** The steps after the coarse visits: the prolongation and the post-smoothing. */
  function Ascent(hasPost: seq<bool>, level: nat): seq<Step>
    requires level < |hasPost|
  {
    [Prolong(level)] + (if hasPost[level] then [Residual(level), Smooth(PostSmooth, level)] else [])
  }

  /** The coarsest solve below the last level, a cycle on the next level otherwise. */
  function CoarseOrRecurse(c: CycleCtx, cycle: Cycle, level: nat, before: seq<Step>): seq<Step>
    requires CanRun(c, cycle, level)
    decreases c.total - level, 0
  {
    if level + 1 == c.total then [CoarsestSolve] else CycleSteps(c, cycle, level + 1, before)
  }

  /** The second half of an F or W cycle, or the k-cycle's iterations. */
  function SecondPart(c: CycleCtx, cycle: Cycle, level: nat, before: seq<Step>): seq<Step>
    requires CanRun(c, cycle, level)
    decreases c.total - level, 2
  {
    if cycle == F || cycle == W then Revisit(c, cycle, level, before)
    else if IsK(cycle) && level % c.kBase == 0 then KIterations(c, cycle, level, before)
    else []
  }

  /** The second coarse visit of an F or W cycle: prolongation, mid-smoothing
      and restriction again, then a V cycle (for F) or a W cycle (for W) below. */
  function Revisit(c: CycleCtx, cycle: Cycle, level: nat, before: seq<Step>): seq<Step>
    requires CanRun(c, cycle, level) && (cycle == F || cycle == W)
    decreases c.total - level, 1
  {
    var t1 := RevisitPrefix(c.hasMid, level);
    t1 + CoarseOrRecurse(c, if cycle == F then V else cycle, level, before + t1)
  }

  function RevisitPrefix(hasMid: seq<bool>, level: nat): seq<Step>
    requires level < |hasMid|
  {
    [Prolong(level), Residual(level)]
      + (if hasMid[level] then [Smooth(MidSmooth, level), Residual(level)] else [])
      + [Restrict(level)]
  }

  /** The k-cycle's first iteration on a level, with the norms and the stop
      check only for a non-negative tolerance. */
  function KFirst(relTol: Tol, level: nat): seq<Step>
  {
    var check := NonNegative(relTol);
    [KDots(level)] + (if check then [Norm(level)] else []) + [KStep1(level)]
      + (if check then [Norm(level), KCheckStop(level)] else [])
  }

  /** The second iteration runs for a negative tolerance, and for a
      non-negative one when the stop check fails; never for NaN. */
  predicate KSecondRuns(relTol: Tol, isStop: bool)
  {
    Negative(relTol) || (NonNegative(relTol) && !isStop)
  }

  /** The k-cycle's iterations on a level divisible by the k-cycle base. */
  function KIterations(c: CycleCtx, cycle: Cycle, level: nat, before: seq<Step>): seq<Step>
    requires CanRun(c, cycle, level)
    decreases c.total - level, 1
  {
    var t1 := KFirst(c.relTol, level);
    var isStop := if NonNegative(c.relTol) then c.checkStop(before + t1) else true;
    if KSecondRuns(c.relTol, isStop) then
      t1 + CoarseOrRecurse(c, cycle, level, before + t1) + [KStep2(level)]
    else t1
  }

  /** The steps of `apply_impl`'s loop from iteration `iter` on, as far as
      the check at iteration `horizon`: each iteration that the criterion
      does not stop zeroes the corrections, runs a cycle from level 0 and
      recomputes the residual. */
  function ApplySteps(c: CycleCtx, cycle: Cycle, stop: nat -> bool, horizon: nat, iter: nat, before: seq<Step>)
    : seq<Step>
    requires CanRun(c, cycle, 0) && iter <= horizon
    decreases horizon - iter
  {
    if stop(iter) || iter == horizon then []
    else
      var s := Iteration(c, cycle, before);
      s + ApplySteps(c, cycle, stop, horizon, iter + 1, before + s)
  }

  /** One iteration of `apply_impl`: the corrections zeroed, a cycle from
      the finest level, the residual recomputed. */
  function Iteration(c: CycleCtx, cycle: Cycle, before: seq<Step>): seq<Step>
    requires CanRun(c, cycle, 0)
  {
    [ZeroCorrections] + CycleSteps(c, cycle, 0, before + [ZeroCorrections]) + [Residual(0)]
  }

  /** The work vectors and the steps of one solve. */
  class MultigridState {
    const total: nat
    const hasPre: seq<bool>
    const hasMid: seq<bool>
    const hasPost: seq<bool>
    const cycle: Cycle
    const kBase: nat
    const relTol: Tol
    const nrhs: nat
    var rList: seq<Dim>
    var gList: seq<Dim>
    var eList: seq<Dim>
    var kList: seq<KWork>
    var trace: seq<Step>

    function Ctx(checkStop: seq<Step> -> bool): CycleCtx
    {
      CycleCtx(total, hasPre, hasMid, hasPost, kBase, relTol, checkStop)
    }

    /** The levels, smoothers and k-cycle settings are those of `mg`. */
    predicate SameLevels(mg: MultigridSolver)
      reads mg
      requires ListsCover(mg)
    {
      var c := CtxOf(mg, _ => true);
      total == c.total && hasPre == c.hasPre && hasMid == c.hasMid && hasPost == c.hasPost
      && kBase == c.kBase && relTol == c.relTol
    }

    /** The work vectors have the sizes the constructor gives them for the
        levels `levels` below `system`: for each level, r has the level's
        rows, g and e the next level's, all with `nrhs` columns; k-cycle
        work exists for the levels divisible by the k-cycle base, and only
        for a k-cycle. */
    predicate Allocated(system: Matrix, levels: seq<RstrPrlg>)
      reads this
    {
      && |rList| == |levels| && |gList| == |levels| && |eList| == |levels|
      && (forall i :: 0 <= i < |levels| ==>
          && rList[i] == Dim(FineAt(system, levels, i).rows, nrhs)
          && gList[i] == Dim(levels[i].coarse.rows, nrhs)
          && eList[i] == Dim(levels[i].coarse.rows, nrhs))
      && (!IsK(cycle) ==> kList == [])
      && (IsK(cycle) ==>
            && kBase > 0
            && |kList| == |KLevels(|levels|, kBase)|
            && forall j :: 0 <= j < |kList| ==>
                 var l := KLevels(|levels|, kBase)[j];
                 l < |levels| && kList[j] == KWorkFor(levels[l].coarse.rows, nrhs))
    }

    /** The `MultigridState` constructor: for each level, r has the level's
        rows, g and e the next level's; k-cycle work exists for the levels
        divisible by the k-cycle base, and only for a k-cycle. */
    constructor (mg: MultigridSolver, nrhs: nat)
      requires ListsCover(mg)
      requires IsK(mg.params.cycle) ==> mg.params.kcycleBase > 0
      ensures SameLevels(mg)
      ensures cycle == mg.params.cycle && this.nrhs == nrhs
      ensures Allocated(mg.systemMatrix, mg.rstrPrlgList)
      ensures trace == []
    {
      var levels := mg.rstrPrlgList;
      var n := |levels|;
      total := n;
      var pre, mid, post := mg.pre.smoothers, mg.mid.smoothers, mg.post.smoothers;
      hasPre := seq(n, i requires 0 <= i < n => pre[i].Some?);
      hasMid := seq(n, i requires 0 <= i < n => mid[i].Some?);
      hasPost := seq(n, i requires 0 <= i < n => post[i].Some?);
      cycle := mg.params.cycle;
      kBase := mg.params.kcycleBase;
      relTol := mg.params.kcycleRelTol;
      this.nrhs := nrhs;
      var currentRows := mg.systemMatrix.rows;
      var r, g, e, k := [], [], [], [];
      for i := 0 to n
        invariant |r| == i && |g| == i && |e| == i
        invariant currentRows == FineAt(mg.systemMatrix, levels, i).rows
        invariant forall j :: 0 <= j < i ==>
          && r[j] == Dim(FineAt(mg.systemMatrix, levels, j).rows, nrhs)
          && g[j] == Dim(levels[j].coarse.rows, nrhs)
          && e[j] == Dim(levels[j].coarse.rows, nrhs)
        invariant !IsK(mg.params.cycle) ==> k == []
        invariant IsK(mg.params.cycle) ==> var ks := KLevels(i, mg.params.kcycleBase);
          && |k| == |ks|
          && forall j :: 0 <= j < |ks| ==> ks[j] < i && k[j] == KWorkFor(levels[ks[j]].coarse.rows, nrhs)
      {
        var nextRows := levels[i].coarse.rows;
        r := r + [Dim(currentRows, nrhs)];
        g := g + [Dim(nextRows, nrhs)];
        e := e + [Dim(nextRows, nrhs)];
        if IsK(mg.params.cycle) && i % mg.params.kcycleBase == 0 {
          k := k + [KWorkFor(nextRows, nrhs)];
        }
        currentRows := nextRows;
      }
      rList, gList, eList, kList := r, g, e, k;
      trace := [];
    }

    /** One pass of `apply_impl`'s loop past the stop check: every correction
        zeroed, a cycle from the finest level, the residual recomputed. */
    method Iterate(checkStop: seq<Step> -> bool)
      requires CanRun(Ctx(checkStop), cycle, 0)
      modifies this`trace
      ensures trace == old(trace) + Iteration(Ctx(checkStop), cycle, old(trace))
    {
      ghost var t := trace;
      trace := trace + [ZeroCorrections];
      RunCycle(cycle, 0, checkStop);
      trace := trace + [Residual(0)];
      assert trace == t + Iteration(Ctx(checkStop), cycle, t);
    }

    /** The loop of `apply_impl` after the initial residual, followed as far
        as the check at iteration `horizon`: the first iteration whose check
        stops it, or `None` when none of those checks does. */
    method Solve(stop: nat -> bool, horizon: nat, checkStop: seq<Step> -> bool) returns (result: Option<nat>)
      requires CanRun(Ctx(checkStop), cycle, 0)
      modifies this`trace
      ensures result.Some? ==>
        result.value <= horizon && stop(result.value) && forall i :: 0 <= i < result.value ==> !stop(i)
      ensures result.None? <==> forall i :: 0 <= i <= horizon ==> !stop(i)
      ensures trace == old(trace) + ApplySteps(Ctx(checkStop), cycle, stop, horizon, 0, old(trace))
    {
      ghost var c := Ctx(checkStop);
      ghost var all := trace + ApplySteps(c, cycle, stop, horizon, 0, trace);
      var iter: int := -1;
      while true
        invariant -1 <= iter < horizon
        invariant forall i :: 0 <= i <= iter ==> !stop(i)
        invariant all == trace + ApplySteps(c, cycle, stop, horizon, iter + 1, trace)
        decreases horizon - iter
      {
        iter := iter + 1;
        if stop(iter) {
          result := Some(iter);
          break;
        }
        if iter == horizon {
          result := None;
          break;
        }
        ghost var t := trace;
        Iterate(checkStop);
        ApplyStepsStep(c, cycle, stop, horizon, iter, t);
      }
    }

    /** `run_cycle`: records the steps of one cycle on `level`. */
    method RunCycle(cycle: Cycle, level: nat, checkStop: seq<Step> -> bool)
      requires CanRun(Ctx(checkStop), cycle, level)
      modifies this`trace
      ensures trace == old(trace) + CycleSteps(Ctx(checkStop), cycle, level, old(trace))
      decreases total - level, 3
    {
      ghost var c := Ctx(checkStop);
      ghost var t0 := trace;
      Descend(level);
      ghost var s1 := Descent(hasPre, level);
      CoarseOrRecurseRun(cycle, level, checkStop);
      ghost var cr := CoarseOrRecurse(c, cycle, level, t0 + s1);
      ghost var t2 := trace;
      assert t2 == t0 + (s1 + cr);
      SecondHalf(cycle, level, checkStop);
      ghost var sp := SecondPart(c, cycle, level, t2);
      ghost var t3 := trace;
      assert t3 == t0 + (s1 + cr + sp);
      Ascend(level);
      CycleStepsParts(c, cycle, level, t0);
      assert trace == t0 + (s1 + cr + sp + Ascent(c.hasPost, level));
    }

    /** The residual (below the finest level), the pre-smoothing and the restriction. */
    method Descend(level: nat)
      requires level < |hasPre|
      modifies this`trace
      ensures trace == old(trace) + Descent(hasPre, level)
    {
      if level != 0 {
        trace := trace + [Residual(level)];
      }
      if hasPre[level] {
        trace := trace + [Smooth(PreSmooth, level), Residual(level)];
      }
      trace := trace + [Restrict(level)];
    }

    /** The prolongation and the post-smoothing. */
    method Ascend(level: nat)
      requires level < |hasPost|
      modifies this`trace
      ensures trace == old(trace) + Ascent(hasPost, level)
    {
      trace := trace + [Prolong(level)];
      if hasPost[level] {
        trace := trace + [Residual(level), Smooth(PostSmooth, level)];
      }
    }

    /** The coarsest solve on the last level, the next level's cycle otherwise. */
    method CoarseOrRecurseRun(cycle: Cycle, level: nat, checkStop: seq<Step> -> bool)
      requires CanRun(Ctx(checkStop), cycle, level)
      modifies this`trace
      ensures trace == old(trace) + CoarseOrRecurse(Ctx(checkStop), cycle, level, old(trace))
      decreases total - level, 0
    {
      if level + 1 == total {
        trace := trace + [CoarsestSolve];
      } else {
        RunCycle(cycle, level + 1, checkStop);
      }
    }

    /** The part of `run_cycle` between the first coarse visit and the last
        prolongation: the second visit of an F or W cycle, or the k-cycle's
        iterations on a level divisible by the k-cycle base. */
    method SecondHalf(cycle: Cycle, level: nat, checkStop: seq<Step> -> bool)
      requires CanRun(Ctx(checkStop), cycle, level)
      modifies this`trace
      ensures trace == old(trace) + SecondPart(Ctx(checkStop), cycle, level, old(trace))
      decreases total - level, 2
    {
      if cycle == F || cycle == W {
        RevisitRun(cycle, level, checkStop);
      } else if IsK(cycle) && level % kBase == 0 {
        KIterationsRun(cycle, level, checkStop);
      }
    }

    method RevisitRun(cycle: Cycle, level: nat, checkStop: seq<Step> -> bool)
      requires CanRun(Ctx(checkStop), cycle, level) && (cycle == F || cycle == W)
      modifies this`trace
      ensures trace == old(trace) + Revisit(Ctx(checkStop), cycle, level, old(trace))
      decreases total - level, 1
    {
      ghost var t0 := trace;
      trace := trace + [Prolong(level), Residual(level)];
      if hasMid[level] {
        trace := trace + [Smooth(MidSmooth, level), Residual(level)];
      }
      trace := trace + [Restrict(level)];
      ghost var u := RevisitPrefix(hasMid, level);
      assert trace == t0 + u;
      if cycle == F {
        CoarseOrRecurseRun(V, level, checkStop);
      } else {
        CoarseOrRecurseRun(cycle, level, checkStop);
      }
      assert trace == t0 + (u + CoarseOrRecurse(Ctx(checkStop), if cycle == F then V else cycle, level, t0 + u));
    }

    method KIterationsRun(cycle: Cycle, level: nat, checkStop: seq<Step> -> bool)
      requires CanRun(Ctx(checkStop), cycle, level)
      modifies this`trace
      ensures trace == old(trace) + KIterations(Ctx(checkStop), cycle, level, old(trace))
      decreases total - level, 1
    {
      ghost var t0 := trace;
      trace := trace + [KDots(level)];
      if NonNegative(relTol) {
        trace := trace + [Norm(level)];
      }
      trace := trace + [KStep1(level)];
      var isStop := true;
      if NonNegative(relTol) {
        trace := trace + [Norm(level), KCheckStop(level)];
        isStop := checkStop(trace);
      }
      ghost var u := KFirst(relTol, level);
      assert trace == t0 + u;
      if Negative(relTol) || (NonNegative(relTol) && !isStop) {
        CoarseOrRecurseRun(cycle, level, checkStop);
        trace := trace + [KStep2(level)];
        assert trace == t0 + (u + CoarseOrRecurse(Ctx(checkStop), cycle, level, t0 + u) + [KStep2(level)]);
      }
    }
  }

  /** Every smoother list has an entry per level, as `generate` leaves them. */
  predicate ListsCover(mg: MultigridSolver)
    reads mg
  {
    var n := |mg.rstrPrlgList|;
    |mg.pre.smoothers| >= n && |mg.mid.smoothers| >= n && |mg.post.smoothers| >= n
  }

  /** The cycle context of a generated solver. */
  function CtxOf(mg: MultigridSolver, checkStop: seq<Step> -> bool): CycleCtx
    reads mg
    requires ListsCover(mg)
  {
    var n, pre, mid, post := |mg.rstrPrlgList|, mg.pre.smoothers, mg.mid.smoothers, mg.post.smoothers;
    CycleCtx(n,
      seq(n, i requires 0 <= i < n => pre[i].Some?),
      seq(n, i requires 0 <= i < n => mid[i].Some?),
      seq(n, i requires 0 <= i < n => post[i].Some?),
      mg.params.kcycleBase, mg.params.kcycleRelTol, checkStop)
  }

  /** One iteration of `apply_impl`'s loop, when the criterion does not stop it. */
  lemma ApplyStepsStep(c: CycleCtx, cycle: Cycle, stop: nat -> bool, horizon: nat, iter: nat, t: seq<Step>)
    requires CanRun(c, cycle, 0) && iter < horizon && !stop(iter)
    ensures var s := Iteration(c, cycle, t);
      t + ApplySteps(c, cycle, stop, horizon, iter, t) == (t + s) + ApplySteps(c, cycle, stop, horizon, iter + 1, t + s)
  {
  }

  /** The horizon only bounds how far the loop is followed: once the
      criterion stops at or before it, a later horizon gives the same steps. */
  lemma {:induction false} ApplyStepsHorizonFree(c: CycleCtx, cycle: Cycle, stop: nat -> bool,
                                                 h1: nat, h2: nat, iter: nat, before: seq<Step>, k: nat)
    requires CanRun(c, cycle, 0) && iter <= k <= h1 <= h2 && stop(k)
    ensures ApplySteps(c, cycle, stop, h1, iter, before) == ApplySteps(c, cycle, stop, h2, iter, before)
    decreases k - iter
  {
    if !stop(iter) {
      ApplyStepsHorizonFree(c, cycle, stop, h1, h2, iter + 1, before + Iteration(c, cycle, before), k);
    }
  }

  /** `apply_impl`: the residual of the initial guess, then iterations until
      the stopping criterion holds. `stop(i)` is the criterion's verdict at
      the check of iteration `i`. The loop is followed as far as the check
      at iteration `horizon`: the result is the first iteration whose check
      stops it, or `None` when none of those checks does, in which case
      the loop goes on. */
  method ApplyImpl(mg: MultigridSolver, nrhs: nat, stop: nat -> bool, horizon: nat, checkStop: seq<Step> -> bool)
    returns (result: Option<nat>, steps: seq<Step>)
    requires ListsCover(mg) && |mg.rstrPrlgList| > 0
    requires IsK(mg.params.cycle) ==> mg.params.kcycleBase > 0
    ensures result.Some? ==>
      result.value <= horizon && stop(result.value) && forall i :: 0 <= i < result.value ==> !stop(i)
    ensures result.None? <==> forall i :: 0 <= i <= horizon ==> !stop(i)
    ensures steps == [Residual(0)]
      + ApplySteps(CtxOf(mg, checkStop), mg.params.cycle, stop, horizon, 0, [Residual(0)])
  {
    var state := new MultigridState(mg, nrhs);
    assert state.Ctx(checkStop) == CtxOf(mg, checkStop);
    state.trace := [Residual(0)];
    result := state.Solve(stop, horizon, checkStop);
    steps := state.trace;
  }

  // ----- what a cycle does -----

  /** The number of coarsest solves among the steps `s`. */
  function Solves(s: seq<Step>): nat
  {
    if s == [] then 0 else Solves(s[..|s| - 1]) + (if s[|s| - 1] == CoarsestSolve then 1 else 0)
  }

  lemma {:induction false} SolvesAppend(a: seq<Step>, b: seq<Step>)
    ensures Solves(a + b) == Solves(a) + Solves(b)
    decreases |b|
  {
    if b != [] {
      var b' := b[..|b| - 1];
      assert (a + b)[..|a + b| - 1] == a + b';
      SolvesAppend(a, b');
    } else {
      assert a + b == a;
    }
  }

  function Pow2(n: nat): nat
  {
    if n == 0 then 1 else 2 * Pow2(n - 1)
  }

  /** A V cycle reaches the coarsest solver exactly once. */
  lemma {:induction false} VCycleSolvesOnce(c: CycleCtx, level: nat, before: seq<Step>)
    requires CanRun(c, V, level)
    ensures Solves(CycleSteps(c, V, level, before)) == 1
    decreases c.total - level
  {
    SolvesSplit(c, V, level, before);
    if level + 1 < c.total {
      VCycleSolvesOnce(c, level + 1, before + Descent(c.hasPre, level));
    }
  }

  /** An F cycle reaches the coarsest solver `n + 1` times, where `n` is the
      number of levels from its level down: its descent ends in an F cycle
      below, its second visit in a V cycle. */
  lemma {:induction false} FCycleSolves(c: CycleCtx, level: nat, before: seq<Step>)
    requires CanRun(c, F, level)
    ensures Solves(CycleSteps(c, F, level, before)) == c.total - level + 1
    decreases c.total - level
  {
    var s1 := Descent(c.hasPre, level);
    var b2 := before + (s1 + CoarseOrRecurse(c, F, level, before + s1));
    SolvesSplit(c, F, level, before);
    RevisitSolves(c, F, level, b2);
    if level + 1 < c.total {
      FCycleSolves(c, level + 1, before + s1);
      VCycleSolvesOnce(c, level + 1, b2 + RevisitPrefix(c.hasMid, level));
    }
  }

  /** A W cycle reaches the coarsest solver `2^n` times: both of its visits
      run a W cycle below. */
  lemma {:induction false} WCycleSolves(c: CycleCtx, level: nat, before: seq<Step>)
    requires CanRun(c, W, level)
    ensures Solves(CycleSteps(c, W, level, before)) == Pow2(c.total - level)
    decreases c.total - level
  {
    var s1 := Descent(c.hasPre, level);
    var b2 := before + (s1 + CoarseOrRecurse(c, W, level, before + s1));
    SolvesSplit(c, W, level, before);
    RevisitSolves(c, W, level, b2);
    if level + 1 < c.total {
      WCycleSolves(c, level + 1, before + s1);
      WCycleSolves(c, level + 1, b2 + RevisitPrefix(c.hasMid, level));
    }
  }

  /** Only the coarse visits of a cycle reach the coarsest solver. */
  lemma SolvesSplit(c: CycleCtx, cycle: Cycle, level: nat, before: seq<Step>)
    requires CanRun(c, cycle, level)
    ensures var s1 := Descent(c.hasPre, level);
      var cr := CoarseOrRecurse(c, cycle, level, before + s1);
      Solves(CycleSteps(c, cycle, level, before)) == Solves(cr) + Solves(SecondPart(c, cycle, level, before + (s1 + cr)))
  {
    var s1 := Descent(c.hasPre, level);
    var cr := CoarseOrRecurse(c, cycle, level, before + s1);
    CycleStepsParts(c, cycle, level, before);
    SolvesConcat(s1, cr, SecondPart(c, cycle, level, before + (s1 + cr)), Ascent(c.hasPost, level));
    NoSolvesOnALevel(c, level);
  }

  /** The second visit of an F or W cycle solves as often as its coarse visit. */
  lemma RevisitSolves(c: CycleCtx, cycle: Cycle, level: nat, before: seq<Step>)
    requires CanRun(c, cycle, level) && (cycle == F || cycle == W)
    ensures Solves(SecondPart(c, cycle, level, before))
      == Solves(CoarseOrRecurse(c, if cycle == F then V else cycle, level, before + RevisitPrefix(c.hasMid, level)))
  {
    var t1 := RevisitPrefix(c.hasMid, level);
    NoSolvesOnALevel(c, level);
    SolvesAppend(t1, CoarseOrRecurse(c, if cycle == F then V else cycle, level, before + t1));
  }

  lemma SolvesConcat(a: seq<Step>, b: seq<Step>, d: seq<Step>, e: seq<Step>)
    ensures Solves(a + b + d + e) == Solves(a) + Solves(b) + Solves(d) + Solves(e)
  {
    SolvesAppend(a, b);
    SolvesAppend(a + b, d);
    SolvesAppend(a + b + d, e);
  }

  /** The steps a cycle takes on its own level never include the coarsest solve. */
  lemma NoSolvesOnALevel(c: CycleCtx, level: nat)
    requires CtxValid(c) && level < c.total
    ensures Solves(Descent(c.hasPre, level)) == 0
    ensures Solves(RevisitPrefix(c.hasMid, level)) == 0
    ensures Solves(Ascent(c.hasPost, level)) == 0
  {
    NoSolvesIn(Descent(c.hasPre, level));
    NoSolvesIn(RevisitPrefix(c.hasMid, level));
    NoSolvesIn(Ascent(c.hasPost, level));
  }

  lemma {:induction false} NoSolvesIn(s: seq<Step>)
    requires CoarsestSolve !in s
    ensures Solves(s) == 0
    decreases |s|
  {
    if s != [] {
      assert CoarsestSolve !in s[..|s| - 1];
      NoSolvesIn(s[..|s| - 1]);
    }
  }

  /** At a k-cycle level: a NaN tolerance computes no norm and runs one
      iteration; a negative one computes no norm and always runs the
      second; a non-negative one runs the second exactly when the stop
      check fails. */
  lemma KCycleIterations(c: CycleCtx, cycle: Cycle, level: nat, before: seq<Step>)
    requires CanRun(c, cycle, level) && IsK(cycle) && level % c.kBase == 0
    ensures c.relTol.NaN? ==> SecondPart(c, cycle, level, before) == [KDots(level), KStep1(level)]
    ensures Negative(c.relTol) ==>
      var t1 := [KDots(level), KStep1(level)];
      SecondPart(c, cycle, level, before) == t1 + CoarseOrRecurse(c, cycle, level, before + t1) + [KStep2(level)]
    ensures NonNegative(c.relTol) ==>
      var t1 := [KDots(level), Norm(level), KStep1(level), Norm(level), KCheckStop(level)];
      SecondPart(c, cycle, level, before)
        == if c.checkStop(before + t1) then t1
           else t1 + CoarseOrRecurse(c, cycle, level, before + t1) + [KStep2(level)]
  {
    if c.relTol.NaN? || Negative(c.relTol) {
      assert KFirst(c.relTol, level) == [KDots(level), KStep1(level)];
    } else {
      assert KFirst(c.relTol, level) == [KDots(level), Norm(level), KStep1(level), Norm(level), KCheckStop(level)];
    }
  }
}
