/** Building the level hierarchy of the multigrid solver (`generate`): the
    operators themselves are abstract, known by an identity and a row
    count; the factories that coarsen an operator and the callables that
    choose a factory per level are parameters. */
module Multigrid {
  import opened Wrappers

  /** An operator, known by an identity and its number of rows. */
  datatype Matrix = Matrix(id: nat, rows: nat)

  /** A factory of the parameter lists, known by an identity. */
  type FactoryId = nat

  /** A restriction/prolongation generated by `factory` on the fine
      operator; `coarse` is its coarse operator. */
  datatype RstrPrlg = RstrPrlg(factory: FactoryId, fine: Matrix, coarse: Matrix)

  /** A smoother generated by `factory` on the operator `on`. */
  datatype Smoother = Smoother(factory: FactoryId, on: Matrix)

  /** A relaxation factor: the shared constant one, or a view of one
      element of the relaxation array. */
  datatype Relaxation = SharedOne | Element(index: nat)

  datatype CoarsestSolver = Identity(size: nat) | Solver(factory: FactoryId, on: Matrix)

  /** Where the mid smoothers come from (`multigrid_mid_uses`). */
  datatype MidUses = MidPre | MidMid | MidPost

  datatype Cycle = V | F | W | Kfcg | Kgcr

  /** A real number or NaN: every comparison with NaN is false. */
  datatype Tol = NaN | Num(value: real)

  datatype Error = OutOfBounds(index: nat, bound: nat) | NoLevel

  /** The solver's parameters; a relaxation array is known by its length,
      and a null factory is `None`. */
  datatype Params = Params(
    rstrPrlg: seq<FactoryId>,
    preSmoother: seq<Option<FactoryId>>, preRelaxationLen: nat,
    midSmoother: seq<Option<FactoryId>>, midRelaxationLen: nat,
    postSmoother: seq<Option<FactoryId>>, postRelaxationLen: nat,
    postUsesPre: bool, midCase: MidUses,
    maxLevels: nat, minCoarseRows: nat,
    coarsestSolver: seq<Option<FactoryId>>,
    cycle: Cycle, kcycleBase: nat, kcycleRelTol: Tol)

  /** What `generate` calls but does not define: the coarse operator a
      factory produces on a matrix, and the two index callables
      (`rstr_prlg_index`, `solver_index`), given the level and the matrix. */
  datatype Hooks = Hooks(
    coarsen: (FactoryId, Matrix) -> Matrix,
    rstrIndex: (nat, Matrix) -> nat,
    solverIndex: (nat, Matrix) -> nat)

  /** One smoother list and its relaxation list, one entry per level. */
  datatype LevelLists = LevelLists(smoothers: seq<Option<Smoother>>, relaxations: seq<Relaxation>)

  datatype Hierarchy = Hierarchy(rstrPrlg: seq<RstrPrlg>, pre: LevelLists, mid: LevelLists, post: LevelLists)

  const NoLists := LevelLists([], [])

  // ----- handle_list -----

  /** The entry a list of `size` uses at a level whose factory index is
      `index`: a one-entry list serves every level. */
  function Selected(size: nat, index: nat): nat
  {
    if size == 1 then 0 else index
  }

  /** The smoother `handle_list` appends: none for an empty list or a null
      entry, else the selected factory's smoother on the level's matrix. */
  function SelectSmoother(list: seq<Option<FactoryId>>, index: nat, matrix: Matrix): (r: Result<Option<Smoother>, Error>)
  {
    if |list| == 0 then Ok(None)
    else
      var t := Selected(|list|, index);
      if t >= |list| then Err(OutOfBounds(t, |list|))
      else match list[t]
        case None => Ok(None)
        case Some(f) => Ok(Some(Smoother(f, matrix)))
  }

  /** The relaxation `handle_list` appends: the shared one for an empty
      array, else a view of the selected element. */
  function SelectRelaxation(len: nat, index: nat): (r: Result<Relaxation, Error>)
  {
    if len == 0 then Ok(SharedOne)
    else
      var t := Selected(len, index);
      if t >= len then Err(OutOfBounds(t, len)) else Ok(Element(t))
  }

  /** A smoother list fails only when it has several entries and the index
      is past its end; a one-entry list gives every level entry 0; a longer
      one gives the level the entry at its index. */
  lemma SelectSmootherCases(list: seq<Option<FactoryId>>, index: nat, matrix: Matrix)
    ensures SelectSmoother(list, index, matrix).Err? <==> |list| > 1 && index >= |list|
    ensures |list| == 0 ==> SelectSmoother(list, index, matrix) == Ok(None)
    ensures |list| == 1 ==> SelectSmoother(list, index, matrix) == SelectSmoother(list, 0, matrix)
    ensures SelectSmoother(list, index, matrix).Ok? && |list| > 0 ==>
      var t := if |list| == 1 then 0 else index;
      SelectSmoother(list, index, matrix).value
        == if list[t].None? then None else Some(Smoother(list[t].value, matrix))
  {
  }

  /** A relaxation array fails only when it has several elements and the
      index is past its end; a one-element array gives every level element 0. */
  lemma SelectRelaxationCases(len: nat, index: nat)
    ensures SelectRelaxation(len, index).Err? <==> len > 1 && index >= len
    ensures len == 0 ==> SelectRelaxation(len, index) == Ok(SharedOne)
    ensures len == 1 ==> SelectRelaxation(len, index) == Ok(Element(0))
    ensures len > 1 && index < len ==> SelectRelaxation(len, index) == Ok(Element(index))
  {
  }

  /** The lists after a successful `handle_list`: one more smoother and one
      more relaxation. */
  function AppendLevel(lists: LevelLists, list: seq<Option<FactoryId>>, len: nat, index: nat, matrix: Matrix)
    : (r: Result<LevelLists, Error>)
  {
    match SelectSmoother(list, index, matrix)
    case Err(e) => Err(e)
    case Ok(s) =>
      match SelectRelaxation(len, index)
      case Err(e) => Err(e)
      case Ok(x) => Ok(LevelLists(lists.smoothers + [s], lists.relaxations + [x]))
  }

  /** `handle_list`: appends the level's smoother, then its relaxation. A
      bad relaxation index fails after the smoother was appended. */
  method HandleList(index: nat, matrix: Matrix, list: seq<Option<FactoryId>>, len: nat, lists: LevelLists)
    returns (out: LevelLists, r: Outcome<Error>)
    ensures r.Pass? <==> AppendLevel(lists, list, len, index, matrix).Ok?
    ensures r.Pass? ==> out == AppendLevel(lists, list, len, index, matrix).value
    ensures r.Fail? ==> r.error == AppendLevel(lists, list, len, index, matrix).error
    ensures r.Fail? ==> out.relaxations == lists.relaxations
    ensures r.Fail? ==> out.smoothers == lists.smoothers + match SelectSmoother(list, index, matrix)
      case Ok(s) => [s]
      case Err(_) => []
  {
    var smoothers := lists.smoothers;
    var size := |list|;
    if size != 0 {
      var t := if size == 1 then 0 else index;
      if t >= size {
        return lists, Fail(OutOfBounds(t, size));
      }
      var item := list[t];
      if item.None? {
        smoothers := smoothers + [None];
      } else {
        smoothers := smoothers + [Some(Smoother(item.value, matrix))];
      }
    } else {
      smoothers := smoothers + [None];
    }
    out := LevelLists(smoothers, lists.relaxations);
    if len != 0 {
      var t := if len == 1 then 0 else index;
      if t >= len {
        return out, Fail(OutOfBounds(t, len));
      }
      out := LevelLists(smoothers, lists.relaxations + [Element(t)]);
    } else {
      out := LevelLists(smoothers, lists.relaxations + [SharedOne]);
    }
    r := Pass;
  }

  // ----- generate -----

  /** The `generate` loop from a level on: stops when the level limit or
      the row limit is reached, or when a coarsening does not reduce the
      rows; otherwise records the level and goes on with the coarse
      operator. Yields the lists, the last operator and the level count. */
  function GenerateLoop(p: Params, h: Hooks, matrix: Matrix, level: nat, hier: Hierarchy)
    : Result<(Hierarchy, Matrix, nat), Error>
    decreases if level < p.maxLevels then p.maxLevels - level else 0
  {
    if !(level < p.maxLevels && matrix.rows > p.minCoarseRows) then Ok((hier, matrix, level))
    else
      var index := h.rstrIndex(level, matrix);
      if index >= |p.rstrPrlg| then Err(OutOfBounds(index, |p.rstrPrlg|))
      else
        var coarse := h.coarsen(p.rstrPrlg[index], matrix);
        if coarse.rows == matrix.rows then Ok((hier, matrix, level))
        else
          var rp := hier.rstrPrlg + [RstrPrlg(p.rstrPrlg[index], matrix, coarse)];
          match AppendLevel(hier.pre, p.preSmoother, p.preRelaxationLen, index, matrix)
          case Err(e) => Err(e)
          case Ok(pre) =>
            var mid := if p.midCase == MidMid
              then AppendLevel(hier.mid, p.midSmoother, p.midRelaxationLen, index, matrix)
              else Ok(hier.mid);
            match mid
            case Err(e) => Err(e)
            case Ok(mid) =>
              var post := if !p.postUsesPre
                then AppendLevel(hier.post, p.postSmoother, p.postRelaxationLen, index, matrix)
                else Ok(hier.post);
              match post
              case Err(e) => Err(e)
              case Ok(post) => GenerateLoop(p, h, coarse, level + 1, Hierarchy(rp, pre, mid, post))
  }

  /** The coarsest solver on the last operator: the identity when there is
      no solver factory or the selected one is null. */
  function CoarsestFor(p: Params, h: Hooks, level: nat, matrix: Matrix): Result<CoarsestSolver, Error>
  {
    if |p.coarsestSolver| == 0 then Ok(Identity(matrix.rows))
    else
      var t := h.solverIndex(level, matrix);
      if t >= |p.coarsestSolver| then Err(OutOfBounds(t, |p.coarsestSolver|))
      else match p.coarsestSolver[t]
        case None => Ok(Identity(matrix.rows))
        case Some(f) => Ok(Solver(f, matrix))
  }

  /** All of `generate`: the loop, the copies of shared lists, the check
      that a level was made, and the coarsest solver. */
  function Generated(p: Params, h: Hooks, system: Matrix): Result<(Hierarchy, CoarsestSolver), Error>
  {
    match GenerateLoop(p, h, system, 0, Hierarchy([], NoLists, NoLists, NoLists))
    case Err(e) => Err(e)
    case Ok((hier, matrix, level)) =>
      var post := if p.postUsesPre then hier.pre else hier.post;
      var mid := match p.midCase
        case MidPre => hier.pre
        case MidPost => post
        case MidMid => hier.mid;
      if !(level > 0) then Err(NoLevel)
      else
        match CoarsestFor(p, h, level, matrix)
        case Err(e) => Err(e)
        case Ok(cs) => Ok((Hierarchy(hier.rstrPrlg, hier.pre, mid, post), cs))
  }

  /** The multigrid solver's generated state. */
  class MultigridSolver {
    const systemMatrix: Matrix
    const params: Params
    const hooks: Hooks
    var rstrPrlgList: seq<RstrPrlg>
    var pre: LevelLists
    var mid: LevelLists
    var post: LevelLists
    var coarsestSolver: Option<CoarsestSolver>

    constructor (systemMatrix: Matrix, params: Params, hooks: Hooks)
      ensures this.systemMatrix == systemMatrix && this.params == params && this.hooks == hooks
      ensures rstrPrlgList == [] && pre == NoLists && mid == NoLists && post == NoLists
      ensures coarsestSolver == None
    {
      this.systemMatrix := systemMatrix;
      this.params := params;
      this.hooks := hooks;
      rstrPrlgList := [];
      pre, mid, post := NoLists, NoLists, NoLists;
      coarsestSolver := None;
    }

    function State(): Hierarchy
      reads this
    {
      Hierarchy(rstrPrlgList, pre, mid, post)
    }

    /** `generate`, on a freshly constructed solver. */
    method Generate() returns (r: Outcome<Error>)
      requires State() == Hierarchy([], NoLists, NoLists, NoLists)
      modifies this
      ensures r.Pass? <==> Generated(params, hooks, systemMatrix).Ok?
      ensures r.Fail? ==> r.error == Generated(params, hooks, systemMatrix).error
      ensures r.Pass? ==> State() == Generated(params, hooks, systemMatrix).value.0
      ensures r.Pass? ==> coarsestSolver == Some(Generated(params, hooks, systemMatrix).value.1)
    {
      var numRows := systemMatrix.rows;
      var level := 0;
      var matrix := systemMatrix;
      while level < params.maxLevels && numRows > params.minCoarseRows
        invariant numRows == matrix.rows
        invariant GenerateLoop(params, hooks, matrix, level, State())
               == GenerateLoop(params, hooks, systemMatrix, 0, Hierarchy([], NoLists, NoLists, NoLists))
        decreases params.maxLevels - level
      {
        var index := hooks.rstrIndex(level, matrix);
        if index >= |params.rstrPrlg| {
          return Fail(OutOfBounds(index, |params.rstrPrlg|));
        }
        var coarse := hooks.coarsen(params.rstrPrlg[index], matrix);
        if coarse.rows == numRows {
          break;
        }
        rstrPrlgList := rstrPrlgList + [RstrPrlg(params.rstrPrlg[index], matrix, coarse)];
        var res;
        pre, res := HandleList(index, matrix, params.preSmoother, params.preRelaxationLen, pre);
        if res.Fail? {
          return res;
        }
        if params.midCase == MidMid {
          mid, res := HandleList(index, matrix, params.midSmoother, params.midRelaxationLen, mid);
          if res.Fail? {
            return res;
          }
        }
        if !params.postUsesPre {
          post, res := HandleList(index, matrix, params.postSmoother, params.postRelaxationLen, post);
          if res.Fail? {
            return res;
          }
        }
        matrix := coarse;
        numRows := matrix.rows;
        level := level + 1;
      }
      if params.postUsesPre {
        post := pre;
      }
      if params.midCase == MidPre {
        mid := pre;
      } else if params.midCase == MidPost {
        mid := post;
      }
      if !(level > 0) {
        return Fail(NoLevel);
      }
      if |params.coarsestSolver| == 0 {
        coarsestSolver := Some(Identity(matrix.rows));
      } else {
        var t := hooks.solverIndex(level, matrix);
        if t >= |params.coarsestSolver| {
          return Fail(OutOfBounds(t, |params.coarsestSolver|));
        }
        var solver := params.coarsestSolver[t];
        if solver.None? {
          coarsestSolver := Some(Identity(matrix.rows));
        } else {
          coarsestSolver := Some(Solver(solver.value, matrix));
        }
      }
      r := Pass;
    }
  }

  // ----- what a generated hierarchy satisfies -----

  /** The fine operator of level `i`: the system matrix at level 0, the
      coarse operator of the level before otherwise. */
  function FineAt(system: Matrix, levels: seq<RstrPrlg>, i: nat): Matrix
    requires i <= |levels|
  {
    if i == 0 then system else levels[i - 1].coarse
  }

  /** Level `i` was made from the operator before it by the factory that
      `rstr_prlg_index` chose there, on an operator above the row limit,
      and it reduced the rows. */
  predicate LevelMade(p: Params, h: Hooks, system: Matrix, levels: seq<RstrPrlg>, i: nat)
    requires i < |levels|
  {
    var lv := levels[i];
    var index := h.rstrIndex(i, lv.fine);
    && lv.fine == FineAt(system, levels, i)
    && lv.fine.rows > p.minCoarseRows
    && index < |p.rstrPrlg| && lv.factory == p.rstrPrlg[index]
    && lv.coarse == h.coarsen(lv.factory, lv.fine)
    && lv.coarse.rows != lv.fine.rows
  }

  /** The lists hold, for every level, what `handle_list` selected there. */
  predicate ListsFollow(lists: LevelLists, list: seq<Option<FactoryId>>, len: nat, h: Hooks, levels: seq<RstrPrlg>)
  {
    && |lists.smoothers| == |levels| && |lists.relaxations| == |levels|
    && forall i :: 0 <= i < |levels| ==>
      && SelectSmoother(list, h.rstrIndex(i, levels[i].fine), levels[i].fine) == Ok(lists.smoothers[i])
      && SelectRelaxation(len, h.rstrIndex(i, levels[i].fine)) == Ok(lists.relaxations[i])
  }

  /** What holds of the loop's state after any number of iterations. */
  predicate LoopInv(p: Params, h: Hooks, system: Matrix, hier: Hierarchy, matrix: Matrix, level: nat)
  {
    && |hier.rstrPrlg| == level <= p.maxLevels
    && matrix == FineAt(system, hier.rstrPrlg, level)
    && (forall i :: 0 <= i < level ==> LevelMade(p, h, system, hier.rstrPrlg, i))
    && ListsFollow(hier.pre, p.preSmoother, p.preRelaxationLen, h, hier.rstrPrlg)
    && (if p.midCase == MidMid then ListsFollow(hier.mid, p.midSmoother, p.midRelaxationLen, h, hier.rstrPrlg)
        else hier.mid == NoLists)
    && (if !p.postUsesPre then ListsFollow(hier.post, p.postSmoother, p.postRelaxationLen, h, hier.rstrPrlg)
        else hier.post == NoLists)
  }

  /** Appending to lists that follow the levels keeps them following. */
  lemma AppendFollows(lists: LevelLists, list: seq<Option<FactoryId>>, len: nat, h: Hooks,
                      levels: seq<RstrPrlg>, lv: RstrPrlg)
    requires ListsFollow(lists, list, len, h, levels)
    requires AppendLevel(lists, list, len, h.rstrIndex(|levels|, lv.fine), lv.fine).Ok?
    ensures ListsFollow(AppendLevel(lists, list, len, h.rstrIndex(|levels|, lv.fine), lv.fine).value,
                        list, len, h, levels + [lv])
  {
    var levels' := levels + [lv];
    assert forall i :: 0 <= i < |levels| ==> levels'[i] == levels[i];
  }

  /** One iteration of the loop keeps the invariant, whether it stops or
      records a level. */
  lemma {:induction false} GenerateLoopKeeps(p: Params, h: Hooks, system: Matrix, hier: Hierarchy, matrix: Matrix, level: nat)
    requires LoopInv(p, h, system, hier, matrix, level)
    requires GenerateLoop(p, h, matrix, level, hier).Ok?
    ensures var (hier', matrix', level') := GenerateLoop(p, h, matrix, level, hier).value;
      && LoopInv(p, h, system, hier', matrix', level')
      && level <= level'
      && (level' < p.maxLevels && matrix'.rows > p.minCoarseRows ==>
            var index := h.rstrIndex(level', matrix');
            index < |p.rstrPrlg| && h.coarsen(p.rstrPrlg[index], matrix').rows == matrix'.rows)
    decreases if level < p.maxLevels then p.maxLevels - level else 0
  {
    if level < p.maxLevels && matrix.rows > p.minCoarseRows {
      var index := h.rstrIndex(level, matrix);
      var coarse := h.coarsen(p.rstrPrlg[index], matrix);
      if coarse.rows != matrix.rows {
        var lv := RstrPrlg(p.rstrPrlg[index], matrix, coarse);
        var rp := hier.rstrPrlg + [lv];
        var pre := AppendLevel(hier.pre, p.preSmoother, p.preRelaxationLen, index, matrix).value;
        AppendFollows(hier.pre, p.preSmoother, p.preRelaxationLen, h, hier.rstrPrlg, lv);
        var mid := if p.midCase == MidMid
          then AppendLevel(hier.mid, p.midSmoother, p.midRelaxationLen, index, matrix).value
          else hier.mid;
        if p.midCase == MidMid {
          AppendFollows(hier.mid, p.midSmoother, p.midRelaxationLen, h, hier.rstrPrlg, lv);
        }
        var post := if !p.postUsesPre
          then AppendLevel(hier.post, p.postSmoother, p.postRelaxationLen, index, matrix).value
          else hier.post;
        if !p.postUsesPre {
          AppendFollows(hier.post, p.postSmoother, p.postRelaxationLen, h, hier.rstrPrlg, lv);
        }
        var next := Hierarchy(rp, pre, mid, post);
        assert LevelMade(p, h, system, rp, level);
        LevelsMadeExtend(p, h, system, hier.rstrPrlg, lv);
        assert LoopInv(p, h, system, next, coarse, level + 1);
        GenerateLoopKeeps(p, h, system, next, coarse, level + 1);
      }
    }
  }

  /** Adding a level that was made keeps every earlier level made. */
  lemma LevelsMadeExtend(p: Params, h: Hooks, system: Matrix, levels: seq<RstrPrlg>, lv: RstrPrlg)
    requires forall i :: 0 <= i < |levels| ==> LevelMade(p, h, system, levels, i)
    requires LevelMade(p, h, system, levels + [lv], |levels|)
    ensures forall i :: 0 <= i < |levels| + 1 ==> LevelMade(p, h, system, levels + [lv], i)
  {
    var rp := levels + [lv];
    forall i | 0 <= i < |levels|
      ensures LevelMade(p, h, system, rp, i)
    {
      assert rp[i] == levels[i];
      assert FineAt(system, rp, i) == FineAt(system, levels, i);
      assert LevelMade(p, h, system, levels, i);
    }
  }

  /** A generated solver has between one and `max_levels` levels, each made
      from the one before by the chosen factory and each reducing the rows;
      the loop stopped only at a limit or at a coarsening that did not
      reduce; every smoother and relaxation list has one entry per level,
      selected as `handle_list` selects; shared lists are copies; and the
      coarsest solver works on the last coarse operator. */
  lemma GeneratedHierarchy(p: Params, h: Hooks, system: Matrix)
    requires Generated(p, h, system).Ok?
    ensures var (hier, cs) := Generated(p, h, system).value;
      var levels := hier.rstrPrlg;
      var last := FineAt(system, levels, |levels|);
      && 1 <= |levels| <= p.maxLevels
      && (forall i :: 0 <= i < |levels| ==> LevelMade(p, h, system, levels, i))
      && (|levels| < p.maxLevels && last.rows > p.minCoarseRows ==>
            var index := h.rstrIndex(|levels|, last);
            index < |p.rstrPrlg| && h.coarsen(p.rstrPrlg[index], last).rows == last.rows)
      && ListsFollow(hier.pre, p.preSmoother, p.preRelaxationLen, h, levels)
      && (p.postUsesPre ==> hier.post == hier.pre)
      && ListsFollow(hier.post, if p.postUsesPre then p.preSmoother else p.postSmoother,
                     if p.postUsesPre then p.preRelaxationLen else p.postRelaxationLen, h, levels)
      && (p.midCase == MidPre ==> hier.mid == hier.pre)
      && (p.midCase == MidPost ==> hier.mid == hier.post)
      && (p.midCase == MidMid ==> ListsFollow(hier.mid, p.midSmoother, p.midRelaxationLen, h, levels))
      && CoarsestFor(p, h, |levels|, last) == Ok(cs)
  {
    var empty := Hierarchy([], NoLists, NoLists, NoLists);
    assert LoopInv(p, h, system, empty, system, 0);
    GenerateLoopKeeps(p, h, system, empty, system, 0);
  }

  /** `generate` fails for want of a level when no level may be made, and
      when the first coarsening does not reduce the rows. */
  lemma NoLevelIsAnError(p: Params, h: Hooks, system: Matrix)
    ensures p.maxLevels == 0 || system.rows <= p.minCoarseRows ==> Generated(p, h, system) == Err(NoLevel)
    ensures var index := h.rstrIndex(0, system);
      index < |p.rstrPrlg| && h.coarsen(p.rstrPrlg[index], system).rows == system.rows ==>
      Generated(p, h, system) == Err(NoLevel)
  {
  }
}
