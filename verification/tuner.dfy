/**
 The empirical tuner's orchestration (`PerfTuner.tune`): from the code of a
 PerfTuning annotation it obtains the tuning specification, enumerates the
 valid problem sizes, and for each size asks a search engine for the best
 performance parameters and the optimization driver for the code those
 parameters produce. The result holds one variant per valid problem size.
 */
module Tuner {
  import opened Outcomes
  import opened SeqUtil
  import opened Fragments
  import opened Variants
  import opened Combinations
  import opened CoordSystem
  import opened TuningSpec

  /** The package holding the search engines. */
  const SearchPackage: string := "orio.main.tuner.search"

  /** One problem size: input parameter names bound to values. */
  type ProblemSize = seq<Binding>

  /** Everything a search engine is configured with. */
  datatype SearchSetup = SearchSetup(
    modPath: string,
    className: string,
    cfrags: seq<CodeFrag>,
    axisNames: seq<string>,
    axisValRanges: seq<seq<Value>>,
    constraint: string,
    timeLimitSeconds: real,
    totalRuns: int,
    options: seq<(string, Value)>,
    parallel: bool)

  /**
   The tuner's collaborators: the registered specifications, and the
   external parts — the specification parser, the evaluation of a Python
   constraint expression under a problem size (`None` when it raises), the
   search engine (loading its class included), and the text of the comment
   that records a tuning result.
   */
  datatype TuningContext = TuningContext(
    specsMap: map<string, TuningInfo>,
    parseSpec: (string, int) -> Result<TuningInfo>,
    evalConstraint: (string, ProblemSize) -> Option<bool>,
    search: (SearchSetup, ProblemSize) -> Result<(PerfParams, real)>,
    infoComment: (ProblemSize, PerfParams, real) -> string)

  // ---------------------------------------------------------------------
  // Problem sizes

  /** Python's `zip` of two lists: pairs up to the shorter one's length. */
  function Zip<A, B>(xs: seq<A>, ys: seq<B>): (r: seq<(A, B)>)
    ensures |r| == if |xs| <= |ys| then |xs| else |ys|
    ensures forall i :: 0 <= i < |r| ==> r[i] == (xs[i], ys[i])
  {
    var n := if |xs| <= |ys| then |xs| else |ys|;
    seq(n, i requires 0 <= i < n => (xs[i], ys[i]))
  }

  function Names(params: seq<(string, seq<Value>)>): (r: seq<string>)
    ensures |r| == |params| && forall i :: 0 <= i < |params| ==> r[i] == params[i].0
  {
    seq(|params|, i requires 0 <= i < |params| => params[i].0)
  }

  function Ranges(params: seq<(string, seq<Value>)>): (r: seq<seq<Value>>)
    ensures |r| == |params| && forall i :: 0 <= i < |params| ==> r[i] == params[i].1
  {
    seq(|params|, i requires 0 <= i < |params| => params[i].1)
  }

  /** Every combination of input parameter values, each zipped with the parameter names. */
  function CandidateSizes(params: seq<(string, seq<Value>)>): (r: seq<ProblemSize>)
    ensures |r| == |ListAllCombinations(Ranges(params))|
    ensures forall k :: 0 <= k < |r| ==> r[k] == Zip(Names(params), ListAllCombinations(Ranges(params))[k])
  {
    var combs := ListAllCombinations(Ranges(params));
    seq(|combs|, k requires 0 <= k < |combs| => Zip(Names(params), combs[k]))
  }

  /** Whether a problem size satisfies the constraint. */
  function KeepValid(constraint: string, eval: (string, ProblemSize) -> Option<bool>): ProblemSize -> bool
  {
    p => eval(constraint, p) == Some(true)
  }

  /**
   The problem sizes that satisfy the constraint, in their original order;
   the first size whose evaluation raises aborts the whole filtering.
   */
  function FilterValid(sizes: seq<ProblemSize>, constraint: string, eval: (string, ProblemSize) -> Option<bool>)
    : (r: Result<seq<ProblemSize>>)
    ensures r.Ok? <==> forall k :: 0 <= k < |sizes| ==> eval(constraint, sizes[k]).Some?
    ensures r.Ok? ==> r.value == Filter(sizes, KeepValid(constraint, eval))
    ensures r.Fail? ==> r.error == ConstraintEvalFailed(constraint)
    decreases |sizes|
  {
    if |sizes| == 0 then Ok([])
    else
      match eval(constraint, sizes[0])
      case None => Fail(ConstraintEvalFailed(constraint))
      case Some(valid) =>
        var rest :- FilterValid(sizes[1..], constraint, eval);
        assert forall k :: 1 <= k < |sizes| ==> sizes[k] == sizes[1..][k - 1];
        Ok(if valid then [sizes[0]] + rest else rest)
  }

  /**
   The valid problem sizes of a specification: the combinations of input
   parameter values that satisfy all input parameter constraints, in
   combination order. No input parameters, a constraint that raises, and
   no valid size at all are fatal.
   */
  function GetProblemSizes(
    iparamParams: seq<(string, seq<Value>)>,
    iparamConstraints: seq<(string, string)>,
    eval: (string, ProblemSize) -> Option<bool>): (r: Result<seq<ProblemSize>>)
    ensures r == Fail(NoInputParams) <==> |iparamParams| == 0
    ensures r.Ok? ==>
              && |r.value| > 0
              && r.value == Filter(CandidateSizes(iparamParams),
                                   KeepValid(CombineConstraints(iparamConstraints), eval))
    ensures r.Fail? ==>
              r.error in {NoInputParams, NoValidProblemSizes, ConstraintEvalFailed(CombineConstraints(iparamConstraints))}
    ensures |iparamParams| > 0 ==>
              var valid := FilterValid(CandidateSizes(iparamParams), CombineConstraints(iparamConstraints), eval);
              && (r == Fail(ConstraintEvalFailed(CombineConstraints(iparamConstraints))) <==> valid.Fail?)
              && (valid.Ok? ==> (r.Ok? <==> |valid.value| > 0))
  {
    if |iparamParams| == 0 then Fail(NoInputParams)
    else
      var constraint := CombineConstraints(iparamConstraints);
      var candidates := CandidateSizes(iparamParams);
      var valid :- FilterValid(candidates, constraint, eval);
      if |valid| == 0 then Fail(NoValidProblemSizes) else Ok(valid)
  }

  /** Nothing survives a filter exactly when nothing is kept. */
  lemma FilterEmpty<T(!new)>(xs: seq<T>, keep: T -> bool)
    ensures |Filter(xs, keep)| == 0 <==> forall x :: x in xs ==> !keep(x)
  {
    if |Filter(xs, keep)| > 0 {
      assert Filter(xs, keep)[0] in Filter(xs, keep);
    }
  }

  /**
   There is no valid problem size exactly when there are input parameters
   and the constraint evaluates, without raising, to false for every
   candidate.
   */
  lemma NoValidProblemSizesWhenAllRejected(
    iparamParams: seq<(string, seq<Value>)>,
    iparamConstraints: seq<(string, string)>,
    eval: (string, ProblemSize) -> Option<bool>)
    ensures GetProblemSizes(iparamParams, iparamConstraints, eval) == Fail(NoValidProblemSizes) <==>
              && |iparamParams| > 0
              && forall p :: p in CandidateSizes(iparamParams) ==>
                   eval(CombineConstraints(iparamConstraints), p) == Some(false)
  {
    if |iparamParams| > 0 {
      var constraint := CombineConstraints(iparamConstraints);
      var candidates := CandidateSizes(iparamParams);
      assert GetProblemSizes(iparamParams, iparamConstraints, eval) == Fail(NoValidProblemSizes)
         <==> FilterValid(candidates, constraint, eval) == Ok([]);
      FilterValidNone(candidates, constraint, eval);
    }
  }

  /** Filtering leaves nothing exactly when the constraint is false, without raising, everywhere. */
  lemma FilterValidNone(sizes: seq<ProblemSize>, constraint: string, eval: (string, ProblemSize) -> Option<bool>)
    ensures FilterValid(sizes, constraint, eval) == Ok([]) <==>
              forall p :: p in sizes ==> eval(constraint, p) == Some(false)
  {
    FilterEmpty(sizes, KeepValid(constraint, eval));
    if forall p :: p in sizes ==> eval(constraint, p) == Some(false) {
      forall k | 0 <= k < |sizes|
        ensures eval(constraint, sizes[k]).Some?
      {
        assert sizes[k] in sizes;
      }
    }
    if FilterValid(sizes, constraint, eval) == Ok([]) {
      forall p | p in sizes
        ensures eval(constraint, p) == Some(false)
      {
        var k :| 0 <= k < |sizes| && sizes[k] == p;
        assert eval(constraint, sizes[k]).Some?;
        assert !KeepValid(constraint, eval)(p);
        var v := eval(constraint, p);
        assert v == Some(v.value) && v.value == false;
      }
    }
  }

  /**
   When every input parameter has at least one value, every valid problem
   size binds every input parameter, in declaration order, to one of its
   values.
   */
  lemma ProblemSizesBindEveryParam(
    iparamParams: seq<(string, seq<Value>)>,
    iparamConstraints: seq<(string, string)>,
    eval: (string, ProblemSize) -> Option<bool>,
    p: ProblemSize)
    requires forall i :: 0 <= i < |iparamParams| ==> |iparamParams[i].1| > 0
    ensures GetProblemSizes(iparamParams, iparamConstraints, eval).Ok?
            && p in GetProblemSizes(iparamParams, iparamConstraints, eval).value ==>
              && |p| == |iparamParams|
              && (forall i :: 0 <= i < |p| ==> p[i].0 == iparamParams[i].0 && p[i].1 in iparamParams[i].1)
              && eval(CombineConstraints(iparamConstraints), p) == Some(true)
  {
    if !(GetProblemSizes(iparamParams, iparamConstraints, eval).Ok?
         && p in GetProblemSizes(iparamParams, iparamConstraints, eval).value) {
      return;
    }
    var ranges := Ranges(iparamParams);
    var candidates := CandidateSizes(iparamParams);
    assert p in candidates;
    var k :| 0 <= k < |candidates| && candidates[k] == p;
    ListAllCombinationsNonEmpty(ranges);
    var c := ListAllCombinations(ranges)[k];
    assert c in ListAllCombinations(ranges);
    assert PicksFrom(ranges, c);
  }

  /** With every value list non-empty there is one candidate per combination of values. */
  lemma CandidateCount(iparamParams: seq<(string, seq<Value>)>)
    requires |iparamParams| > 0
    requires forall i :: 0 <= i < |iparamParams| ==> |iparamParams[i].1| > 0
    ensures |CandidateSizes(iparamParams)| == ProductOfLengths(Ranges(iparamParams))
  {
    ListAllCombinationsNonEmpty(Ranges(iparamParams));
  }

  /**
   An input parameter whose value list is empty, declared last, is simply
   missing from every problem size: the combinations ignore a trailing
   empty list and the zip with the names stops early.
   */
  lemma TrailingEmptyParamIsDropped(name: string, values: seq<Value>, emptyName: string)
    ensures |CandidateSizes([(name, values), (emptyName, [])])| == |values|
    ensures forall k :: 0 <= k < |values| ==>
              CandidateSizes([(name, values), (emptyName, [])])[k] == [(name, values[k])]
  {
    var params := [(name, values), (emptyName, [])];
    assert Ranges(params) == [values, []];
    ListAllCombinationsTrailingEmpty(values);
  }

  // ---------------------------------------------------------------------
  // Tuning

  /**
   The search engine's configuration: the search space of the performance
   parameters, their combined constraint, the time limit converted from
   minutes to seconds, and parallel search exactly when a batch command is
   given.
   */
  function TuneSetup(info: TuningInfo, cfrags: seq<CodeFrag>): (s: SearchSetup)
    ensures s.axisNames == BuildCoordSystem(info.pparamParams).0
    ensures |s.axisValRanges| == |info.pparamParams|
    ensures forall i :: 0 <= i < |info.pparamParams| ==>
              StrictlyIncreasing(s.axisValRanges[i])
              && forall x :: x in s.axisValRanges[i] <==> x in info.pparamParams[i].1
    ensures s.constraint == "True" + Conjuncts(info.pparamConstraints)
    ensures s.timeLimitSeconds == 60.0 * info.searchTimeLimit
    ensures s.parallel <==> info.batchCmd.Some?
    ensures s.cfrags == cfrags
    ensures s.modPath == ModulePath(SearchPackage, info.searchAlgo) && s.className == info.searchAlgo
    ensures s.totalRuns == info.searchTotalRuns && s.options == info.searchOpts
  {
    var coords := BuildCoordSystem(info.pparamParams);
    SearchSetup(
      ModulePath(SearchPackage, info.searchAlgo), info.searchAlgo, cfrags,
      coords.0, coords.1, CombineConstraints(info.pparamConstraints),
      60.0 * info.searchTimeLimit, info.searchTotalRuns, info.searchOpts,
      info.batchCmd.Some?)
  }

  /**
   Tuning one problem size succeeds: the search finds parameters, and the
   code optimized with them is a sequence of exactly one version.
   */
  predicate SizeTunes(
    ctx: TuningContext, setup: SearchSetup,
    optimize: PerfParams -> Result<Option<seq<Variant>>>, size: ProblemSize)
  {
    && ctx.search(setup, size).Ok?
    && var out := optimize(ctx.search(setup, size).value.0);
       out.Ok? && out.value.Some? && |out.value.value| == 1
  }

  /**
   The entry for one problem size: the single optimized version, preceded
   by the comment recording the result, tagged with the problem size.
   */
  function TunedVariant(
    ctx: TuningContext, setup: SearchSetup,
    optimize: PerfParams -> Result<Option<seq<Variant>>>, size: ProblemSize): Variant
    requires SizeTunes(ctx, setup, optimize, size)
  {
    var (best, cost) := ctx.search(setup, size).value;
    Variant(ctx.infoComment(size, best, cost) + optimize(best).value.value[0].code, size)
  }

  /**
   Tuning every problem size in turn; the first failure aborts. On success
   there is one entry per problem size, in order, each tagged with its size.
   */
  function TuneEach(
    ctx: TuningContext, setup: SearchSetup, sizes: seq<ProblemSize>,
    optimize: PerfParams -> Result<Option<seq<Variant>>>): (r: Result<seq<Variant>>)
    ensures r.Ok? <==> forall k :: 0 <= k < |sizes| ==> SizeTunes(ctx, setup, optimize, sizes[k])
    ensures r.Ok? ==> |r.value| == |sizes|
    ensures r.Ok? ==> forall k :: 0 <= k < |sizes| ==> r.value[k].meta == sizes[k]
    ensures r.Ok? ==> forall k :: 0 <= k < |sizes| ==>
              r.value[k] == TunedVariant(ctx, setup, optimize, sizes[k])
    decreases |sizes|
  {
    if |sizes| == 0 then Ok([])
    else
      var (best, cost) :- ctx.search(setup, sizes[0]);
      var out :- optimize(best);
      if out.None? then Fail(NoVariantSequence)
      else if |out.value| != 1 then Fail(MultipleTunedVersions)
      else
        var rest :- TuneEach(ctx, setup, sizes[1..], optimize);
        assert forall k :: 1 <= k < |sizes| ==> sizes[k] == sizes[1..][k - 1];
        Ok([Variant(ctx.infoComment(sizes[0], best, cost) + out.value[0].code, sizes[0])] + rest)
  }

  /**
   A tuned body that optimizes to several versions (or to none, when it
   has fragments) is fatal: the first problem size whose optimization does
   not yield exactly one version, after every earlier size tuned, stops
   tuning with that error.
   */
  lemma {:induction false} TuneEachRejectsMultipleVersions(
    ctx: TuningContext, setup: SearchSetup, sizes: seq<ProblemSize>,
    optimize: PerfParams -> Result<Option<seq<Variant>>>, k: nat, vs: seq<Variant>)
    requires k < |sizes|
    requires forall j :: 0 <= j < k ==> SizeTunes(ctx, setup, optimize, sizes[j])
    requires ctx.search(setup, sizes[k]).Ok?
    requires optimize(ctx.search(setup, sizes[k]).value.0) == Ok(Some(vs)) && |vs| != 1
    ensures TuneEach(ctx, setup, sizes, optimize) == Fail(MultipleTunedVersions)
    decreases k
  {
    if k > 0 {
      assert forall j :: 0 <= j < k - 1 ==> sizes[1..][j] == sizes[j + 1];
      TuneEachRejectsMultipleVersions(ctx, setup, sizes[1..], optimize, k - 1, vs);
    }
  }

  /**
   `tune`: the tuning specification, then the valid problem sizes, then,
   for an output language the tuner knows, one tuned entry per size.
   */
  function Tune(
    ctx: TuningContext, lang: string, code: string, lineNo: int, cfrags: seq<CodeFrag>,
    optimize: PerfParams -> Result<Option<seq<Variant>>>): (r: Result<seq<Variant>>)
    ensures r.Ok? ==> lang == "c" || lang == "fortran"
    ensures r.Ok? ==>
              && ExtractTuningInfo(ctx.specsMap, ctx.parseSpec, code, lineNo).Ok?
              && var info := ExtractTuningInfo(ctx.specsMap, ctx.parseSpec, code, lineNo).value;
                 && GetProblemSizes(info.iparamParams, info.iparamConstraints, ctx.evalConstraint).Ok?
                 && var sizes := GetProblemSizes(info.iparamParams, info.iparamConstraints, ctx.evalConstraint).value;
                    && |r.value| == |sizes|
                    && forall k :: 0 <= k < |sizes| ==> r.value[k].meta == sizes[k]
    ensures ExtractTuningInfo(ctx.specsMap, ctx.parseSpec, code, lineNo).Fail? ==>
              r == ExtractTuningInfo(ctx.specsMap, ctx.parseSpec, code, lineNo).PropagateFailure()
    ensures lang != "c" && lang != "fortran" ==> r.Fail?
    ensures ExtractTuningInfo(ctx.specsMap, ctx.parseSpec, code, lineNo).Ok? ==>
              var info := ExtractTuningInfo(ctx.specsMap, ctx.parseSpec, code, lineNo).value;
              var sizes := GetProblemSizes(info.iparamParams, info.iparamConstraints, ctx.evalConstraint);
              && (sizes.Fail? ==> r == Fail(sizes.error))
              && (sizes.Ok? && lang != "c" && lang != "fortran" ==> r == Fail(UnknownLanguage(lang)))
              && (sizes.Ok? && (lang == "c" || lang == "fortran") ==>
                    r == TuneEach(ctx, TuneSetup(info, cfrags), sizes.value, optimize))
  {
    var info :- ExtractTuningInfo(ctx.specsMap, ctx.parseSpec, code, lineNo);
    var sizes :- GetProblemSizes(info.iparamParams, info.iparamConstraints, ctx.evalConstraint);
    if lang != "c" && lang != "fortran" then Fail(UnknownLanguage(lang))
    else TuneEach(ctx, TuneSetup(info, cfrags), sizes, optimize)
  }
}
