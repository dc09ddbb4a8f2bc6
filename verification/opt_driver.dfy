/**
 The optimization driver (`OptDriver`): it walks the fragment tree,
 leaves plain code as it is, hands a PerfTuning region to the tuner, has
 every other region's body optimized first and then rewritten by the
 transformation module the region names, and combines the variants of
 sibling fragments as a Cartesian product. The tuner optimizes the tuned
 body through this same driver, once per problem size.
 */
module OptDriver {
  import opened Outcomes
  import opened SeqUtil
  import opened Fragments
  import opened Variants
  import opened Tuner
  import opened AnnValidator

  /** The package holding the transformation modules. */
  const TransformPackage: string := "orio.module"

  /**
   What the driver hands to a transformation module: where the class is
   loaded from and under which name, then the constructor's arguments.
   */
  datatype TransformRequest = TransformRequest(
    modPath: string,
    className: string,
    perfParams: PerfParams,
    modCode: string,
    bodyCode: string,
    modCodeLineNo: int,
    indentSize: nat,
    lang: string)

  /**
   How loading, instantiating and running a transformation ended: the
   generated code, or the stage at which it failed.
   */
  datatype TransformOutcome =
    | Transformed(code: string)
    | LoadFailed
    | ConstructFailed(detail: string)
    | TransformRaised(detail: string)

  /**
   The driver's surroundings: the tuner's collaborators, the output
   language, and the transformation modules as one function.
   */
  datatype Env = Env(
    tuning: TuningContext,
    lang: string,
    transform: TransformRequest -> TransformOutcome)

  /** The request for the transformation named by `leader`, applied to the optimized body. */
  function RequestFor(env: Env, leader: LeaderAnn, params: PerfParams, bodyCode: string): (q: TransformRequest)
    ensures q.modPath == ModulePath(TransformPackage, leader.modName) && q.className == leader.modName
    ensures q.perfParams == params && q.modCode == leader.modCode && q.bodyCode == bodyCode
    ensures q.modCodeLineNo == leader.modCodeLineNo && q.indentSize == leader.indentSize
    ensures q.lang == env.lang
  {
    TransformRequest(
      ModulePath(TransformPackage, leader.modName), leader.modName, params,
      leader.modCode, bodyCode, leader.modCodeLineNo, leader.indentSize, env.lang)
  }

  /** The transformation's code, or the error of the stage that failed. */
  function Transformation(env: Env, leader: LeaderAnn, params: PerfParams, bodyCode: string): Result<string>
  {
    match env.transform(RequestFor(env, leader, params, bodyCode))
    case Transformed(code) => Ok(code)
    case LoadFailed => Fail(ClassLoadFailed(leader.modNameLineNo, leader.modName))
    case ConstructFailed(detail) => Fail(TransformationFailed(leader.modNameLineNo, leader.modName, detail))
    case TransformRaised(detail) => Fail(TransformationRaised(detail))
  }

  /**
   `__optimizeCodeFrag`: the variants of one fragment. Plain code is its
   own single variant. A region's variants are wrapped in its leader and
   trailer; for a PerfTuning region they are the tuner's, one per problem
   size, otherwise the single code its transformation produces from the
   single optimized version of its body.
   */
  function OptimizeFrag(env: Env, f: CodeFrag, params: PerfParams): (r: Result<seq<Variant>>)
    ensures f.NonAnn? ==> r == Ok([Variant(f.code, [])])
    ensures r.Ok? && f.AnnCodeRegion? ==> forall i :: 0 <= i < |r.value| ==> f.leader.code <= r.value[i].code
    ensures r.Ok? && f.AnnCodeRegion? && !IsPerfTuningRegion(f) ==>
              |r.value| == 1 && r.value[0].meta == []
    ensures f.AnnCodeRegion? && !IsPerfTuningRegion(f) && |f.cfrags| == 0 ==>
              r == Fail(NoVariantSequence)
    decreases Size(f), 0
  {
    match f
    case NonAnn(code, _) => Ok([Variant(code, [])])
    case AnnCodeRegion(leader, body, trailer) =>
      if IsPerfTuningLeader(leader) then
        var tuned :- Tune(env.tuning, env.lang, leader.modCode, leader.modCodeLineNo, body,
                          BodyOptimizer(env, body));
        WrapKeepsLeader(leader.code, trailer.code, tuned);
        Ok(Wrap(leader.code, trailer.code, tuned))
      else
        var bodySeq :- OptimizeFragsFrom(env, body, params, None);
        if bodySeq.None? then Fail(NoVariantSequence)
        else if |bodySeq.value| != 1 then Fail(MultipleBodyVersions)
        else
          var code :- Transformation(env, leader, params, bodySeq.value[0].code);
          WrapKeepsLeader(leader.code, trailer.code, [Variant(code, [])]);
          Ok(Wrap(leader.code, trailer.code, [Variant(code, [])]))
  }

  /**
   A region of another kind: its body's failure is its failure; a body
   that is not exactly one version is fatal; otherwise the single variant
   is the transformation's code applied to that version, wrapped, or the
   error of the transformation stage that failed.
   */
  lemma TransformedRegion(env: Env, f: CodeFrag, params: PerfParams)
    requires f.AnnCodeRegion? && !IsPerfTuningRegion(f)
    ensures var body := OptimizeFragsFrom(env, f.cfrags, params, None);
            var r := OptimizeFrag(env, f, params);
            && (body.Fail? ==> r == Fail(body.error))
            && (body.Ok? && body.value.None? ==> r == Fail(NoVariantSequence))
            && (body.Ok? && body.value.Some? && |body.value.value| != 1 ==> r == Fail(MultipleBodyVersions))
            && (body.Ok? && body.value.Some? && |body.value.value| == 1 ==>
                  var t := Transformation(env, f.leader, params, body.value.value[0].code);
                  && (t.Ok? ==> r == Ok([Variant(f.leader.code + t.value + f.trailer.code, [])]))
                  && (t.Fail? ==> r == Fail(t.error)))
  {
    var body := OptimizeFragsFrom(env, f.cfrags, params, None);
    if body.Ok? && body.value.Some? && |body.value.value| == 1 {
      var t := Transformation(env, f.leader, params, body.value.value[0].code);
      if t.Ok? {
        assert Wrap(f.leader.code, f.trailer.code, [Variant(t.value, [])])
            == [Variant(f.leader.code + t.value + f.trailer.code, [])];
      }
    }
  }

  /**
   The transformation is loaded from the module path of the annotation's
   module name and constructed with the parameters, the annotation code, the
   optimized body, the code's line, the indentation and the output language.
   Each stage that fails is reported as the region's error: loading with the
   module name and its line, constructing with the detail as well, running
   with the detail only.
   */
  lemma TransformationStages(env: Env, leader: LeaderAnn, params: PerfParams, bodyCode: string)
    ensures var out := env.transform(TransformRequest(
              ModulePath(TransformPackage, leader.modName), leader.modName, params, leader.modCode,
              bodyCode, leader.modCodeLineNo, leader.indentSize, env.lang));
            var t := Transformation(env, leader, params, bodyCode);
            && (out.Transformed? <==> t.Ok?)
            && (out.Transformed? ==> t.value == out.code)
            && (out.LoadFailed? ==> t == Fail(ClassLoadFailed(leader.modNameLineNo, leader.modName)))
            && (out.ConstructFailed? ==>
                  t == Fail(TransformationFailed(leader.modNameLineNo, leader.modName, out.detail)))
            && (out.TransformRaised? ==> t == Fail(TransformationRaised(out.detail)))
  {
  }

  /**
   How the tuner optimizes the tuned body with the parameters its search
   found: the body's fragments through the driver, not as a top level.
   */
  function BodyOptimizer(env: Env, body: seq<CodeFrag>): (opt: PerfParams -> Result<Option<seq<Variant>>>)
    ensures forall p :: opt(p) == OptimizeFragsFrom(env, body, p, None)
    decreases SizeAll(body), 2
  {
    p => OptimizeFragsFrom(env, body, p, None)
  }

  /**
   The loop of `optimizeCodeFrags`: the fragments in order, each one's
   variants combined into what is accumulated so far (`None` before the
   first); the first failing fragment aborts.
   */
  function OptimizeFragsFrom(
    env: Env, fs: seq<CodeFrag>, params: PerfParams, acc: Option<seq<Variant>>): Result<Option<seq<Variant>>>
    decreases SizeAll(fs), 1
  {
    if |fs| == 0 then Ok(acc)
    else
      var cur :- OptimizeFrag(env, fs[0], params);
      OptimizeFragsFrom(env, fs[1..], params, Some(Accumulate(acc, cur)))
  }

  /** One fragment's optimization, as a function of the fragment alone. */
  function Optimizer(env: Env, params: PerfParams): CodeFrag -> Result<seq<Variant>>
  {
    f => OptimizeFrag(env, f, params)
  }

  /**
   The reference the loop is measured against: every fragment optimized
   independently, in order; the first failing fragment's error otherwise.
   */
  function OptimizeEach(env: Env, fs: seq<CodeFrag>, params: PerfParams): Result<seq<seq<Variant>>>
  {
    MapAll(fs, Optimizer(env, params))
  }

  // ---------------------------------------------------------------------
  // The fold against its reference

  /**
   The loop computes the combination of the fragments' independently
   optimized variants, or fails with the first failing fragment's error.
   */
  lemma {:induction false} OptimizeFragsIsCombination(
    env: Env, fs: seq<CodeFrag>, params: PerfParams, acc: Option<seq<Variant>>)
    ensures OptimizeEach(env, fs, params).Ok? ==>
              OptimizeFragsFrom(env, fs, params, acc) == Ok(CombineFrom(acc, OptimizeEach(env, fs, params).value))
    ensures OptimizeEach(env, fs, params).Fail? ==>
              OptimizeFragsFrom(env, fs, params, acc) == Fail(OptimizeEach(env, fs, params).error)
    decreases |fs|
  {
    if |fs| > 0 {
      var first := OptimizeFrag(env, fs[0], params);
      if first.Ok? {
        OptimizeFragsIsCombination(env, fs[1..], params,
          Some(Accumulate(acc, first.value)));
      }
    }
  }

  /**
   `optimizeCodeFrags` on a list of fragments that all optimize: `None`
   exactly for no fragments, otherwise as many variants as the product of
   the fragments' variant counts, and the variant at each position is the
   join of one variant of the first fragment with one of the combination of
   the rest.
   */
  lemma OptimizeFragsCount(env: Env, fs: seq<CodeFrag>, params: PerfParams)
    requires forall k :: 0 <= k < |fs| ==> OptimizeFrag(env, fs[k], params).Ok?
    ensures OptimizeFragsFrom(env, fs, params, None).Ok?
    ensures OptimizeFragsFrom(env, fs, params, None).value.None? <==> |fs| == 0
    ensures |fs| > 0 ==>
              |OptimizeFragsFrom(env, fs, params, None).value.value|
              == ProductOfLengths(OptimizeEach(env, fs, params).value)
  {
    OptimizeFragsIsCombination(env, fs, params, None);
    if |fs| > 0 {
      CombineAllCount(OptimizeEach(env, fs, params).value);
    }
  }

  /** A single fragment's variants come back unchanged; no fragments give `None`. */
  lemma SingleFragmentUnchanged(env: Env, f: CodeFrag, params: PerfParams)
    ensures OptimizeFragsFrom(env, [], params, None) == Ok(None)
    ensures OptimizeFrag(env, f, params).Ok? ==>
              OptimizeFragsFrom(env, [f], params, None) == Ok(Some(OptimizeFrag(env, f, params).value))
    ensures OptimizeFrag(env, f, params).Fail? ==>
              OptimizeFragsFrom(env, [f], params, None) == Fail(OptimizeFrag(env, f, params).error)
  {
    assert [f][1..] == [];
  }

  /** Optimizing a list split in two is combining the two halves' results. */
  lemma OptimizeFragsAppend(
    env: Env, a: seq<CodeFrag>, b: seq<CodeFrag>, params: PerfParams, va: seq<Variant>, vb: seq<Variant>)
    requires OptimizeFragsFrom(env, a, params, None) == Ok(Some(va))
    requires OptimizeFragsFrom(env, b, params, None) == Ok(Some(vb))
    ensures OptimizeFragsFrom(env, a + b, params, None) == Ok(Some(Combine(va, vb)))
  {
    OptimizeFragsIsCombination(env, a, params, None);
    OptimizeFragsIsCombination(env, b, params, None);
    var ea := OptimizeEach(env, a, params).value;
    var eb := OptimizeEach(env, b, params).value;
    MapAllAppend(a, b, Optimizer(env, params));
    OptimizeFragsIsCombination(env, a + b, params, None);
    CombineAllAppend(ea, eb);
  }

  // ---------------------------------------------------------------------
  // What the driver produces

  /** The text of a list of fragments taken as plain code. */
  function PlainText(fs: seq<CodeFrag>): string
    requires forall k :: 0 <= k < |fs| ==> fs[k].NonAnn?
  {
    if |fs| == 0 then "" else fs[0].code + PlainText(fs[1..])
  }

  /** Accumulating over plain fragments appends their text to the single variant. */
  lemma {:induction false} PlainFragsAppendText(env: Env, fs: seq<CodeFrag>, params: PerfParams, text: string)
    requires forall k :: 0 <= k < |fs| ==> fs[k].NonAnn?
    ensures OptimizeFragsFrom(env, fs, params, Some([Variant(text, [])]))
         == Ok(Some([Variant(text + PlainText(fs), [])]))
    decreases |fs|
  {
    if |fs| > 0 {
      var c := fs[0].code;
      assert OptimizeFrag(env, fs[0], params) == Ok([Variant(c, [])]);
      CombineSingletons(Variant(text, []), Variant(c, []));
      assert Join(Variant(text, []), Variant(c, [])) == Variant(text + c, []);
      PlainFragsAppendText(env, fs[1..], params, text + c);
      assert text + c + PlainText(fs[1..]) == text + (c + PlainText(fs[1..]));
    } else {
      assert text + PlainText(fs) == text;
    }
  }

  /**
   A program without annotations is reproduced verbatim: a single
   version, its text the fragments' text in order, bound to nothing.
   */
  lemma PlainProgramUnchanged(env: Env, fs: seq<CodeFrag>, params: PerfParams)
    requires |fs| > 0 && forall k :: 0 <= k < |fs| ==> fs[k].NonAnn?
    ensures OptimizeFragsFrom(env, fs, params, None) == Ok(Some([Variant(PlainText(fs), [])]))
  {
    PlainFragsAppendText(env, fs[1..], params, fs[0].code);
  }

  /**
   Every variant of a region carries the region's leader text in front and
   its trailer text at the end.
   */
  lemma RegionVariantsAreWrapped(env: Env, f: CodeFrag, params: PerfParams)
    requires f.AnnCodeRegion?
    ensures OptimizeFrag(env, f, params).Ok? ==>
              forall i :: 0 <= i < |OptimizeFrag(env, f, params).value| ==>
                IsWrapped(f.leader.code, f.trailer.code, OptimizeFrag(env, f, params).value[i].code)
  {
    if OptimizeFrag(env, f, params).Fail? {
    } else if IsPerfTuningRegion(f) {
      var tuned := Tune(env.tuning, env.lang, f.leader.modCode, f.leader.modCodeLineNo, f.cfrags,
                        BodyOptimizer(env, f.cfrags));
      WrapMarksEveryCode(f.leader.code, f.trailer.code, tuned.value);
    } else {
      var bodySeq := OptimizeFragsFrom(env, f.cfrags, params, None).value;
      var code := Transformation(env, f.leader, params, bodySeq.value[0].code).value;
      WrapMarksEveryCode(f.leader.code, f.trailer.code, [Variant(code, [])]);
    }
  }

  /**
   A PerfTuning region is the tuner's result, wrapped: stripping the
   leader and trailer gives back exactly the tuned entries, one per problem
   size and tagged with it, whatever performance parameters are in force
   around the region.
   */
  lemma PerfTuningRegionIsTuned(env: Env, f: CodeFrag, params: PerfParams, other: PerfParams)
    requires IsPerfTuningRegion(f)
    ensures OptimizeFrag(env, f, params) == OptimizeFrag(env, f, other)
    ensures var tuned := Tune(env.tuning, env.lang, f.leader.modCode, f.leader.modCodeLineNo, f.cfrags,
                              BodyOptimizer(env, f.cfrags));
            && (OptimizeFrag(env, f, params).Ok? <==> tuned.Ok?)
            && (tuned.Fail? ==> OptimizeFrag(env, f, params) == Fail(tuned.error))
            && (tuned.Ok? ==>
                  && LongEnough(f.leader.code, f.trailer.code, OptimizeFrag(env, f, params).value)
                  && Unwrap(f.leader.code, f.trailer.code, OptimizeFrag(env, f, params).value) == tuned.value)
  {
    var tuned := Tune(env.tuning, env.lang, f.leader.modCode, f.leader.modCodeLineNo, f.cfrags,
                      BodyOptimizer(env, f.cfrags));
    if tuned.Ok? {
      WrapRoundTrip(f.leader.code, f.trailer.code, tuned.value);
    }
  }

  /**
   A region of another kind whose body is tuned for more than one problem
   size is fatal: its body optimizes to several versions.
   */
  lemma TunedBodyOfTransformationFails(env: Env, leader: LeaderAnn, tuned: CodeFrag, trailer: TrailerAnn, params: PerfParams)
    requires !IsPerfTuningLeader(leader) && IsPerfTuningRegion(tuned)
    ensures OptimizeFrag(env, tuned, params).Ok? && |OptimizeFrag(env, tuned, params).value| > 1 ==>
              OptimizeFrag(env, AnnCodeRegion(leader, [tuned], trailer), params) == Fail(MultipleBodyVersions)
  {
    if OptimizeFrag(env, tuned, params).Fail? || |OptimizeFrag(env, tuned, params).value| <= 1 {
      return;
    }
    var vs := OptimizeFrag(env, tuned, params).value;
    var f := AnnCodeRegion(leader, [tuned], trailer);
    assert [tuned][1..] == [];
    assert OptimizeFragsFrom(env, [tuned], params, None) == OptimizeFragsFrom(env, [], params, Some(vs));
    assert OptimizeFragsFrom(env, [], params, Some(vs)) == Ok(Some(vs));
    assert OptimizeFragsFrom(env, f.cfrags, params, None) == Ok(Some(vs));
  }

  /**
   Plain code around one fragment: each of the fragment's variants, in
   order and with its bindings, between the text before and the text after.
   */
  lemma SurroundedFragment(env: Env, before: CodeFrag, f: CodeFrag, after: CodeFrag, params: PerfParams)
    requires before.NonAnn? && after.NonAnn?
    ensures OptimizeFrag(env, f, params).Fail? ==>
              OptimizeFragsFrom(env, [before, f, after], params, None) == Fail(OptimizeFrag(env, f, params).error)
    ensures OptimizeFrag(env, f, params).Ok? ==>
              var vs := OptimizeFrag(env, f, params).value;
              OptimizeFragsFrom(env, [before, f, after], params, None)
              == Ok(Some(seq(|vs|, i requires 0 <= i < |vs| =>
                       Variant(before.code + vs[i].code + after.code, vs[i].meta))))
  {
    if OptimizeFrag(env, f, params).Fail? {
      assert [before, f, after][1..] == [f, after];
      return;
    }
    var vs := OptimizeFrag(env, f, params).value;
    var fs := [before, f, after];
    assert fs[1..] == [f, after] && fs[1..][1..] == [after] && fs[1..][1..][1..] == [];
    var left := Combine([Variant(before.code, [])], vs);
    var both := Combine(left, [Variant(after.code, [])]);
    assert OptimizeFragsFrom(env, fs, params, None)
        == OptimizeFragsFrom(env, [f, after], params, Some([Variant(before.code, [])]));
    assert OptimizeFragsFrom(env, [f, after], params, Some([Variant(before.code, [])]))
        == OptimizeFragsFrom(env, [after], params, Some(left));
    assert OptimizeFragsFrom(env, [after], params, Some(left))
        == OptimizeFragsFrom(env, [], params, Some(both));
    Framed(before.code, vs, after.code);
  }

  // ---------------------------------------------------------------------
  // The entry point

  /**
   `optimizeCodeFrags`: at the top level, the PerfTuning annotations are
   checked first and a violation stops everything; then the fragments are
   optimized in order and their variants combined.
   */
  method OptimizeCodeFrags(env: Env, cfrags: seq<CodeFrag>, params: PerfParams, isTopLevel: bool)
    returns (r: Result<Option<seq<Variant>>>)
    ensures isTopLevel && !TuningAnnsValid(cfrags) ==>
              r.Fail? && (r.error.TooManyPerfTuningAnns? || r.error.NestedPerfTuningAnn?)
    ensures isTopLevel && !TuningAnnsValid(cfrags) && r.Fail? && r.error.TooManyPerfTuningAnns? ==>
              exists j :: 0 <= j < |cfrags| && IsPerfTuningRegion(cfrags[j])
                && PerfTuningCount(cfrags[..j]) == 1
                && r.error.line == cfrags[j].leader.modNameLineNo
                && forall i :: 0 <= i < j && IsPerfTuningRegion(cfrags[i]) ==> PerfTuningLines(cfrags[i].cfrags) == {}
    ensures isTopLevel && !TuningAnnsValid(cfrags) && r.Fail? && r.error.NestedPerfTuningAnn? ==>
              exists j :: 0 <= j < |cfrags| && IsPerfTuningRegion(cfrags[j])
                && PerfTuningCount(cfrags[..j]) == 0
                && r.error.line in PerfTuningLines(cfrags[j].cfrags)
    ensures !isTopLevel || TuningAnnsValid(cfrags) ==>
              (OptimizeEach(env, cfrags, params).Ok? ==> r == Ok(CombineAll(OptimizeEach(env, cfrags, params).value)))
              && (OptimizeEach(env, cfrags, params).Fail? ==> r == Fail(OptimizeEach(env, cfrags, params).error))
  {
    if isTopLevel {
      var check := CheckPerfTuningAnns(cfrags);
      if check.Fail? {
        return Fail(check.error);
      }
    }
    r := CombineFragments(env, cfrags, params);
    OptimizeFragsIsCombination(env, cfrags, params, None);
  }

  /** The loop over the fragments, fragment by fragment, stopping at the first failure. */
  method CombineFragments(env: Env, cfrags: seq<CodeFrag>, params: PerfParams)
    returns (r: Result<Option<seq<Variant>>>)
    ensures r == OptimizeFragsFrom(env, cfrags, params, None)
  {
    ghost var target := OptimizeFragsFrom(env, cfrags, params, None);
    var acc: Option<seq<Variant>> := None;
    var k := 0;
    while k < |cfrags|
      invariant 0 <= k <= |cfrags|
      invariant OptimizeFragsFrom(env, cfrags[k..], params, acc) == target
    {
      var cur := OptimizeFrag(env, cfrags[k], params);
      if cur.Fail? {
        OptimizeFragsFails(env, cfrags, params, acc, k);
        return Fail(cur.error);
      }
      OptimizeFragsStep(env, cfrags, params, acc, k, cur.value);
      acc := Some(Accumulate(acc, cur.value));
      k := k + 1;
    }
    return Ok(acc);
  }

  /** A failing fragment aborts the rest of the loop with its error. */
  lemma OptimizeFragsFails(env: Env, fs: seq<CodeFrag>, params: PerfParams, acc: Option<seq<Variant>>, k: nat)
    requires k < |fs| && OptimizeFrag(env, fs[k], params).Fail?
    ensures OptimizeFragsFrom(env, fs[k..], params, acc) == Fail(OptimizeFrag(env, fs[k], params).error)
  {
    assert fs[k..][0] == fs[k];
  }

  /** A fragment that optimizes is folded into the accumulator. */
  lemma OptimizeFragsStep(
    env: Env, fs: seq<CodeFrag>, params: PerfParams, acc: Option<seq<Variant>>, k: nat, cur: seq<Variant>)
    requires k < |fs| && OptimizeFrag(env, fs[k], params) == Ok(cur)
    ensures OptimizeFragsFrom(env, fs[k..], params, acc)
         == OptimizeFragsFrom(env, fs[k + 1..], params, Some(Accumulate(acc, cur)))
  {
    assert fs[k..][0] == fs[k] && fs[k..][1..] == fs[k + 1..];
  }
}
