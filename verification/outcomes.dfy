/**
 Failure-compatible wrappers shared by the whole model, and the one error
 datatype that stands for every way the optimizer can abort. The optimizer
 reports a diagnostic and exits the process; here each such exit is
 a `Fail` carrying the diagnostic's kind and source location.
 */
module Outcomes {

  datatype Option<+T> = None | Some(value: T)

  /** Why an optimization run aborted. */
  datatype Error =
      /** A second top-level PerfTuning region (line of its module name). */
    | TooManyPerfTuningAnns(line: int)
      /** A PerfTuning leader nested inside the top-level PerfTuning region. */
    | NestedPerfTuningAnn(line: int)
      /** The body of a transformation region optimized to several versions. */
    | MultipleBodyVersions
      /** An empty fragment list yields no variant sequence at all, and the
          caller measured its length. */
    | NoVariantSequence
      /** The transformation class could not be loaded. */
    | ClassLoadFailed(line: int, className: string)
      /** The transformation could not be instantiated. */
    | TransformationFailed(line: int, modName: string, detail: string)
      /** The transformation raised while producing code. */
    | TransformationRaised(detail: string)
      /** `import spec NAME;` names no known specification. */
    | UndefinedSpec(line: int, name: string)
      /** The tuning specification declares no input parameters. */
    | NoInputParams
      /** Evaluating the combined input-parameter constraint raised. */
    | ConstraintEvalFailed(constraint: string)
      /** No problem size satisfies the input-parameter constraint. */
    | NoValidProblemSizes
      /** The output language is neither "c" nor "fortran". */
    | UnknownLanguage(lang: string)
      /** A tuned body optimized to other than exactly one version. */
    | MultipleTunedVersions
      /** A failure reported by an external collaborator (spec parser,
          search engine). */
    | External(detail: string)

  datatype Result<+T> = Ok(value: T) | Fail(error: Error) {

    predicate IsFailure() {
      Fail?
    }

    function PropagateFailure<U>(): Result<U>
      requires Fail?
    {
      Fail(error)
    }

    function Extract(): T
      requires Ok?
    {
      value
    }
  }

  /**
   `f` applied to every element in order, stopping at the first failure;
   on success, one result per element.
   */
  function MapAll<T, U>(xs: seq<T>, f: T -> Result<U>): (r: Result<seq<U>>)
    ensures r.Ok? <==> forall k :: 0 <= k < |xs| ==> f(xs[k]).Ok?
    ensures r.Ok? ==> |r.value| == |xs|
    ensures r.Ok? ==> forall k :: 0 <= k < |xs| ==> r.value[k] == f(xs[k]).value
  {
    if |xs| == 0 then Ok([])
    else
      var first :- f(xs[0]);
      var rest :- MapAll(xs[1..], f);
      assert forall k :: 1 <= k < |xs| ==> xs[k] == xs[1..][k - 1];
      Ok([first] + rest)
  }

  /** A failing map reports the error of the first element that fails. */
  lemma {:induction false} MapAllFirstFailure<T, U>(xs: seq<T>, f: T -> Result<U>)
    requires MapAll(xs, f).Fail?
    ensures exists k :: 0 <= k < |xs|
              && (forall j :: 0 <= j < k ==> f(xs[j]).Ok?)
              && f(xs[k]) == Fail(MapAll(xs, f).error)
  {
    if f(xs[0]).Ok? {
      MapAllFirstFailure(xs[1..], f);
      var k :| 0 <= k < |xs| - 1
               && (forall j :: 0 <= j < k ==> f(xs[1..][j]).Ok?)
               && f(xs[1..][k]) == Fail(MapAll(xs[1..], f).error);
      assert forall j :: 0 <= j < k + 1 ==> f(xs[j]).Ok? by {
        forall j | 0 <= j < k + 1
          ensures f(xs[j]).Ok?
        {
          if j > 0 {
            assert xs[j] == xs[1..][j - 1];
          }
        }
      }
      assert xs[k + 1] == xs[1..][k];
    } else {
      assert f(xs[0]) == Fail(MapAll(xs, f).error);
    }
  }

  /** Mapping over `a + b` is mapping over `a`, then over `b`. */
  lemma {:induction false} MapAllAppend<T, U>(a: seq<T>, b: seq<T>, f: T -> Result<U>)
    requires MapAll(a, f).Ok? && MapAll(b, f).Ok?
    ensures MapAll(a + b, f) == Ok(MapAll(a, f).value + MapAll(b, f).value)
  {
    var ab := a + b;
    var ra := MapAll(a, f).value;
    var rb := MapAll(b, f).value;
    forall k | 0 <= k < |ab|
      ensures f(ab[k]).Ok? && f(ab[k]).value == (ra + rb)[k]
    {
      if k < |a| {
        assert ab[k] == a[k];
      } else {
        assert ab[k] == b[k - |a|];
      }
    }
    var r := MapAll(ab, f);
    assert r.Ok?;
    assert |r.value| == |ra + rb|;
    assert forall k :: 0 <= k < |ab| ==> r.value[k] == (ra + rb)[k];
    assert r.value == ra + rb;
  }
}
