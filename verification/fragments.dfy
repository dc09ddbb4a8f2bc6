/**
 The fragment tree the optimizer walks: plain code and annotated regions,
 each region bounded by a leader and a trailer annotation.
 */
module Fragments {
  import opened SeqUtil


  /** The module name that marks an annotation as the performance-tuning one. */
  const PerfTuningName: string := "PerfTuning"

  /**
   The opening annotation of a region: the transformation module it names
   (and that name's line), the annotation's own code (and its line), the
   literal text to re-emit, the annotation's line and its indentation.
   */
  datatype LeaderAnn = LeaderAnn(
    modName: string,
    modNameLineNo: int,
    modCode: string,
    modCodeLineNo: int,
    code: string,
    lineNo: int,
    indentSize: nat)

  /** The closing annotation of a region: its literal text and line. */
  datatype TrailerAnn = TrailerAnn(code: string, lineNo: int)

  /** A fragment of the input program. */
  datatype CodeFrag =
    | NonAnn(code: string, lineNo: int)
    | AnnCodeRegion(leader: LeaderAnn, cfrags: seq<CodeFrag>, trailer: TrailerAnn)

  predicate IsPerfTuningLeader(l: LeaderAnn)
  {
    l.modName == PerfTuningName
  }

  predicate IsPerfTuningRegion(f: CodeFrag)
  {
    f.AnnCodeRegion? && IsPerfTuningLeader(f.leader)
  }

  /**
   Tree size: a plain fragment counts one, a region counts its leader, its
   trailer and itself plus the size of its body. It measures the recursion
   of the optimizer and the work list of the validator.
   */
  function Size(f: CodeFrag): (n: nat)
    ensures n >= 1
  {
    match f
    case NonAnn(_, _) => 1
    case AnnCodeRegion(_, body, _) => 3 + SizeAll(body)
  }

  function SizeAll(fs: seq<CodeFrag>): nat
  {
    if |fs| == 0 then 0 else Size(fs[0]) + SizeAll(fs[1..])
  }

  /**
   The dotted path of the module that holds the class named by an
   annotation or a search algorithm: the package, then the lower-cased
   class name twice.
   */
  function ModulePath(package: string, className: string): (r: string)
    ensures |r| == |package| + 2 * |className| + 2
  {
    package + "." + AsciiLower(className) + "." + AsciiLower(className)
  }
}
