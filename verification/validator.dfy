/**
 The validation of PerfTuning annotations that precedes a top-level
 optimization (`__checkPerfTuningAnns`): at most one top-level PerfTuning
 region, and no PerfTuning leader anywhere inside it. Only the subtrees of
 top-level PerfTuning regions are searched, so a PerfTuning region nested
 in some other region goes unnoticed.
 */
module AnnValidator {
  import opened Outcomes
  import opened Fragments

  /** An entry of the search's work list: a fragment, or a bare leader or trailer annotation. */
  datatype WorkItem =
    | FragItem(frag: CodeFrag)
    | LeaderItem(leader: LeaderAnn)
    | TrailerItem(trailer: TrailerAnn)

  function ItemSize(w: WorkItem): nat
  {
    match w
    case FragItem(f) => Size(f)
    case _ => 1
  }

  /** The total tree size still to be searched; it decreases with every step. */
  function ItemsSize(ws: seq<WorkItem>): nat
  {
    if |ws| == 0 then 0 else ItemSize(ws[0]) + ItemsSize(ws[1..])
  }

  /** The lines of the PerfTuning leaders of all regions in `fs`, at any depth. */
  function PerfTuningLines(fs: seq<CodeFrag>): set<int>
    decreases SizeAll(fs), 1
  {
    if |fs| == 0 then {} else FragLines(fs[0]) + PerfTuningLines(fs[1..])
  }

  /** The lines of the PerfTuning leaders in `f`, itself included, at any depth. */
  function FragLines(f: CodeFrag): set<int>
    decreases Size(f), 0
  {
    match f
    case NonAnn(_, _) => {}
    case AnnCodeRegion(leader, body, _) => LeaderLines(leader) + PerfTuningLines(body)
  }

  function LeaderLines(l: LeaderAnn): set<int>
  {
    if IsPerfTuningLeader(l) then {l.lineNo} else {}
  }

  function ItemLines(w: WorkItem): set<int>
  {
    match w
    case FragItem(f) => FragLines(f)
    case LeaderItem(l) => LeaderLines(l)
    case TrailerItem(_) => {}
  }

  /** The PerfTuning leader lines the work list can still reach. */
  function ItemsLines(ws: seq<WorkItem>): set<int>
  {
    if |ws| == 0 then {} else ItemLines(ws[0]) + ItemsLines(ws[1..])
  }

  function Items(fs: seq<CodeFrag>): (ws: seq<WorkItem>)
    ensures |ws| == |fs| && forall i :: 0 <= i < |fs| ==> ws[i] == FragItem(fs[i])
  {
    seq(|fs|, i requires 0 <= i < |fs| => FragItem(fs[i]))
  }

  lemma {:induction false} ItemsAppend(a: seq<WorkItem>, b: seq<WorkItem>)
    ensures ItemsLines(a + b) == ItemsLines(a) + ItemsLines(b)
    ensures ItemsSize(a + b) == ItemsSize(a) + ItemsSize(b)
  {
    if |a| == 0 {
      assert a + b == b;
    } else {
      assert (a + b)[1..] == a[1..] + b;
      ItemsAppend(a[1..], b);
    }
  }

  /** A list of fragments put on the work list carries their lines and their size. */
  lemma {:induction false} ItemsOfFrags(fs: seq<CodeFrag>)
    ensures ItemsLines(Items(fs)) == PerfTuningLines(fs)
    ensures ItemsSize(Items(fs)) == SizeAll(fs)
  {
    if |fs| > 0 {
      assert Items(fs)[1..] == Items(fs[1..]);
      ItemsOfFrags(fs[1..]);
    }
  }

  /**
   Searches the children of a top-level PerfTuning region for a PerfTuning
   leader, first in first out: the work list starts with the children
   only, and every region taken off it puts back its leader, its children
   and its trailer. Reports the line of a PerfTuning leader found, if any.
   */
  method FindNestedPerfTuning(children: seq<CodeFrag>) returns (found: Option<int>)
    ensures found.None? <==> PerfTuningLines(children) == {}
    ensures found.Some? ==> found.value in PerfTuningLines(children)
  {
    var work := Items(children);
    ItemsOfFrags(children);
    while |work| > 0
      invariant ItemsLines(work) == PerfTuningLines(children)
      decreases ItemsSize(work)
    {
      var item := work[0];
      assert work == [item] + work[1..];
      ItemsAppend([item], work[1..]);
      work := work[1..];
      match item {
        case LeaderItem(l) =>
          if IsPerfTuningLeader(l) {
            return Some(l.lineNo);
          }
        case FragItem(f) =>
          if f.AnnCodeRegion? {
            var expansion := [LeaderItem(f.leader)] + Items(f.cfrags) + [TrailerItem(f.trailer)];
            ItemsOfFrags(f.cfrags);
            ItemsAppend([LeaderItem(f.leader)], Items(f.cfrags));
            ItemsAppend([LeaderItem(f.leader)] + Items(f.cfrags), [TrailerItem(f.trailer)]);
            ItemsAppend(work, expansion);
            work := work + expansion;
          }
        case TrailerItem(_) =>
      }
    }
    return None;
  }

  /** The number of top-level PerfTuning regions. */
  function PerfTuningCount(fs: seq<CodeFrag>): nat
  {
    if |fs| == 0 then 0 else (if IsPerfTuningRegion(fs[0]) then 1 else 0) + PerfTuningCount(fs[1..])
  }

  lemma {:induction false} PerfTuningCountAppend(a: seq<CodeFrag>, b: seq<CodeFrag>)
    ensures PerfTuningCount(a + b) == PerfTuningCount(a) + PerfTuningCount(b)
  {
    if |a| == 0 {
      assert a + b == b;
    } else {
      assert (a + b)[1..] == a[1..] + b;
      PerfTuningCountAppend(a[1..], b);
    }
  }

  /** Counting over one more fragment, and a prefix never counts more than the whole. */
  lemma PerfTuningCountPrefix(fs: seq<CodeFrag>, k: nat)
    requires k < |fs|
    ensures PerfTuningCount(fs[..k + 1]) == PerfTuningCount(fs[..k]) + if IsPerfTuningRegion(fs[k]) then 1 else 0
    ensures PerfTuningCount(fs[..k + 1]) <= PerfTuningCount(fs)
  {
    assert fs[..k + 1] == fs[..k] + [fs[k]];
    PerfTuningCountAppend(fs[..k], [fs[k]]);
    assert fs == fs[..k + 1] + fs[k + 1..];
    PerfTuningCountAppend(fs[..k + 1], fs[k + 1..]);
  }

  /**
   What the validation accepts: at most one top-level PerfTuning region, and
   no PerfTuning leader at any depth inside a top-level PerfTuning region.
   */
  predicate TuningAnnsValid(cfrags: seq<CodeFrag>)
  {
    && PerfTuningCount(cfrags) <= 1
    && forall i :: 0 <= i < |cfrags| && IsPerfTuningRegion(cfrags[i]) ==>
         PerfTuningLines(cfrags[i].cfrags) == {}
  }

  /**
   The validation: the top-level fragments in order; the second PerfTuning
   region is fatal (reported at the line of its module name), and so is a
   PerfTuning leader found inside the first one (reported at its own line).
   */
  method CheckPerfTuningAnns(cfrags: seq<CodeFrag>) returns (r: Result<()>)
    ensures r.Ok? <==> TuningAnnsValid(cfrags)
    ensures r.Fail? ==> r.error.TooManyPerfTuningAnns? || r.error.NestedPerfTuningAnn?
    ensures r.Fail? && r.error.TooManyPerfTuningAnns? ==>
              exists j :: 0 <= j < |cfrags| && IsPerfTuningRegion(cfrags[j])
                && PerfTuningCount(cfrags[..j]) == 1
                && r.error.line == cfrags[j].leader.modNameLineNo
                && forall i :: 0 <= i < j && IsPerfTuningRegion(cfrags[i]) ==> PerfTuningLines(cfrags[i].cfrags) == {}
    ensures r.Fail? && r.error.NestedPerfTuningAnn? ==>
              exists j :: 0 <= j < |cfrags| && IsPerfTuningRegion(cfrags[j])
                && PerfTuningCount(cfrags[..j]) == 0
                && r.error.line in PerfTuningLines(cfrags[j].cfrags)
  {
    var count := 0;
    var k := 0;
    while k < |cfrags|
      invariant 0 <= k <= |cfrags|
      invariant count == PerfTuningCount(cfrags[..k]) && count <= 1
      invariant forall i :: 0 <= i < k && IsPerfTuningRegion(cfrags[i]) ==>
                  PerfTuningLines(cfrags[i].cfrags) == {}
    {
      var cf := cfrags[k];
      PerfTuningCountPrefix(cfrags, k);
      if IsPerfTuningRegion(cf) {
        count := count + 1;
        if count > 1 {
          return Fail(TooManyPerfTuningAnns(cf.leader.modNameLineNo));
        }
        var found := FindNestedPerfTuning(cf.cfrags);
        if found.Some? {
          return Fail(NestedPerfTuningAnn(found.value));
        }
      }
      k := k + 1;
    }
    assert cfrags[..k] == cfrags;
    return Ok(());
  }

  // ---------------------------------------------------------------------
  // What the validation accepts and rejects

  /** A program without top-level PerfTuning regions passes. */
  lemma {:induction false} NoPerfTuningPasses(cfrags: seq<CodeFrag>)
    requires forall i :: 0 <= i < |cfrags| ==> !IsPerfTuningRegion(cfrags[i])
    ensures TuningAnnsValid(cfrags)
  {
    if |cfrags| > 0 {
      NoPerfTuningPasses(cfrags[1..]);
    }
  }

  /** Two top-level PerfTuning regions are rejected. */
  lemma TwoPerfTuningRegionsFail(a: CodeFrag, b: CodeFrag)
    requires IsPerfTuningRegion(a) && IsPerfTuningRegion(b)
    ensures !TuningAnnsValid([a, b])
  {
    assert [a, b][1..] == [b];
    assert [b][1..] == [];
    assert PerfTuningCount([b]) == 1;
    assert PerfTuningCount([a, b]) == 2;
  }

  /**
   A program made of one PerfTuning region with another PerfTuning region
   among its direct children is rejected.
   */
  lemma NestedPerfTuningFails(outer: CodeFrag, inner: CodeFrag)
    requires IsPerfTuningRegion(outer) && IsPerfTuningRegion(inner)
    requires inner in outer.cfrags
    ensures !TuningAnnsValid([outer])
  {
    InnerLinesIncluded(outer.cfrags, inner);
  }

  /** The leader line of a PerfTuning fragment belongs to the lines of any list holding it. */
  lemma {:induction false} InnerLinesIncluded(fs: seq<CodeFrag>, inner: CodeFrag)
    requires IsPerfTuningRegion(inner) && inner in fs
    ensures inner.leader.lineNo in PerfTuningLines(fs)
  {
    if fs[0] != inner {
      InnerLinesIncluded(fs[1..], inner);
    }
  }

  /**
   The gap: a PerfTuning region inside a region of another kind is never
   looked at, so a single such nesting passes.
   */
  lemma PerfTuningInsideOtherRegionPasses(outer: LeaderAnn, inner: LeaderAnn, t: TrailerAnn)
    requires !IsPerfTuningLeader(outer) && IsPerfTuningLeader(inner)
    ensures TuningAnnsValid([AnnCodeRegion(outer, [AnnCodeRegion(inner, [], t)], t)])
  {
    var program := [AnnCodeRegion(outer, [AnnCodeRegion(inner, [], t)], t)];
    assert !IsPerfTuningRegion(program[0]);
    NoPerfTuningPasses(program);
  }
}
