/**
 Tuning information of a PerfTuning annotation: how the tuner combines
 constraint expressions into one string, recognises an annotation that
 only imports a named specification (`import spec NAME;`), and looks that
 specification up.
 */
module TuningSpec {
  import opened Outcomes
  import opened Variants

  /**
   The parts of a tuning specification the tuner itself uses. Input
   parameters span the problem sizes, performance parameters span the
   search space; each constraint is a variable name and a Python boolean
   expression kept as text.
   */
  datatype TuningInfo = TuningInfo(
    iparamParams: seq<(string, seq<Value>)>,
    iparamConstraints: seq<(string, string)>,
    pparamParams: seq<(string, seq<Value>)>,
    pparamConstraints: seq<(string, string)>,
    searchAlgo: string,
    searchTimeLimit: real,
    searchTotalRuns: int,
    searchOpts: seq<(string, Value)>,
    batchCmd: Option<string>)

  // ---------------------------------------------------------------------
  // Constraint strings

  /** The clause one constraint contributes. */
  function Conjunct(rhs: string): string
  {
    " and (" + rhs + ")"
  }

  /** One clause per constraint, in order. */
  function Conjuncts(cs: seq<(string, string)>): string
  {
    if |cs| == 0 then "" else Conjunct(cs[0].1) + Conjuncts(cs[1..])
  }

  /** The accumulating loop: `acc` followed by one clause per constraint. */
  function CombineConstraintsFrom(acc: string, cs: seq<(string, string)>): (r: string)
    ensures r == acc + Conjuncts(cs)
    decreases |cs|
  {
    if |cs| == 0 then acc
    else CombineConstraintsFrom(acc + Conjunct(cs[0].1), cs[1..])
  }

  /**
   The combined constraint: "True" followed by " and (rhs)" for every
   constraint, in order, so that it holds exactly when all of them do.
   */
  function CombineConstraints(cs: seq<(string, string)>): (r: string)
    ensures r == "True" + Conjuncts(cs)
  {
    CombineConstraintsFrom("True", cs)
  }

  /** Clauses of a split constraint list are the clauses of both halves. */
  lemma {:induction false} ConjunctsAppend(a: seq<(string, string)>, b: seq<(string, string)>)
    ensures Conjuncts(a + b) == Conjuncts(a) + Conjuncts(b)
  {
    if |a| == 0 {
      assert a + b == b;
    } else {
      assert (a + b)[0] == a[0];
      assert (a + b)[1..] == a[1..] + b;
      ConjunctsAppend(a[1..], b);
    }
  }

  /** Adding a constraint appends exactly its clause to the combined string. */
  lemma CombineConstraintsSnoc(cs: seq<(string, string)>, c: (string, string))
    ensures CombineConstraints(cs + [c]) == CombineConstraints(cs) + " and (" + c.1 + ")"
  {
    ConjunctsAppend(cs, [c]);
    assert [c][1..] == [];
  }

  lemma CombineConstraintsExample()
    ensures CombineConstraints([("N", "N>0"), ("M", "M<N")]) == "True and (N>0) and (M<N)"
  {
    var cs := [("N", "N>0"), ("M", "M<N")];
    assert cs[1..] == [("M", "M<N")];
    assert cs[1..][1..] == [];
  }

  // ---------------------------------------------------------------------
  // `import spec NAME;`

  /** Whitespace as the tuner's regular expressions see it (byte strings). */
  predicate IsSpace(c: char)
  {
    c == ' ' || c == '\t' || c == '\n' || c == '\r' || c == '\U{0B}' || c == '\U{0C}'
  }

  predicate IsWordStart(c: char)
  {
    ('A' <= c <= 'Z') || ('a' <= c <= 'z') || c == '_'
  }

  predicate IsWordChar(c: char)
  {
    IsWordStart(c) || ('0' <= c <= '9')
  }

  predicate AllSpaces(s: string)
  {
    forall k :: 0 <= k < |s| ==> IsSpace(s[k])
  }

  predicate AllWordChars(s: string)
  {
    forall k :: 0 <= k < |s| ==> IsWordChar(s[k])
  }

  /** A letter or underscore followed by letters, digits and underscores. */
  predicate IsIdentifier(s: string)
  {
    |s| > 0 && IsWordStart(s[0]) && AllWordChars(s[1..])
  }

  /** The first index at or after `i` that does not hold whitespace. */
  function SkipSpaces(s: string, i: nat): (j: nat)
    requires i <= |s|
    ensures i <= j <= |s|
    decreases |s| - i
  {
    if i < |s| && IsSpace(s[i]) then SkipSpaces(s, i + 1) else i
  }

  /** The first index at or after `i` that does not hold a word character. */
  function SkipWord(s: string, i: nat): (j: nat)
    requires i <= |s|
    ensures i <= j <= |s|
    decreases |s| - i
  {
    if i < |s| && IsWordChar(s[i]) then SkipWord(s, i + 1) else i
  }

  /** Skipping passes over whitespace only, and stops at the end or at a non-space. */
  lemma {:induction false} SkipSpacesStops(s: string, i: nat)
    requires i <= |s|
    ensures AllSpaces(s[i..SkipSpaces(s, i)])
    ensures SkipSpaces(s, i) < |s| ==> !IsSpace(s[SkipSpaces(s, i)])
    decreases |s| - i
  {
    if i < |s| && IsSpace(s[i]) {
      SkipSpacesStops(s, i + 1);
      var j := SkipSpaces(s, i);
      forall k | 0 <= k < j - i
        ensures IsSpace(s[i..j][k])
      {
        if k > 0 {
          assert s[i..j][k] == s[i + 1..j][k - 1];
        }
      }
    }
  }

  /** Skipping passes over word characters only, and stops at the end or at another character. */
  lemma {:induction false} SkipWordStops(s: string, i: nat)
    requires i <= |s|
    ensures AllWordChars(s[i..SkipWord(s, i)])
    ensures SkipWord(s, i) < |s| ==> !IsWordChar(s[SkipWord(s, i)])
    decreases |s| - i
  {
    if i < |s| && IsWordChar(s[i]) {
      SkipWordStops(s, i + 1);
      var j := SkipWord(s, i);
      forall k | 0 <= k < j - i
        ensures IsWordChar(s[i..j][k])
      {
        if k > 0 {
          assert s[i..j][k] == s[i + 1..j][k - 1];
        }
      }
    }
  }

  /** Skipping whitespace from `i` ends at `j` when exactly `s[i..j]` is whitespace. */
  lemma {:induction false} SkipSpacesTo(s: string, i: nat, j: nat)
    requires i <= j <= |s| && AllSpaces(s[i..j])
    requires j < |s| ==> !IsSpace(s[j])
    ensures SkipSpaces(s, i) == j
    decreases j - i
  {
    if i < j {
      assert s[i] == s[i..j][0];
      var t := s[i + 1..j];
      forall k | 0 <= k < |t|
        ensures IsSpace(t[k])
      {
        assert t[k] == s[i..j][k + 1];
      }
      SkipSpacesTo(s, i + 1, j);
    }
  }

  /** Skipping word characters from `i` ends at `j` when exactly `s[i..j]` is word characters. */
  lemma {:induction false} SkipWordTo(s: string, i: nat, j: nat)
    requires i <= j <= |s| && AllWordChars(s[i..j])
    requires j < |s| ==> !IsWordChar(s[j])
    ensures SkipWord(s, i) == j
    decreases j - i
  {
    if i < j {
      assert s[i] == s[i..j][0];
      var t := s[i + 1..j];
      forall k | 0 <= k < |t|
        ensures IsWordChar(t[k])
      {
        assert t[k] == s[i..j][k + 1];
      }
      SkipWordTo(s, i + 1, j);
    }
  }

  predicate HasAt(s: string, i: nat, w: string)
  {
    i + |w| <= |s| && s[i..i + |w|] == w
  }

  /**
   Whether the whole annotation code reads `import spec NAME;`, with any
   whitespace around it and at least some between the words; if so, the
   name and the index where it starts. The matcher works in stages, one
   per piece of the statement.
   */
  function MatchImport(code: string): Option<(string, nat)>
  {
    var a := SkipSpaces(code, 0);
    if !HasAt(code, a, "import") then None else MatchSpec(code, a + 6)
  }

  /** After `import`: at least one whitespace character, then `spec`. */
  function MatchSpec(code: string, i: nat): Option<(string, nat)>
    requires i <= |code|
  {
    var b := SkipSpaces(code, i);
    if b == i || !HasAt(code, b, "spec") then None else MatchName(code, b + 4)
  }

  /** After `spec`: at least one whitespace character, then the start of a name. */
  function MatchName(code: string, i: nat): Option<(string, nat)>
    requires i <= |code|
  {
    var c := SkipSpaces(code, i);
    if c == i || c == |code| || !IsWordStart(code[c]) then None else MatchEnd(code, c)
  }

  /** The rest of the name at `c`, a semicolon, and only whitespace after it. */
  function MatchEnd(code: string, c: nat): Option<(string, nat)>
    requires c < |code|
  {
    var d := SkipWord(code, c + 1);
    if d == |code| || code[d] != ';' || SkipSpaces(code, d + 1) != |code| then None
    else Some((code[c..d], c))
  }

  /** The text `w1 import w2 spec w3 NAME; w4`. */
  function ImportText(w1: string, w2: string, w3: string, name: string, w4: string): string
  {
    w1 + ("import" + (w2 + ("spec" + (w3 + (name + (";" + w4))))))
  }

  /** The pieces of an import statement the regular expression accepts. */
  predicate ImportParts(w1: string, w2: string, w3: string, name: string, w4: string)
  {
    && AllSpaces(w1) && AllSpaces(w2) && |w2| > 0 && AllSpaces(w3) && |w3| > 0
    && IsIdentifier(name) && AllSpaces(w4)
  }

  /** `code` is an import statement naming `name`, which starts at index `start`. */
  ghost predicate IsImportStatement(code: string, name: string, start: nat)
  {
    exists w1, w2, w3, w4 :: ImportParts(w1, w2, w3, name, w4)
      && code == ImportText(w1, w2, w3, name, w4)
      && start == |w1| + 6 + |w2| + 4 + |w3|
  }

  /**
   The same statement described by positions: `import` at `a`, `spec` at
   `b`, the name from `c` to `d`, the semicolon at `d`.
   */
  predicate ImportLayout(code: string, a: nat, b: nat, c: nat, d: nat)
  {
    && a + 6 < b && b + 4 < c && c < d < |code|
    && AllSpaces(code[..a]) && code[a..a + 6] == "import"
    && AllSpaces(code[a + 6..b]) && code[b..b + 4] == "spec"
    && AllSpaces(code[b + 4..c]) && IsIdentifier(code[c..d])
    && code[d] == ';' && AllSpaces(code[d + 1..])
  }

  lemma SplitSuffix(s: string, i: nat, j: nat)
    requires i <= j <= |s|
    ensures s[i..] == s[i..j] + s[j..]
  {
  }

  /** What `MatchEnd` accepts: a name from `c` to `d`, a semicolon, trailing whitespace. */
  lemma MatchEndLayout(code: string, c: nat) returns (d: nat)
    requires c < |code| && IsWordStart(code[c]) && MatchEnd(code, c).Some?
    ensures c < d < |code| && IsIdentifier(code[c..d])
    ensures code[d] == ';' && AllSpaces(code[d + 1..])
    ensures MatchEnd(code, c).value == (code[c..d], c)
  {
    d := SkipWord(code, c + 1);
    SkipWordStops(code, c + 1);
    assert code[c..d][1..] == code[c + 1..d];
    SkipSpacesStops(code, d + 1);
    assert code[d + 1..] == code[d + 1..|code|];
  }

  /** What `MatchName` accepts: whitespace up to `c`, then what `MatchEnd` accepts. */
  lemma MatchNameLayout(code: string, i: nat) returns (c: nat, d: nat)
    requires i <= |code| && MatchName(code, i).Some?
    ensures i < c < d < |code| && AllSpaces(code[i..c]) && IsIdentifier(code[c..d])
    ensures code[d] == ';' && AllSpaces(code[d + 1..])
    ensures MatchName(code, i).value == (code[c..d], c)
  {
    c := SkipSpaces(code, i);
    SkipSpacesStops(code, i);
    d := MatchEndLayout(code, c);
  }

  /** What `MatchSpec` accepts: whitespace up to `b`, `spec`, then what `MatchName` accepts. */
  lemma MatchSpecLayout(code: string, i: nat) returns (b: nat, c: nat, d: nat)
    requires i <= |code| && MatchSpec(code, i).Some?
    ensures i < b && b + 4 < c < d < |code|
    ensures AllSpaces(code[i..b]) && code[b..b + 4] == "spec"
    ensures AllSpaces(code[b + 4..c]) && IsIdentifier(code[c..d])
    ensures code[d] == ';' && AllSpaces(code[d + 1..])
    ensures MatchSpec(code, i).value == (code[c..d], c)
  {
    b := SkipSpaces(code, i);
    SkipSpacesStops(code, i);
    c, d := MatchNameLayout(code, b + 4);
  }

  /** An accepted statement has the layout, with the positions the matcher found. */
  lemma MatchImportLayout(code: string) returns (a: nat, b: nat, c: nat, d: nat)
    requires MatchImport(code).Some?
    ensures ImportLayout(code, a, b, c, d)
    ensures MatchImport(code).value == (code[c..d], c)
  {
    a := SkipSpaces(code, 0);
    SkipSpacesStops(code, 0);
    assert code[..a] == code[0..a];
    b, c, d := MatchSpecLayout(code, a + 6);
  }

  /** `MatchEnd` accepts a name from `c` to `d`, a semicolon and trailing whitespace. */
  lemma EndMatches(code: string, c: nat, d: nat)
    requires c < d < |code| && IsIdentifier(code[c..d])
    requires code[d] == ';' && AllSpaces(code[d + 1..])
    ensures MatchEnd(code, c) == Some((code[c..d], c))
  {
    assert code[c..d][1..] == code[c + 1..d];
    SkipWordTo(code, c + 1, d);
    assert code[d + 1..] == code[d + 1..|code|];
    SkipSpacesTo(code, d + 1, |code|);
  }

  /** `MatchName` accepts whitespace from `i` up to `c`, then what `MatchEnd` accepts. */
  lemma NameMatches(code: string, i: nat, c: nat, d: nat)
    requires i < c < d < |code| && AllSpaces(code[i..c]) && IsIdentifier(code[c..d])
    requires code[d] == ';' && AllSpaces(code[d + 1..])
    ensures MatchName(code, i) == Some((code[c..d], c))
  {
    assert code[c] == code[c..d][0];
    SkipSpacesTo(code, i, c);
    EndMatches(code, c, d);
  }

  /** `MatchSpec` accepts whitespace from `i` up to `b`, `spec`, then what `MatchName` accepts. */
  lemma SpecMatches(code: string, i: nat, b: nat, c: nat, d: nat)
    requires i < b && b + 4 < c < d < |code|
    requires AllSpaces(code[i..b]) && code[b..b + 4] == "spec"
    requires AllSpaces(code[b + 4..c]) && IsIdentifier(code[c..d])
    requires code[d] == ';' && AllSpaces(code[d + 1..])
    ensures MatchSpec(code, i) == Some((code[c..d], c))
  {
    assert code[b] == code[b..b + 4][0];
    SkipSpacesTo(code, i, b);
    NameMatches(code, b + 4, c, d);
  }

  /** Every layout is accepted, and the matcher reports the name at `c`. */
  lemma LayoutMatches(code: string, a: nat, b: nat, c: nat, d: nat)
    requires ImportLayout(code, a, b, c, d)
    ensures MatchImport(code) == Some((code[c..d], c))
  {
    assert code[0..a] == code[..a];
    assert code[a] == code[a..a + 6][0];
    SkipSpacesTo(code, 0, a);
    SpecMatches(code, a + 6, b, c, d);
  }

  /** Slicing a suffix `t` of `s` that starts at `k`: position `ri` of `t` is position `i` of `s`. */
  lemma ShiftSlice(s: string, k: nat, t: string, i: nat, j: nat, ri: nat, rj: nat)
    requires k <= |s| && s[k..] == t && ri <= rj <= |t| && i == k + ri && j == k + rj
    ensures s[i..j] == t[ri..rj] && s[i..] == t[ri..]
    ensures ri < |t| ==> s[i] == t[ri]
  {
    assert s[i..j] == s[k..][ri..rj];
    assert s[i..] == s[k..][ri..];
  }

  /** `code` holds `w1`, `import` at `a`, `w2`, and from `b` on the rest `t`. */
  predicate HeadPieces(code: string, w1: string, w2: string, t: string, a: nat, b: nat)
  {
    && a + 6 <= b <= |code|
    && code[..a] == w1 && code[a..a + 6] == "import" && code[a + 6..b] == w2 && code[b..] == t
  }

  /** `t` holds `spec`, `w3`, the name at `p`, `;` at `q`, and `w4`. */
  predicate TailPieces(t: string, w3: string, name: string, w4: string, p: nat, q: nat)
  {
    && 4 <= p <= q < |t|
    && t[0..4] == "spec" && t[4..p] == w3 && t[p..q] == name && t[q] == ';' && t[q + 1..] == w4
  }

  /** The front of an import statement: whitespace, `import`, whitespace, then the rest `t` at `b`. */
  lemma TextHead(code: string, w1: string, w2: string, t: string, a: nat, b: nat)
    requires code == w1 + ("import" + (w2 + t)) && a == |w1| && b == a + 6 + |w2|
    ensures HeadPieces(code, w1, w2, t, a, b)
  {
    var r1 := "import" + (w2 + t);
    assert code[..a] == w1 && code[a..] == r1;
    ShiftSlice(code, a, r1, a, a + 6, 0, 6);
    ShiftSlice(code, a, r1, a + 6, b, 6, 6 + |w2|);
    assert r1[0..6] == "import" && r1[6..6 + |w2|] == w2 && r1[6 + |w2|..] == t;
  }

  /** A concatenation splits back into its two parts. */
  lemma Split2(s: string, x: string, r: string, i: nat)
    requires s == x + r && i == |x|
    ensures s[..i] == x && s[0..i] == x && s[i..] == r
  {
  }

  /** The back of an import statement: `spec`, whitespace, the name at `p`, `;` at `q`, whitespace. */
  lemma TextTail(t: string, w3: string, name: string, w4: string, p: nat, q: nat)
    requires t == "spec" + (w3 + (name + (";" + w4))) && p == 4 + |w3| && q == p + |name|
    ensures TailPieces(t, w3, name, w4, p, q)
  {
    var r1 := w3 + (name + (";" + w4));
    Split2(t, "spec", r1, 4);
    TailAfterSpec(t, r1, w3, name, w4, p, q);
  }

  /** After `spec`: whitespace, the name at `p`, `;` at `q`, whitespace. */
  lemma TailAfterSpec(t: string, r1: string, w3: string, name: string, w4: string, p: nat, q: nat)
    requires 4 <= |t| && t[4..] == r1 && r1 == w3 + (name + (";" + w4))
    requires p == 4 + |w3| && q == p + |name|
    ensures q < |t| && t[4..p] == w3 && t[p..q] == name && t[q] == ';' && t[q + 1..] == w4
  {
    var r2 := name + (";" + w4);
    Split2(r1, w3, r2, |w3|);
    ShiftSlice(t, 4, r1, 4, p, 0, |w3|);
    ShiftSlice(t, 4, r1, p, p, |w3|, |w3|);
    var r3 := ";" + w4;
    Split2(r2, name, r3, |name|);
    ShiftSlice(t, p, r2, p, q, 0, |name|);
    ShiftSlice(t, p, r2, q, q, |name|, |name|);
    Split2(r3, ";", w4, 1);
    ShiftSlice(t, q, r3, q + 1, q + 1, 1, 1);
    ShiftSlice(t, q, r3, q, q, 0, 0);
  }

  /** Pieces found at the right places, as the statement requires, make the layout. */
  lemma SlicesLayout(
    code: string, w1: string, w2: string, w3: string, name: string, w4: string, a: nat, b: nat, c: nat, d: nat)
    requires ImportParts(w1, w2, w3, name, w4)
    requires a == |w1| && b == a + 6 + |w2| && c == b + 4 + |w3| && d == c + |name| && d < |code|
    requires code[..a] == w1 && code[a..a + 6] == "import" && code[a + 6..b] == w2
    requires code[b..b + 4] == "spec" && code[b + 4..c] == w3 && code[c..d] == name
    requires code[d] == ';' && code[d + 1..] == w4
    ensures ImportLayout(code, a, b, c, d)
  {
  }

  /** The pieces of the back `t`, found at `b`, placed in the whole statement. */
  lemma PlaceTail(
    code: string, w1: string, w2: string, w3: string, name: string, w4: string, t: string,
    a: nat, b: nat, c: nat, d: nat)
    requires ImportParts(w1, w2, w3, name, w4)
    requires a == |w1| && b == a + 6 + |w2| && c == b + 4 + |w3| && d == c + |name|
    requires HeadPieces(code, w1, w2, t, a, b) && TailPieces(t, w3, name, w4, c - b, d - b)
    ensures ImportLayout(code, a, b, c, d) && code[c..d] == name
  {
    ShiftSlice(code, b, t, b, b + 4, 0, 4);
    ShiftSlice(code, b, t, b + 4, c, 4, c - b);
    ShiftSlice(code, b, t, c, d, c - b, d - b);
    ShiftSlice(code, b, t, d + 1, |code|, d - b + 1, |t|);
    ShiftSlice(code, b, t, d, d, d - b, d - b);
    SlicesLayout(code, w1, w2, w3, name, w4, a, b, c, d);
  }

  /** An import statement has the layout at the positions its pieces give. */
  lemma TextLayout(
    code: string, w1: string, w2: string, w3: string, name: string, w4: string, a: nat, b: nat, c: nat, d: nat)
    requires ImportParts(w1, w2, w3, name, w4) && code == ImportText(w1, w2, w3, name, w4)
    requires a == |w1| && b == a + 6 + |w2| && c == b + 4 + |w3| && d == c + |name|
    ensures ImportLayout(code, a, b, c, d) && code[c..d] == name
  {
    var t := "spec" + (w3 + (name + (";" + w4)));
    TextHead(code, w1, w2, t, a, b);
    TextTail(t, w3, name, w4, c - b, d - b);
    PlaceTail(code, w1, w2, w3, name, w4, t, a, b, c, d);
  }

  /** Splitting a suffix around the word `w` found at `j`. */
  lemma SplitAround(s: string, i: nat, j: nat, w: string)
    requires i <= j && j + |w| <= |s| && s[j..j + |w|] == w
    ensures s[i..] == s[i..j] + (w + s[j + |w|..])
  {
    SplitSuffix(s, i, j);
    SplitSuffix(s, j, j + |w|);
  }

  /** The front of a layout: whitespace, `import`, whitespace, then everything from `b`. */
  lemma LayoutHead(code: string, a: nat, b: nat)
    requires a + 6 <= b <= |code| && code[a..a + 6] == "import"
    ensures code == code[..a] + ("import" + (code[a + 6..b] + code[b..]))
  {
    SplitSuffix(code, a + 6, b);
    SplitAround(code, 0, a, "import");
    assert code[0..] == code;
    assert code[0..a] == code[..a];
  }

  /** The back of a layout: `spec`, whitespace, the name, `;`, whitespace. */
  lemma LayoutTail(code: string, b: nat, c: nat, d: nat)
    requires b + 4 <= c <= d < |code| && code[b..b + 4] == "spec" && code[d] == ';'
    ensures code[b..] == "spec" + (code[b + 4..c] + (code[c..d] + (";" + code[d + 1..])))
  {
    assert code[d..d + 1] == ";";
    SplitAround(code, c, d, ";");
    SplitSuffix(code, b + 4, c);
    SplitAround(code, b, b, "spec");
    assert code[b..b] == [];
  }

  /** A layout reassembles into an import statement from its pieces. */
  lemma LayoutText(code: string, a: nat, b: nat, c: nat, d: nat)
    requires ImportLayout(code, a, b, c, d)
    ensures code == ImportText(code[..a], code[a + 6..b], code[b + 4..c], code[c..d], code[d + 1..])
  {
    LayoutHead(code, a, b);
    LayoutTail(code, b, c, d);
  }

  /** Whatever the matcher accepts is an import statement, and it reports that statement's name. */
  lemma MatchImportSound(code: string)
    requires MatchImport(code).Some?
    ensures IsImportStatement(code, MatchImport(code).value.0, MatchImport(code).value.1)
  {
    var a, b, c, d := MatchImportLayout(code);
    LayoutText(code, a, b, c, d);
    var w1, w2, w3, name, w4 := code[..a], code[a + 6..b], code[b + 4..c], code[c..d], code[d + 1..];
    assert ImportParts(w1, w2, w3, name, w4);
    assert c == |w1| + 6 + |w2| + 4 + |w3|;
  }

  /** Every import statement is recognised, with its name and the name's position. */
  lemma MatchImportComplete(w1: string, w2: string, w3: string, name: string, w4: string)
    requires ImportParts(w1, w2, w3, name, w4)
    ensures MatchImport(ImportText(w1, w2, w3, name, w4))
         == Some((name, |w1| + 6 + |w2| + 4 + |w3|))
  {
    var code := ImportText(w1, w2, w3, name, w4);
    var a := |w1|;
    var b := a + 6 + |w2|;
    var c := b + 4 + |w3|;
    var d := c + |name|;
    TextLayout(code, w1, w2, w3, name, w4, a, b, c, d);
    LayoutMatches(code, a, b, c, d);
  }
  // ---------------------------------------------------------------------
  // Looking up the specification

  function CountNewlines(s: string): nat
  {
    if |s| == 0 then 0 else (if s[0] == '\n' then 1 else 0) + CountNewlines(s[1..])
  }

  lemma {:induction false} CountNewlinesAppend(a: string, b: string)
    ensures CountNewlines(a + b) == CountNewlines(a) + CountNewlines(b)
  {
    if |a| == 0 {
      assert a + b == b;
    } else {
      assert (a + b)[0] == a[0];
      assert (a + b)[1..] == a[1..] + b;
      CountNewlinesAppend(a[1..], b);
    }
  }

  /**
   The tuning information of a PerfTuning annotation. An annotation that
   only imports a specification gets the one registered under that name, or
   fails naming the line the name is on; any other annotation code is a
   specification of its own, read by the external parser.
   */
  function ExtractTuningInfo(
    specsMap: map<string, TuningInfo>,
    parseSpec: (string, int) -> Result<TuningInfo>,
    code: string,
    lineNo: int): (r: Result<TuningInfo>)
    ensures MatchImport(code).None? ==> r == parseSpec(code, lineNo)
    ensures MatchImport(code).Some? ==>
              (r.Ok? <==> MatchImport(code).value.0 in specsMap)
    ensures MatchImport(code).Some? && r.Ok? ==> r.value == specsMap[MatchImport(code).value.0]
    ensures MatchImport(code).Some? && r.Fail? ==>
              var (name, start) := MatchImport(code).value;
              start <= |code| && r.error == UndefinedSpec(lineNo + CountNewlines(code[..start]), name)
  {
    match MatchImport(code)
    case None => parseSpec(code, lineNo)
    case Some(found) =>
      var name := found.0;
      var nameLineNo := lineNo + CountNewlines(code[..found.1]);
      if name !in specsMap then Fail(UndefinedSpec(nameLineNo, name))
      else Ok(specsMap[name])
  }

  /** The newlines in front of an import statement's name are those of its whitespace. */
  lemma NameLine(w1: string, w2: string, w3: string, name: string, w4: string)
    ensures var c := |w1| + 6 + |w2| + 4 + |w3|;
            c <= |ImportText(w1, w2, w3, name, w4)|
            && CountNewlines(ImportText(w1, w2, w3, name, w4)[..c])
               == CountNewlines(w1) + CountNewlines(w2) + CountNewlines(w3)
  {
    ImportTextPrefix(w1, w2, w3, name, w4);
    NewlinesBeforeName(w1, w2, w3);
  }

  /**
   The matcher finds `name` at `start` in `code`, and `newlines` line
   breaks precede it.
   */
  predicate ImportFound(code: string, name: string, start: nat, newlines: nat)
  {
    start <= |code| && MatchImport(code) == Some((name, start)) && CountNewlines(code[..start]) == newlines
  }

  /** An import statement is found, with its name and the line breaks in front of the name. */
  lemma StatementFound(w1: string, w2: string, w3: string, name: string, w4: string)
    returns (start: nat, newlines: nat)
    requires ImportParts(w1, w2, w3, name, w4)
    ensures start == |w1| + 6 + |w2| + 4 + |w3|
    ensures newlines == CountNewlines(w1) + CountNewlines(w2) + CountNewlines(w3)
    ensures ImportFound(ImportText(w1, w2, w3, name, w4), name, start, newlines)
  {
    start := |w1| + 6 + |w2| + 4 + |w3|;
    newlines := CountNewlines(w1) + CountNewlines(w2) + CountNewlines(w3);
    MatchImportComplete(w1, w2, w3, name, w4);
    NameLine(w1, w2, w3, name, w4);
  }

  /** A found import is looked up by its name, and a missing one is reported at the name's line. */
  lemma FoundImportLookup(
    specsMap: map<string, TuningInfo>, parseSpec: (string, int) -> Result<TuningInfo>,
    code: string, name: string, start: nat, newlines: nat, lineNo: int)
    requires ImportFound(code, name, start, newlines)
    ensures name in specsMap ==> ExtractTuningInfo(specsMap, parseSpec, code, lineNo) == Ok(specsMap[name])
    ensures name !in specsMap ==>
              ExtractTuningInfo(specsMap, parseSpec, code, lineNo) == Fail(UndefinedSpec(lineNo + newlines, name))
  {
  }

  /**
   An annotation that reads `import spec NAME;` never reaches the parser:
   it yields the specification registered under NAME, or fails naming NAME
   and the line it is on, the annotation's line plus the line breaks
   before the name.
   */
  lemma ImportedSpecIsLookedUp(
    specsMap: map<string, TuningInfo>, parseSpec: (string, int) -> Result<TuningInfo>,
    w1: string, w2: string, w3: string, name: string, w4: string, lineNo: int)
    requires ImportParts(w1, w2, w3, name, w4)
    ensures name in specsMap ==>
              ExtractTuningInfo(specsMap, parseSpec, ImportText(w1, w2, w3, name, w4), lineNo) == Ok(specsMap[name])
    ensures name !in specsMap ==>
              ExtractTuningInfo(specsMap, parseSpec, ImportText(w1, w2, w3, name, w4), lineNo)
              == Fail(UndefinedSpec(lineNo + CountNewlines(w1) + CountNewlines(w2) + CountNewlines(w3), name))
  {
    var start, newlines := StatementFound(w1, w2, w3, name, w4);
    FoundImportLookup(specsMap, parseSpec, ImportText(w1, w2, w3, name, w4), name, start, newlines, lineNo);
  }

  lemma {:induction false} NoNewlines(s: string)
    requires forall k :: 0 <= k < |s| ==> s[k] != '\n'
    ensures CountNewlines(s) == 0
  {
    if |s| > 0 {
      NoNewlines(s[1..]);
    }
  }

  /** The keywords hold no line breaks: the name's line counts those in the whitespace only. */
  lemma NewlinesBeforeName(w1: string, w2: string, w3: string)
    ensures CountNewlines(w1 + ("import" + (w2 + ("spec" + w3))))
         == CountNewlines(w1) + CountNewlines(w2) + CountNewlines(w3)
  {
    NoNewlines("import");
    NoNewlines("spec");
    CountNewlinesAppend(w1, "import" + (w2 + ("spec" + w3)));
    CountNewlinesAppend("import", w2 + ("spec" + w3));
    CountNewlinesAppend(w2, "spec" + w3);
    CountNewlinesAppend("spec", w3);
  }

  /** The text in front of the name of an import statement. */
  lemma ImportTextPrefix(w1: string, w2: string, w3: string, name: string, w4: string)
    ensures var c := |w1| + 6 + |w2| + 4 + |w3|;
            c <= |ImportText(w1, w2, w3, name, w4)|
            && ImportText(w1, w2, w3, name, w4)[..c] == w1 + ("import" + (w2 + ("spec" + w3)))
  {
    var head := w1 + ("import" + (w2 + ("spec" + w3)));
    assert ImportText(w1, w2, w3, name, w4) == head + (name + (";" + w4));
  }
}
