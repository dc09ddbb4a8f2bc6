# Orio optimization driver and tuner orchestration, modelled in Dafny

Orio is an annotation-driven source-to-source optimizer. The input program arrives as a tree of code fragments:
- plain code (`NonAnn`);
- annotated regions (`AnnCodeRegion`), each a leader annotation, an ordered list of child fragments and a trailer annotation.

The optimization driver (`OptDriver`) turns a fragment list into a sequence of *variants*. Each variant is the generated code together with the bindings that produced it:
- It leaves plain code as it is.
- It hands the one `PerfTuning` region to the empirical tuner.
- Any other region first has its body optimized to a single version. The transformation the region names then rewrites that version.
- Every region's variants are wrapped in the region's leader and trailer text.
- Sibling fragments combine as a Cartesian product, with the accumulated variants as the outer loop.

At the top level the driver first checks the PerfTuning annotations. There may be at most one top-level PerfTuning region, with no PerfTuning leader inside it.

The tuner (`PerfTuner.tune`) obtains the tuning specification:
- An annotation that reads `import spec NAME;` takes the specification registered under NAME.
- Any other annotation code is handed to the specification parser.

The tuner then enumerates the valid problem sizes. These are the combinations of input-parameter values that satisfy the combined input constraint. It builds the search space: one axis per performance parameter, its values deduplicated and sorted. For each problem size it asks a search engine for the best parameters and has the driver optimize the tuned body with them. The body must come back as exactly one version. The result holds one entry per problem size, tagged with that size.

The model, one Dafny module per file:

| module | file | what it holds |
|---|---|---|
| `Outcomes` | outcomes.dfy | `Option`, `Result`, the `Error` kinds that stand for every fatal diagnostic, `MapAll` |
| `SeqUtil` | seq_util.dfy | products of lengths, order-preserving `Filter`, ASCII lower-casing |
| `Fragments` | fragments.dfy | the fragment tree, tree size, module paths |
| `Variants` | variants.dfy | variants, the Cartesian `Combine`, its fold, wrapping and unwrapping |
| `Combinations` | combinations.dfy | `__listAllCombinations` against the textbook Cartesian product |
| `CoordSystem` | coord_system.dfy | `__buildCoordSystem`: deduplication and insertion sort of each axis |
| `TuningSpec` | tuning_spec.dfy | constraint strings; the staged matcher for `import spec NAME;`; `__extractTuningInfo` |
| `Tuner` | tuner.dfy | `__getProblemSizes` and the variant-shaping loop of `tune` |
| `AnnValidator` | validator.dfy | `__checkPerfTuningAnns`, including its first-in-first-out work list |
| `OptDriver` | opt_driver.dfy | `__optimizeCodeFrag` and `optimizeCodeFrags` |

Every way the program aborts becomes a `Fail` that carries an `Error` kind. This covers:
- its `err(...)` / `sys.exit` diagnostics;
- the uncaught Python exceptions the code can run into:
  - `len(None)` when an empty fragment list yields no sequence;
  - unpacking `zip(*[])` when there are no input parameters;
  - a transformation's `transform()` raising.

The parts of the system outside this core are parameters of the model. A collaborator that may fail returns a `Result`, or an `Option` where failure carries no detail:
- loading, instantiating and running a transformation class: `Env.transform`;
- the tuning-specification parser: `TuningContext.parseSpec`;
- Python's `eval` of a constraint under a problem size: `TuningContext.evalConstraint`, `None` when it raises;
- the search engine, with the loading of its class: `TuningContext.search`;
- the text of the comment that records a tuning result: `TuningContext.infoComment`.

Three behaviours of the code are worth knowing, and the model follows the code in each:
- **Nesting validation scope.** The docstring of `__checkPerfTuningAnns` (src/main/opt_driver.py:31-35) promises that no nested PerfTuning annotation exists. The loop only searches the subtrees of top-level PerfTuning regions (src/main/opt_driver.py:43-69). So a PerfTuning region inside a region of another kind passes (`AnnValidator.PerfTuningInsideOtherRegionPasses`).
- **Work-list seed.** The search's work list starts from the region's children only (src/main/opt_driver.py:54). The region's own leader is never in it, so the region does not count as nested in itself.
- **Transformation errors.** Loading and constructing a transformation are each wrapped in a `try` that reports the module-name line. `transformation.transform()` (src/main/opt_driver.py:132) is outside any `try`. Its exception propagates without a source location, so it is modelled as `TransformationRaised(detail)` with no line.

A point of use: the driver's default output language is `'C'` (src/main/opt_driver.py:22). The tuner only knows `'c'` and `'fortran'` (src/main/tuner/tuner.py:52-61). So a driver built with the default fails on every PerfTuning region. When the region's tuning specification is found and its problem sizes are valid, the error is "unknown output language". Otherwise the specification or problem-size error comes first. `Tuner.Tune` states that any other language fails, and which error each case reports.

## Model

| member | source | states |
|---|---|---|
| AnnValidator.FindNestedPerfTuning | src/main/opt_driver.py:53-69 | The first-in-first-out search over the children of a PerfTuning region finds nothing exactly when no PerfTuning leader occurs at any depth among those children. When it reports a line, that line belongs to such a leader. The loop terminates because the remaining tree size decreases. |
| AnnValidator.CheckPerfTuningAnns | src/main/opt_driver.py:38-69 | Validation passes exactly when there is at most one top-level PerfTuning region and no PerfTuning leader at any depth inside it. A "too many" failure is reported at the module-name line of a PerfTuning region preceded by exactly one other, and every PerfTuning region before it has no PerfTuning leader inside. A "nested" failure is reported at the line of a leader nested inside the first PerfTuning region. |
| AnnValidator.NoPerfTuningPasses | src/main/opt_driver.py:40-43 | A program without top-level PerfTuning regions passes validation. |
| AnnValidator.TwoPerfTuningRegionsFail | src/main/opt_driver.py:46-51 | Two top-level PerfTuning regions are rejected. |
| AnnValidator.NestedPerfTuningFails | src/main/opt_driver.py:55-63 | A PerfTuning region among the children of a top-level PerfTuning region is rejected. |
| AnnValidator.PerfTuningInsideOtherRegionPasses | src/main/opt_driver.py:43-54 | A PerfTuning region inside a region of another kind is never searched, so it passes. |
| OptDriver.OptimizeFrag | src/main/opt_driver.py:73-145 | Plain code yields exactly its own text, with no bindings. Every variant of a region, not only the first, starts with the leader text. A region of another kind yields exactly one variant with no bindings. A region of another kind with an empty body fails, because its body yields no sequence. |
| OptDriver.TransformedRegion | src/main/opt_driver.py:90-142 | A region of another kind fails with its body's error when the body fails, and with "no variant sequence" or "multiple versions" when the body yields no sequence or more than one version. Otherwise it yields exactly one variant with no bindings: the leader text, then the transformation's code for the body's single version, then the trailer text. When the transformation fails, the region fails with that error. |
| OptDriver.TransformationStages | src/main/opt_driver.py:106-135 | The transformation class is looked up at the package path of the lower-cased module name, under the module name. It is constructed with the performance parameters, the annotation code, the optimized body, the annotation code's line, the indentation and the driver's output language. A class that cannot be loaded fails with the module name and its line. One that cannot be constructed also carries the detail. One that raises while running carries the detail only. Otherwise its code is used. |
| OptDriver.RequestFor | src/main/opt_driver.py:106-125 | The request names the class by the annotation's module name, at the path built from that name. It passes on the performance parameters, the annotation code, the body code it is given, the annotation code's line, the indentation and the output language, each unchanged. |
| OptDriver.BodyOptimizer | src/main/tuner/tuner.py:126-127 | The tuner's optimizer of the tuned body, given any performance parameters (the best ones the search found), optimizes the region's children with exactly those parameters, not as a top level. |
| OptDriver.PerfTuningRegionIsTuned | src/main/opt_driver.py:84-89 | A PerfTuning region hands its annotation code, that code's line and its children to the tuner, unchanged. It fails exactly when tuning fails, with the same error. Stripping the leader and trailer gives back exactly the tuner's entries. The result does not depend on the surrounding performance parameters. |
| OptDriver.RegionVariantsAreWrapped | src/main/opt_driver.py:139-142 | Every variant of a region begins with the leader text and ends with the trailer text. |
| OptDriver.TunedBodyOfTransformationFails | src/main/opt_driver.py:95-101 | A region of another kind whose body is a PerfTuning region tuned for more than one problem size fails with "multiple versions". |
| OptDriver.OptimizeFragsIsCombination | src/main/opt_driver.py:161-169 | The loop over the fragments equals the left fold of the Cartesian combination over the independently optimized fragments. If a fragment fails, the loop fails with the error of the first failing fragment. |
| OptDriver.OptimizeFragsCount | src/main/opt_driver.py:162-172 | When every fragment optimizes, the result is `None` exactly for an empty list. Otherwise the number of variants is the product of the fragments' variant counts. |
| OptDriver.SingleFragmentUnchanged | src/main/opt_driver.py:162-166 | A one-fragment list returns that fragment's variants unchanged, or that fragment's error. An empty list returns `None`. |
| OptDriver.OptimizeFragsAppend | src/main/opt_driver.py:163-169 | Optimizing a fragment list split in two equals combining the results of the two halves. |
| OptDriver.PlainProgramUnchanged | src/main/opt_driver.py:76-78 | A program of plain fragments only is reproduced as one variant: the fragments' text in order, with no bindings. |
| OptDriver.SurroundedFragment | src/main/opt_driver.py:163-169 | A fragment between two plain fragments keeps its variants, their order and their bindings. Each variant's code is placed between the text before and the text after. If the fragment fails, the list fails with its error. |
| OptDriver.OptimizeCodeFrags | src/main/opt_driver.py:154-172 | At the top level, a program that fails the annotation validation is rejected with the validator's error. A "too many" error carries the module-name line of a PerfTuning region preceded by exactly one other, all earlier ones free of nested PerfTuning leaders. A "nested" error carries the line of a PerfTuning leader inside the first PerfTuning region. Otherwise the result is the combination of all fragments' variants, or the first failing fragment's error. |
| Outcomes.MapAllFirstFailure | src/main/opt_driver.py:163-166 | When optimizing the fragments independently fails, the error is that of the first failing fragment, and every fragment before it succeeded. |
| OptDriver.CombineFragments | src/main/opt_driver.py:161-169 | The imperative loop computes the same result as the recursive fold. |
| Variants.Wrap | src/main/opt_driver.py:139-142 | Wrapping keeps the number of variants and every variant's bindings. Each code becomes the leader text, then the code, then the trailer text. |
| Variants.WrapRoundTrip | src/main/opt_driver.py:139-142 | Wrapping loses nothing: stripping the leader and the trailer gives back the original variants. |
| Variants.CombineAt | src/main/opt_driver.py:168-169 | The combination of two variant sequences holds the join of accumulated variant i and next variant j at position i·n + j, where n is the next sequence's length. The accumulated sequence is the outer loop. |
| Variants.CombineMember | src/main/opt_driver.py:168-169 | Every combined variant is the join of one accumulated variant and one next variant. |
| Variants.CombineAssociative | src/main/opt_driver.py:168-169 | Combination is associative: grouping the siblings differently changes neither the variants nor their order. |
| Variants.CombineAllCount | src/main/opt_driver.py:163-169 | Combining a non-empty list of variant sequences gives as many variants as the product of their lengths. |
| Variants.CombineAllAppend | src/main/opt_driver.py:163-169 | Combining a list of sequences split in two equals combining the two halves' combinations. |
| Variants.CombineAllSingle | src/main/opt_driver.py:165-166 | A single sequence combines to itself. |
| Variants.Framed | src/main/opt_driver.py:168-169 | Combining with one plain variant on each side frames every variant's code and keeps its bindings. |
| Combinations.ListAllIsTruncatedProduct | src/main/tuner/tuner.py:205-225 | The tuner's enumeration equals the Cartesian product of the lists before the first empty one. It is empty when the first list itself is empty. |
| Combinations.ListAllCombinationsNonEmpty | src/main/tuner/tuner.py:215-225 | When every list is non-empty, the enumeration is the full Cartesian product: its length is the product of the lengths, and every combination takes one element from each list, in list order. The combination chosen by positions `idx` sits at the mixed-radix rank of `idx`. |
| Combinations.RankIsLexicographic | src/main/tuner/tuner.py:220-222 | Enumeration order is lexicographic in the chosen positions, with the first list outermost. |
| Combinations.CartesianProductAt | src/main/tuner/tuner.py:219-222 | The combination chosen by an index vector sits at that vector's rank. |
| Combinations.ListAllCombinationsOfNothing | src/main/tuner/tuner.py:211-213 | No lists give no combinations. |
| Combinations.ListAllCombinationsTrailingEmpty | src/main/tuner/tuner.py:216-218 | A trailing empty list is ignored: `[xs, []]` enumerates `[[x] for x in xs]`. |
| Combinations.ListAllCombinationsLeadingEmpty | src/main/tuner/tuner.py:219-225 | An empty first list empties the enumeration, whatever follows. |
| Combinations.ListAllCombinationsExample | src/main/tuner/tuner.py:207-208 | The docstring's example, with its integers 1 and 2 written as the characters `'1'` and `'2'`: `[['a','b'],['1','2']]` gives `[['a','1'],['a','2'],['b','1'],['b','2']]`. |
| CoordSystem.NormalizeRange | src/main/tuner/tuner.py:273-279 | An axis range is strictly increasing, so it has no duplicates and is sorted. It holds exactly the candidate values. |
| CoordSystem.Dedup | src/main/tuner/tuner.py:274-277 | Deduplication leaves no duplicates and the same set of values. |
| CoordSystem.Sort | src/main/tuner/tuner.py:279 | Sorting gives an ascending permutation of its input. |
| CoordSystem.BuildCoordSystem | src/main/tuner/tuner.py:264-283 | There is one axis per performance parameter, in input order, named after it. Each axis's values are strictly increasing and are exactly the parameter's candidate values. |
| CoordSystem.AxisRangeIsCanonical | src/main/tuner/tuner.py:273-280 | An axis range is the one ascending duplicate-free enumeration of its parameter's values. |
| TuningSpec.CombineConstraints | src/main/tuner/tuner.py:233-235 | The accumulating loop gives `True` followed by one ` and (rhs)` clause per constraint, in order. |
| TuningSpec.CombineConstraintsSnoc | src/main/tuner/tuner.py:74-76 | One more constraint appends exactly its clause to the combined string. |
| TuningSpec.CombineConstraintsExample | src/main/tuner/tuner.py:233-235 | Two constraints give `True and (N>0) and (M<N)`. |
| TuningSpec.MatchImportSound | src/main/tuner/tuner.py:22-23 | Whatever the matcher accepts is whitespace, `import`, whitespace, `spec`, whitespace, an identifier, `;` and whitespace. The reported name and start index are those of that identifier. |
| TuningSpec.MatchImportComplete | src/main/tuner/tuner.py:22-23 | Every such statement is accepted, with its identifier and the index where the identifier starts. |
| TuningSpec.StatementFound | src/main/tuner/tuner.py:181-182 | In an import statement, the line breaks in front of the name are exactly those in the whitespace before it. |
| TuningSpec.ExtractTuningInfo | src/main/tuner/tuner.py:171-201 | Code that is not an import statement goes to the specification parser. An import succeeds exactly when its name is registered, and then yields that specification. Otherwise it fails, naming the name and the annotation's line plus the line breaks before the name. |
| TuningSpec.ImportedSpecIsLookedUp | src/main/tuner/tuner.py:178-192 | An annotation `w1 import w2 spec w3 NAME; w4` never reaches the parser. It yields the specification registered under NAME, or fails at the annotation's line plus the line breaks in w1, w2 and w3. |
| Tuner.FilterValid | src/main/tuner/tuner.py:244-252 | Filtering succeeds exactly when the constraint evaluates without raising on every candidate. It then keeps exactly the candidates that satisfy it, in their original order. Otherwise it fails with the constraint-evaluation error. |
| Tuner.GetProblemSizes | src/main/tuner/tuner.py:229-260 | No input parameters is exactly the unpacking failure. A success is non-empty and consists of the candidate combinations, zipped with the parameter names, that satisfy the combined constraint, in combination order. Every failure is one of the three fatal kinds. With input parameters, the constraint-evaluation error is returned exactly when evaluating the constraint raises on some candidate. When evaluation never raises, the call succeeds exactly when some candidate satisfies the constraint. |
| Tuner.NoValidProblemSizesWhenAllRejected | src/main/tuner/tuner.py:254-257 | "No valid problem sizes" happens exactly when there are input parameters and the constraint evaluates, without raising, to false on every candidate. |
| Tuner.ProblemSizesBindEveryParam | src/main/tuner/tuner.py:237-252 | With every value list non-empty, each valid problem size binds every input parameter, in declaration order, to one of its values, and satisfies the constraint. |
| Tuner.CandidateCount | src/main/tuner/tuner.py:238-241 | With every value list non-empty, there are as many candidates as the product of the list lengths. |
| Tuner.TrailingEmptyParamIsDropped | src/main/tuner/tuner.py:239-241 | An input parameter declared last with no values is simply missing from every problem size. |
| Tuner.TuneSetup | src/main/tuner/tuner.py:70-112 | The search engine is configured as follows: the axes are built from the performance parameters; the constraint is the combined performance constraint; the time limit, a number of minutes that may be fractional, is multiplied by 60 into seconds; parallel search is used exactly when a batch command is given. |
| Tuner.TuneEach | src/main/tuner/tuner.py:92-166 | Tuning succeeds exactly when every problem size tunes: its search succeeds and its optimized code is exactly one version. The result then has one entry per problem size, in order, each tagged with its problem size. |
| Tuner.TuneEachRejectsMultipleVersions | src/main/tuner/tuner.py:129-131 | The first problem size whose optimization does not give exactly one version, after every earlier one tuned, makes tuning fail with "multiple versions". |
| Tuner.Tune | src/main/tuner/tuner.py:37-166 | A success implies a known output language, a tuning specification and valid problem sizes, with one entry per problem size, tagged with it. A failure to get the specification is returned as is. With the specification found, a problem-size failure is returned as is. With valid problem sizes, an unknown output language fails with "unknown output language", and a known one gives exactly the per-size tuning of those sizes. An unknown output language fails in every case. |

## Left out

- Dynamic class loading and transformations: loading a transformation class, constructing it and running `transform()` are one opaque function, `Env.transform`. Its four outcomes are mapped to the three error kinds the driver reports.
- Debug logging (`debug`, `info`) and the verbose listings of problem sizes and parameters (src/main/tuner/tuner.py:95-100, 119-124): output only.
- The text of the comment recorded with each tuned version, including the float formatting of the best cost (src/main/tuner/tuner.py:136-160): modelled as the parameter `infoComment`, whose text is prepended to the code.
- The performance-test code generators and the test driver (src/main/tuner/tuner.py:49-68): they compile and time candidates. Only the output-language check they perform is kept.
- The search engine, its class loading and its option dictionary: modelled as the parameter `search`. The search options are passed on as the list the specification holds, not converted to a dictionary.
- Python `eval` of constraint expressions and the specification parser: parameters. The combined constraint is built as a string exactly as in the source.
- Diagnostic message texts: each error keeps only its kind, its line and the names it reports.
- `AnnValidator.FindNestedPerfTuning`: does not state which nested PerfTuning line the first-in-first-out order reports first. It only states that the reported line is the line of some PerfTuning leader among the children.
- `AnnValidator.CheckPerfTuningAnns`: for the same reason, a "nested" failure is only said to report the line of some PerfTuning leader inside the first PerfTuning region, not the one the first-in-first-out search reaches first.
- `Fragments.ModulePath`: lower-cases ASCII letters only, as Python 2's byte-string `lower()` does in the default C locale. Under another locale, `lower()` may also fold non-ASCII bytes; that is not modelled.
- The "unexpected type of code fragment" branch (src/main/opt_driver.py:147-150): the fragment datatype has only the two kinds, so that branch cannot be reached.
- Parameter values: modelled as integers. The source accepts any comparable Python values.
- The search time limit: modelled as an exact `real`, so a fractional number of minutes keeps its fraction. The rounding of a Python float in `60 * search_time_limit` (src/main/tuner/tuner.py:85) is not modelled.
