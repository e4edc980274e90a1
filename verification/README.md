# A verified model of an RPSL engine

RPSL (RFC 2622, RFC 4012) is the language in which networks publish which routes they accept and announce. The engine
modelled here reads RPSL text, resolves named sets against a registry and reduces filters and policies to forms a
router configuration can be built from. This project models the parts of it whose answers are hard to get right, and
proves what each of them promises, for every input, every run or every interleaving of steps. `dafny verify
dfyconfig.toml` checks all of it.

| part | modules |
|---|---|
| Prefixes, ranges, range operators and their enumeration | Prefixes, RangePrefixes |
| Prefix spaces: canonical tries, their algebra, subset tests, ranges and examples | Tries, TrieSubsets, PrefixSpaces, SpaceRanges, SpaceExamples |
| Address ranges as fewest prefixes, over 128-bit words | Words, AddrRanges |
| Set expansion: operator tables, discovery, the walk | OpStacks, SetGraphs, Expander, Discovery |
| Filter evaluation with cyclic filter-sets | RangeIndex, Filters, FilterPasses, FilterFixpoint, FilterRuns, FilterBlocks, FilterEval |
| Filter normalization | Unfolding, Conjuncts, NormalizeErrors, NormalizeBlocks, Normalize |
| The pipelined IRRd client: slots and answers | PipeSlots, SlotOwners, SlotProgress, SlotIdle, SlotClosed, PipeAnswers, PipeRuns, PipeReturns |
| AS-path regexps: matching every path, printing and parsing | Regexps, PathAll, PathExact, RegexpSyntax, RegexpGrammar, RegexpNumbers, RegexpRoundTrip, RegexpParser |
| Lexer and streaming reader | Lexer, LexerLines, LexerPositions, Streams, StreamObjects, StreamLines, Streamer |
| Flattening structured policies | Policies, Flattening, FlattenTerms, FlattenActions, FlattenCosts, Flattener |
| The filter memo | MemoTexts, FilterMemos, MemoWeights, FilterMemoLayers, MemoRuns |

Collections holds two helpers on sequences and sets that several modules use.

How the engine's things appear here:

- A prefix is an address family and its network bits, a `seq<bool>`; an address buffer is an `array<bool>`. A mask of
  prefix lengths is a set of numbers.
- Lookups in the registry, routes of an AS, the truth of AS-path and community tests, and which pointers are equal are
  parameters: every theorem holds for all of them. Pointer comparison may answer true only for equal nodes.
- Errors are `Option` or an outcome datatype, and contracts say exactly when they arise.
- What the engine changes in place is a class or a method with `modifies`; the connection pool and its pipes are state
  machines whose steps are what the engine does under one lock or in one atomic operation.
- A grammar, a division of lines or a meaning that a theorem compares the engine's code with is defined apart from the
  functions that model the code.
- A theorem that speaks of "every run" is about every sequence of steps that `Play` or `Runs` admits, by any number of
  threads.

Three statements of the engine's documentation do not hold of its code as they are written. The model follows the code:

- `ASPathRE.String` (policy/regexp_ops.go:27-32) is said to give text that parses to the same regexp. Quantifiers
  stacked on one atom count towards the nesting cap, and the rendering drops a group that holds one quantified atom, so
  that the quantifiers inside the group and those after it become one longer row, which the parser may refuse:
  `RegexpRoundTrip.RenderingTooDeep` gives such a text, "(AS1 *) * ... *", for every cap from 3 on, and
  `RegexpRoundTrip.ParsePrintParse` says exactly when a rendering is read back.
- `PrefixRange.Materialize` (types/prefixrange.go:189-209) is said to fail when the count would exceed the caller's cap.
  It also fails for every range that is not empty and whose window reaches 31 bits or more past its prefix, whatever the
  cap, and an empty range never fails, even under a cap below zero. `RangePrefixes.CountDecidesIff` says for which range
  and cap the count alone decides, and `RangePrefixes.CapExact` that it does so for every range exactly when the cap is
  at least 0 and below 2^31.
- The reader of a broken pipe is said to fail every call on its queue, with none queued after it has held the lock
  (resolve/irrd/pipeline.go:455-473). A call that finds both room on the queue and the pipe broken may still queue itself
  then, and gets no result: `PipeRuns.LateCall` is a run with such a call. `PipeRuns.OnlyLateUnanswered` says that in
  every run these are the only ones: of the calls that queued themselves, those without a result once the reader is gone
  are exactly those that did so when it was gone already. They return all the same, since a call also waits for the
  reader to be gone (`PipeRuns.CanReturn`).

## Model

| member | source | states |
|---|---|---|
| Prefixes.NewPrefixRange | types/prefixrange.go:41-51 | the range holds exactly the prefixes under p with a length in the window asked for, and there is none exactly when it would hold none, as for an invalid p |
| Prefixes.Intersect | types/prefixrange.go:162-180 | a prefix is in the result exactly when both ranges hold it, and there is no result exactly when they share none |
| Prefixes.ApplyDenotesUnion | types/rangeop.go:85-106 | applying an operator to a range denotes exactly what the operator yields from each prefix of the range, taken together |
| Prefixes.OperatorLaws | types/rangeop.go:85-106 | what each operator yields from one prefix: ^+ it and its more specifics, ^- those without it, ^n and ^n-m those of the lengths given |
| Prefixes.AfiSplits | resolve/expander.go:147-156 | one family is wanted exactly when the other is not, and both when any is |
| Prefixes.PrefixLessTotal | resolve/expand_more.go:833-838 | of two prefixes just one is before the other, or they are the same |
| Prefixes.PrefixLessTransitive | resolve/expand_more.go:833-838 | the order is transitive, across families as well |
| RangePrefixes.Increment | types/prefixrange.go:246-256 | the bits between start and end go up by one as a number and no other bit changes; false, with all of them zero again, exactly when they were all ones |
| RangePrefixes.All | types/prefixrange.go:215-236 | a consumer that stops after any number of prefixes has had that many of the listing, from its front |
| RangePrefixes.ListingHas | types/prefixrange.go:215-236 | the listing holds exactly the prefixes of the range |
| RangePrefixes.ListingOrdered | types/prefixrange.go:215-236 | shorter prefixes come first and, within a length, lower addresses; so none is listed twice |
| RangePrefixes.ListingCount | types/prefixrange.go:189-236 | the size Materialize computes is the number of prefixes listed |
| RangePrefixes.Materialize | types/prefixrange.go:189-209 | the whole listing, or an error before anything is listed, exactly when the size test fails |
| RangePrefixes.CountDecidesIff | types/prefixrange.go:189-209 | for every range and cap: success is the count being within the cap, as documented, exactly when the range is empty and the cap not negative, or its window stays below 31 bits past the prefix, or the count exceeds the cap anyway |
| RangePrefixes.CapExact | types/prefixrange.go:189-209 | the caps under which the documented promise holds for every range are exactly those from 0 to below 2^31 |
| Tries.MergeHolds | types/prefixspace_ops.go:187-226 | at every depth and under any inherited lengths, the merged trie holds a prefix exactly when the Boolean operation on the operands does |
| Tries.MergeCanonical | types/prefixspace_ops.go:187-226 | merging canonical tries gives a canonical trie |
| Tries.LiftedHolds | types/prefixspace.go:134-154 | moving lengths both children hold up to their parent changes nothing that is held |
| Tries.LiftedCanonical | types/prefixspace.go:134-154 | a node made of canonical children, lifted, is canonical |
| Tries.CanonicalUnique | types/prefixspace.go:73-130 | canonical tries that hold the same prefixes are the same tree, at every depth and under any lengths held above |
| Tries.Inhabited | types/prefixspace.go:149-154 | a canonical trie with a node holds a prefix of a length not already held above it |
| TrieSubsets.SubsetUnionExact | types/prefixspace_ops.go:117-163 | the walk answers true exactly when every prefix on the left, or inherited there, is in some trie on the right, or inherited there; so every early exit is right |
| TrieSubsets.SubsetUnionIsFoldedSubset | types/prefixspace_ops.go:45-65 | testing against a list is testing against the list's folded union |
| TrieSubsets.SubsetIsSubsetUnion | types/prefixspace_ops.go:71-103 | the two-trie walk is the list walk with at most one node |
| TrieSubsets.SubsetIsEmptyMinus | types/prefixspace_ops.go:71-103 | on canonical tries the subset test holds exactly when the difference is the empty trie |
| TrieSubsets.CoveredIncluded | types/prefixspace_ops.go:109-111 | the early exit is sound: what is covered is included |
| TrieSubsets.SubsetUnionWalk | types/prefixspace_ops.go:117-163 | the walk over windows of one shared growable array gives the list walk's answer, overwrites nothing a caller still reads and leaves the array's contents as they were |
| TrieSubsets.KidWalk | types/prefixspace_ops.go:145-161 | one child's nodes are appended, walked and dropped again; the window being read is unchanged |
| PrefixSpaces.CombineExact | types/prefixspace_ops.go:165-170 | union, intersection and difference of valid spaces are valid and hold exactly the Boolean combination, in both families |
| PrefixSpaces.EqualIsSamePrefixes | types/prefixspace.go:189-199 | two valid spaces are equal as trees exactly when they hold the same prefixes |
| PrefixSpaces.ContainsWalk | types/prefixspace.go:202-222 | the loop down the trie finds what the trie holds |
| PrefixSpaces.InsertHolds | types/prefixspace.go:73-98 | inserting a range adds exactly the prefixes under it with a length in its window |
| PrefixSpaces.BuildSpace | types/prefixspace.go:73-98 | the loops over the ranges build the space SpaceOfMeaning speaks of |
| PrefixSpaces.SpaceOfMeaning | types/prefixspace.go:73-98 | the space of any ranges is canonical and holds exactly their prefixes |
| PrefixSpaces.NormalizeHolds | types/prefixspace.go:117-130 | normalizing keeps what is held together with the lengths covered above |
| PrefixSpaces.NormalizeCanonical | types/prefixspace.go:117-130 | normalizing any raw trie gives a canonical one |
| PrefixSpaces.SubsetOfIsEmptyMinus | types/prefixspace_ops.go:36-39 | Subset holds exactly when Minus is empty |
| PrefixSpaces.SubsetOfUnion | types/prefixspace_ops.go:45-65 | the answer is whether the difference from the union of all the spaces is empty |
| SpaceRanges.RangesRoundTrip | types/prefixspace.go:285-327 | the space of a space's ranges is that space |
| SpaceRanges.RangesListed | types/prefixspace.go:285-294 | the ranges come in canonical order and no two share a prefix |
| SpaceRanges.WalkRanges | types/prefixspace.go:296-327 | the walk that flips bits of one address buffer yields the trie's ranges in order and gives the buffer back as it was |
| SpaceRanges.RangesOfDenote | types/prefixspace.go:296-327 | the ranges of a node together denote exactly what it holds |
| SpaceExamples.ExampleIsFirst | types/prefixspace.go:227-242 | there is an example exactly when the space is not empty, and it is the first of all its prefixes: IPv4 first, then shortest, then lowest |
| SpaceExamples.ShortestIsLeast | types/prefixspace.go:245-256 | no prefix held is shorter than the length found |
| SpaceExamples.FirstWithIsFirst | types/prefixspace.go:263-280 | the prefix found is the lowest of its length held, and none is found only when none is held |
| SpaceExamples.FirstWithWalk | types/prefixspace.go:263-280 | the in-place search finds that prefix and gives the buffer back as it was |
| Words.U128.Sub | types/addrrange.go:106-110 | subtraction of two words with borrow is subtraction of the numbers |
| Words.U128.Add1 | types/addrrange.go:112-115 | adding one with carry adds one to the number, short of 2^128 |
| Words.TrailingZerosVal | types/addrrange.go:118-123 | the count over the two words is the number of trailing zeros of the whole, 128 for zero |
| Words.BitLenVal | types/addrrange.go:126-131 | the length over the two words is the bit length of the whole number |
| Words.LowOnesVal | types/addrrange.go:91-102 | the word with n low ones is 2^n - 1 |
| Words.OrVal | types/addrrange.go:104-104 | or-ing word by word is or-ing the whole numbers |
| AddrRanges.U128Of | types/addrrange.go:64-76 | shifting in the bytes of an address of either family gives its number |
| AddrRanges.AddrOf | types/addrrange.go:78-88 | the bytes shifted out of a number write that number in the family's length |
| AddrRanges.AddrRoundTrip | types/addrrange.go:64-88 | an address made a number and back is the same address |
| Words.BytesInjective | types/addrrange.go:64-88 | bytes of one length that write the same number are the same |
| AddrRanges.NextSize | types/addrrange.go:27-59 | the block taken next is aligned, ends within the range, and no larger block would be and do both |
| AddrRanges.GreedyBlocks | types/addrrange.go:41-58 | the loop ends with prefixes, by address and length, whose blocks tile the range, each greedy |
| AddrRanges.TilesCover | types/addrrange.go:27-59 | an address is between lo and hi exactly when some prefix has it |
| AddrRanges.TilesOrdered | types/addrrange.go:27-59 | the prefixes ascend and are disjoint |
| AddrRanges.GreedyIsFewest | types/addrrange.go:27-59 | no set of prefixes that covers exactly the range is smaller |
| AddrRanges.GreedyCount | types/addrrange.go:27-59 | there are at most 2·width - 2 of them |
| AddrRanges.AddrRangePrefixes | types/addrrange.go:27-59 | each error arises exactly in its own case, the first that applies; otherwise the prefixes are of the family, aligned, tile the range, and are fewest among all exact covers and at most 2·width - 2 |
| OpStacks.PushLoop | resolve/opstack.go:36-69 | the nested loops fill the table of the pushed stack |
| OpStacks.PushApplies | resolve/opstack.go:36-69 | applying a pushed stack is applying the operator and then the stack, deletions included |
| OpStacks.StackRefinesComposition | resolve/opstack.go:36-86 | for every sequence of operators, one lookup in the table equals applying them one at a time, innermost first |
| OpStacks.AllStacksComplete | resolve/opstack.go:36-69 | there are finitely many operator tables, all in one set: why the walk over them ends |
| SetGraphs.InSetIsLeastSolution | resolve/expander.go:730-784 | membership by derivation solves the equations "own ranges, or the operator applied to a nested set's" and is contained in every solution |
| SetGraphs.SetEquation | resolve/expander.go:598-642 | an as-set or route-set has its own prefixes and those of the sets it lists and knows: as-sets give to both classes, route-sets to route-sets only, names left out to none |
| SetGraphs.AnyNames | types/setname.go:160-166 | the names that stand for the whole registry are one per class of set |
| SetGraphs.StackIsChain | resolve/opstack.go:73-86 | an operator table denotes exactly the prefixes a chain of operators yields |
| Expander.Evaluator.Walk | resolve/expander.go:730-784 | the walk ends on every set graph, cycles through operators included; it visits only states reached from the top, leaves every successor of what it visited visited, and adds exactly those states' ranges |
| Expander.Evaluator.AddRoutes | resolve/expander.go:787-799 | exactly the routes the operators keep are added |
| Expander.Evaluator.Add | resolve/expander.go:803-813 | exactly the range the operators make of r is added, if the family is wanted |
| Expander.WalkSound | resolve/expander.go:730-813 | whatever a reached state adds is in the least solution and of a wanted family |
| Expander.WalkComplete | resolve/expander.go:730-813 | every prefix of the least solution is added by some visited state |
| Expander.ExpandRanges | resolve/expander.go:238-255 | the ranges returned denote exactly the least solution restricted to the wanted families, whatever the order of members |
| Discovery.Discover | resolve/expander.go:344-414 | breadth-first discovery finds exactly the sets reachable from the top, as present or missing; the outcomes for ANY and for a missing top arise exactly when they should |
| Discovery.Follow | resolve/expander.go:598-622 | one set's references are added to what is seen and queued, each once |
| Discovery.RestrictDerives | resolve/expander.go:344-414 | fetching only the discovered sets derives the same prefixes as the whole registry |
| Discovery.ExpandPrefixRanges | resolve/expander.go:231-255 | discovery and walk together give exactly the least solution over the whole registry, the missing references reached, or the one error that applies |
| RangeIndex.NestingPairs | resolve/expand_more.go:766-809 | ancestor lookup and binary search visit exactly the pairs of ranges whose prefixes nest |
| RangeIndex.Ancestors | resolve/expand_more.go:793-797 | the lookups by shortened prefix find exactly the ranges at or above a prefix |
| RangeIndex.Descendants | resolve/expand_more.go:798-806 | the scan from the binary search finds exactly the ranges strictly below it |
| RangeIndex.ScanFindsDescendants | resolve/expand_more.go:798-806 | in the sorted list the descendants of p are the longer prefixes from where p would be up to p's last address |
| RangeIndex.IntersectRanges | resolve/expand_more.go:813-830 | the result is the set of all non-empty pairwise intersections and denotes exactly the common prefixes |
| Filters.PutOpsDenote | resolve/expand_more.go:749-758 | applying an operator to a value denotes exactly what it yields from the value's prefixes, in the wanted families |
| FilterFixpoint.EvalMono | resolve/expand_more.go:332-421 | a pass over larger approximations has a value and memo no smaller, and fails or meets a cycle exactly when the other does |
| FilterFixpoint.SetValueMono | resolve/expand_more.go:495-525 | the same of one filter-set |
| FilterFixpoint.EvalSolves | resolve/expand_more.go:332-421 | a pass that met no cycle, or whose approximation is its own memo, gives values that solve the filter-sets' equations |
| FilterFixpoint.SetSolves | resolve/expand_more.go:495-525 | the same of one filter-set |
| FilterRuns.EvalUnder | resolve/expand_more.go:332-421 | what a pass computes is below every solution when what it starts from is |
| FilterRuns.SolutionIsLfp | resolve/expand_more.go:244-275 | values that solve the equations and lie below every solution are the least one |
| FilterRuns.LastPassIsMeaning | resolve/expand_more.go:244-275 | the value of the last pass denotes the filter under the least solution of the filter-set equations |
| FilterRuns.OneAnswer | resolve/expand_more.go:244-275 | an evaluation has just one answer, however many passes it takes |
| FilterBlocks.EvaluatesIff | resolve/expand_more.go:332-421 | a pass from scratch has a value exactly when no negation, path or community test, failing source, or name for the whole registry (where it is an error) can be reached through the filter-sets it names |
| FilterEval.Evaluator.EvalTerm | resolve/expand_more.go:332-421 | the evaluator, updating memo, active names and the cycle flag in place, computes the pass the lemmas are about, value or error, and restores the active names |
| FilterEval.Evaluator.EvalGroup | resolve/expand_more.go:353-386 | the same for the terms of AND and OR, stopping at the first error |
| FilterEval.Evaluator.FilterSetValue | resolve/expand_more.go:495-525 | the same for a filter-set: memo, back-edge, definition |
| FilterEval.Evaluator.RunPasses | resolve/expand_more.go:244-256 | passes repeat until two agree and always end; the value is the answer, it denotes the filter under the least solution, and there is one exactly when the first pass succeeds |
| FilterEval.Evaluator.Run | resolve/expand_more.go:238-256 | evaluating a filter from scratch ends with its one answer, which denotes the filter under the least solution; there is one exactly when nothing that blocks an evaluation can be reached through filter-sets |
| FilterEval.BoundingPairs | resolve/expand_more.go:244-256 | all values passes can reach lie in one finite set: why the passes end |
| Unfolding.IsSymbolic | resolve/normalize.go:311-345 | the search through filter-sets, cycles included, finds a negation or a path or community test exactly when one can be reached |
| Unfolding.UnfoldIsMeaning | resolve/normalize.go:550-598 | a filter with its symbolic filter-sets replaced by their definitions, as deep as needed, means what the filter means under any solution of the equations of the sets it names |
| Unfolding.UnfoldedStratified | resolve/normalize.go:550-598 | such a solution exists |
| Conjuncts.Merge | resolve/normalize.go:428-489 | the merged conjunct accepts exactly what both accept, and there is none only when nothing is |
| Conjuncts.MergeTests | resolve/normalize.go:429-456 | the tests of both, those of the first in front, none twice |
| Conjuncts.Product | resolve/normalize.go:396-422 | distributing AND over the parts accepts exactly what every part accepts |
| Conjuncts.Prune | resolve/normalize.go:622-654 | dropping positive ranges that are excluded whole, and exclusions that meet none left, keeps the prefixes accepted |
| Conjuncts.FinishOne | resolve/normalize.go:604-691 | the finished conjunct matches exactly what was accepted; it has positive ranges, says so when it takes everything, and every exclusion meets one of them |
| Conjuncts.Finish | resolve/normalize.go:604-691 | the answer matches exactly what the conjuncts accepted, has no more of them, and no two with the same text |
| Conjuncts.SameTextMatches | resolve/normalize.go:604-691 | conjuncts with the same text match alike, so dropping repeats is safe |
| NormalizeErrors.CycleCannot | resolve/normalize.go:550-598 | a symbolic filter-set that leads back to one being inlined cannot be normalized, at any depth |
| NormalizeErrors.StrictAnswers | resolve/normalize.go:96-132 | a filter EvalFilter answers, to which AS-ANY and RS-ANY are errors, has the same answer where they are every route |
| NormalizeErrors.EvaluatesPlain | resolve/normalize.go:311-345 | a filter that evaluates reaches no negation and no path or community test |
| NormalizeBlocks.NormalizableIff | resolve/normalize.go:240-301 | a filter is normalizable exactly when, following the symbolic filter-sets it would inline, there is no unusable test, no operator on a symbolic filter-set, no enumerable part that does not evaluate and no filter-set met again |
| Normalize.Normalizer.Literal | resolve/normalize.go:287-301 | an enumerable filter becomes the one literal of its evaluated value, positive or negated, and fails exactly when evaluation does |
| Normalize.Normalizer.Norm | resolve/normalize.go:240-281 | with negation pushed in, the conjuncts accept exactly what the filter, or its negation, does; an error arises exactly for filters that are not normalizable; memo and inlined names are kept right |
| Normalize.Normalizer.Group | resolve/normalize.go:352-392 | the same for AND and OR, whose enumerable terms are folded into one literal; an empty AND denotes nothing |
| Normalize.Normalizer.FilterSet | resolve/normalize.go:550-598 | the same for a symbolic filter-set, inlined once per polarity and refused on a cycle |
| Normalize.NormalizeFilter | resolve/normalize.go:133-184 | it succeeds exactly when no such obstacle can be reached by inlining; the result is a normal form of the filter with every conjunct finished and no text twice; whenever EvalFilter answers, it is the one plain conjunct of that answer, or none when the answer is empty |
| Normalize.NormalFormMeans | resolve/normalize.go:163-184 | for every prefix of the wanted family and every truth of the tests, a normal form matches exactly when the filter does, under every solution of the equations of the filter-sets it names, of which there is one |
| PipeSlots.InvKept | resolve/irrd/pipeline.go:79-387 | every step of opening, using, retiring, waiting, giving up and shutting keeps the invariant of pipes, hand-overs and threads |
| SlotOwners.ConservedKept | resolve/irrd/pipeline.go:149-234 | every step keeps the slots in use equal to the number of owners and at most the maximum |
| SlotOwners.EveryRun | resolve/irrd/pipeline.go:79-387 | in every reachable state slots are conserved, and every pipe that must still be listed, retired or shut has a thread on it |
| SlotOwners.SlotLeavesOnce | resolve/irrd/pipeline.go:369-379 | a pipe that has given up its slot never has one again, and when it does so the slot is either released or passed to exactly one waiting thread, even if that thread gives up |
| SlotOwners.RetiredIsShut | resolve/irrd/pipeline.go:290-387 | a retired pipe with no load that is not shut yet has a thread that will shut it; at rest every pipe is shut, listed, or retired with calls left |
| SlotOwners.WaiterIsServed | resolve/irrd/pipeline.go:221-234 | at rest, a thread that waits has been given a slot or waits for a pipe that still has calls |
| SlotProgress.NoDeadlock | resolve/irrd/pipeline.go:79-387 | whenever some thread is midway, some midway thread can take a step |
| SlotProgress.EveryRunEnds | resolve/irrd/pipeline.go:79-387 | however a run goes on by threads that are not idle alone, it ends, within a bound known before |
| SlotProgress.EveryRunRests | resolve/irrd/pipeline.go:79-387 | every run can be played on that way to a state at rest |
| SlotProgress.RetiredShutsInTheEnd | resolve/irrd/pipeline.go:290-387 | wherever such a run ends, all threads are at rest and every pipe that was retired and idle at its start is shut |
| SlotIdle.IdleGoesOn | resolve/irrd/pipeline.go:79-145 | at rest, with slots at all, a caller that wants a pipe takes a slot whenever one is free; else it joins a pipe of its own or retires another's, if one is listed and no caller of its Source waits already; else a slot is promised to a call that waits, and it or an answer due can come |
| SlotIdle.EveryWaitCounted | resolve/irrd/pipeline.go:290-338 | a Source that counts a caller as waiting has one |
| SlotClosed.NeverGains | resolve/irrd/pipeline.go:183-188 | a pipe that has left its Source's list never gains a call, however the run goes on |
| SlotClosed.ReclaimedHasNone | resolve/irrd/pipeline.go:265-285 | no call is ever on a pipe that was reclaimed |
| SlotClosed.RetiredNeverGains | resolve/irrd/pipeline.go:290-327 | a pipe taken out to be retired never has more calls than it had then |
| SlotClosed.EveryRunSealed | resolve/irrd/pipeline.go:149-165 | in every reachable state a closed Source lists no pipe, one being opened while it closed included |
| SlotClosed.ClosedAtRest | resolve/irrd/irrd.go:929-955 | at rest every pipe of a closed Source is shut, or retired with answers due |
| PipeAnswers.InvKept | resolve/irrd/pipeline.go:390-473 | every step of callers, cancelled callers, the wire, the reader and a break keeps queue, commands sent and frames read aligned |
| PipeRuns.EveryRun | resolve/irrd/pipeline.go:390-473 | the invariant holds in every reachable state, with the load the number of calls counted |
| PipeRuns.OwnAnswer | resolve/irrd/pipeline.go:390-453 | when the server answers in order, an answer a call gets is the answer to its own command, under every interleaving |
| PipeReturns.EveryReturn | resolve/irrd/pipeline.go:390-453 | in every reachable state a call failed, or was delivered a failure, only if the pipe is broken, and one that returned otherwise than by giving up returned the result delivered to it |
| PipeReturns.CancelledGaveUp | resolve/irrd/pipeline.go:390-425 | a call returns its context's error only by giving up |
| PipeReturns.EveryCallAnswered | resolve/irrd/pipeline.go:390-453 | from every reachable state of a pipe that is not broken, whatever the capacity of its queue above zero, every call that joined and has not returned can go on to return its own answer |
| PipeRuns.OneResult | resolve/irrd/pipeline.go:429-473 | no call is delivered a second result |
| PipeRuns.ReturnsOnce | resolve/irrd/pipeline.go:390-425 | a call that has returned keeps its result |
| PipeRuns.LoadKept | resolve/irrd/pipeline.go:383-425 | every step keeps the load equal to the calls counted |
| PipeRuns.CanReturn | resolve/irrd/pipeline.go:390-473 | every call waiting on a broken pipe can return |
| PipeRuns.LateQueue | resolve/irrd/pipeline.go:429-473 | the reader leaves an empty queue behind, and from then on the queue is exactly the calls queued since, in order |
| PipeRuns.OnlyLateUnanswered | resolve/irrd/pipeline.go:390-473 | after every run whose reader is gone, a call that queued itself is without a result exactly when it did so with the reader already gone |
| PipeRuns.LateCall | resolve/irrd/pipeline.go:390-473 | there is a run with such a call, waiting |
| PathAll.RejectsEveryPathSound | resolve/consist/pathall.go:24-32 | when the analysis says so, the regexp is found in every non-empty AS path |
| PathAll.EveryPathSound | resolve/consist/pathall.go:37-65 | the same with at most one end anchored |
| PathAll.EveryPathIff | resolve/consist/pathall.go:37-65 | a regexp with no inner anchor and at most one end anchored is found in every path exactly when it matches nothing or every path of one AS: the test the analysis approximates |
| PathAll.NullableMatches | resolve/consist/pathall.go:99-123 | a nullable regexp matches the empty stretch anywhere |
| PathAll.MatchesNullable | resolve/consist/pathall.go:99-123 | a regexp without anchors that matches an empty stretch is nullable |
| PathAll.OnesAllMatches | resolve/consist/pathall.go:126-178 | a regexp the analysis accepts matches every single AS, through repeats, same-AS repeats, classes and sets that reach AS-ANY |
| PathExact.OnesAllExact | resolve/consist/pathall.go:126-178 | for regexps that do not match nothing, with no negated class, AS range or template of every AS, the analysis accepts exactly those that match every single AS |
| PathExact.OnesAllMisses | resolve/consist/pathall.go:126-178 | it does not for one that matches nothing too: (.*){2} |
| PathExact.RejectsExact | resolve/consist/pathall.go:24-65 | on such regexps, no branch anchored inside or at both ends, the analysis is exact: it says so exactly when the regexp is found in every non-empty AS path |
| RegexpRoundTrip.RoundTripIff | policy/regexp_ops.go:34-114 | for every tree the parser can produce, parsing its rendering gives the same tree back if the rendering's nesting is within the cap, and fails if it is not |
| RegexpRoundTrip.ParsePrintParse | policy/regexp_ops.go:34-114 | the same for whatever any tokens parsed to |
| RegexpRoundTrip.RenderingTooDeep | policy/regexp_ops.go:84-114 | for every cap from 3 on, a regexp that parses and whose rendering does not |
| RegexpRoundTrip.AltCanonical | policy/regexp.go:271-296 | every tree parsed has the shape the printer inverts: no alternation or sequence of one, no quantifier on an anchor, AS ranges only in classes |
| RegexpGrammar.ParsesIff | policy/regexp.go:252-528 | for every body and tree: the body parses to the tree exactly when it is a sentence of the grammar that means that tree and nests within the cap; groups, every form of quantifier and class item included |
| RegexpGrammar.BranchesRead | policy/regexp.go:271-296 | every sentence parses to its tree, or fails exactly when it nests too deep |
| RegexpGrammar.AltDerives | policy/regexp.go:271-296 | whatever parses is a sentence of the grammar that means the tree it parsed to |
| RegexpNumbers.PlainNumbers | policy/regexp.go:244-269 | a body parses exactly when it does with every plain number written as the AS number it names, to the same tree, and the plain words reported are all those of the body, in order |
| RegexpParser.ReParser.ParseAlt | policy/regexp.go:271-296 | the parser with its position, depth and bare-number list updated in place reads exactly what the grammar function does, errors included |
| RegexpParser.ReParser.ParseSeq | policy/regexp.go:298-311 | the same for a sequence |
| RegexpParser.ReParser.ParseTerm | policy/regexp.go:324-369 | the same for an atom and its stacked quantifiers |
| RegexpParser.ReParser.ParseRange | policy/regexp.go:372-399 | the same for a counted quantifier |
| RegexpParser.ReParser.ParseAtom | policy/regexp.go:420-451 | the same for an atom, counting parentheses against the cap |
| RegexpParser.ReParser.ParseClass | policy/regexp.go:455-487 | the same for a class |
| RegexpParser.ReParser.Item | policy/regexp.go:491-505 | the same for one item of a class |
| RegexpParser.ReParser.AsnRange | policy/regexp.go:515-528 | the same for a range of AS numbers |
| RegexpParser.ParseASPathRegexp | policy/regexp.go:252-269 | the answer is a tree exactly when the body is a sentence of the grammar that means that tree, nested within the cap; the plain numbers reported are those of the body |
| Lexer.ScanLines | lexer/lexer.go:195-230 | the scan cuts the source into its physical lines, terminators included |
| Lexer.TokenizeAt | lexer/lexer.go:108-189 | the loop over lines yields the tokens the other rows are about, what each is by its characters included |
| Lexer.Tokenizer.Line | lexer/lexer.go:108-189 | one line, through the attribute being folded, has the effect of one step of the token function |
| Lexer.Lossless | lexer/lexer.go:99-189 | for every input, the tokens' raw texts joined are the input |
| LexerLines.TokensRead | lexer/lexer.go:190-385 | by characters and for every input: lines end at newlines; a token is blank exactly when its text is spaces and tabs, a comment exactly when it starts with '#', an attribute exactly when it starts with none of space, tab, '+', '#' and has a ':' before any '#', and then takes every line that goes on with it; its name is what is before the ':' trimmed and in lower case, its value the trimmed pieces before the comments, a newline between |
| LexerLines.LineIs | lexer/lexer.go:234-286 | the tests for blank, continuing and opening lines say just that of a line's characters |
| LexerLines.TextIs | lexer/lexer.go:201-230 | a line's text is the line without its terminator, a carriage return at the end included |
| LexerPositions.TokensTile | lexer/lexer.go:108-189 | the tokens' spans follow one another without gap, in lines and bytes, from the given start to the end of the input |
| LexerPositions.TokenAt | lexer/lexer.go:32-67 | a token's raw text is the source at its span, and an attribute's value is its lines' pieces joined |
| LexerPositions.SegmentsMap | lexer/lexer.go:43-52 | every byte of a segment of a value is the source byte its segment maps it to |
| LexerPositions.SourceAt | lexer/lexer.go:70-89 | for every offset: the source position of that byte of the value, the end of the segment before a join, or the nearest end when the offset is outside |
| Streams.TokJoin | stream.go:212-245 | tokenizing may be cut before any line that cannot continue an attribute |
| StreamObjects.OnlyDivision | stream.go:87-98 | there is just one division of the lines into objects that has an attribute in each, ends each at an empty line before the next, and lets trailing lines join the last |
| StreamLines.OnlyLinesDivision | stream.go:87-98 | the same by characters: an object after the first starts at a line of spaces and tabs only, has a line that starts an attribute, and after it no line of spaces and tabs unless nothing after that starts one |
| StreamObjects.ObjectsTokens | stream.go:247-288 | the objects' tokens in order are the tokens of the whole input, positions included |
| Streamer.Streamer.Line | stream.go:247-288 | one line keeps the buffers, the objects divided off and the one held back in step with the lines read |
| Streamer.Streamer.TakeCurrent | stream.go:420-437 | the leading lines and the object's own become one chunk whose tokens are those of its lines |
| Streamer.Streamer.Finish | stream.go:475-507 | at the end of input the objects end exactly where the division says |
| Streamer.Streamer.Drain | stream.go:212-245 | queued chunks are yielded in order, each once, until none is left or the consumer stops |
| Streamer.Streamer.Next | stream.go:87-89 | reading on, one line at a time, there are never more than two objects in memory: finished ones, queued or held back, and the one in progress |
| Streamer.Streamer.Run | stream.go:193-209 | a run goes on to the end of input or to where the consumer stops and can be taken up again there; what the consumer has had is always the front of the input's objects, and all of them if it did not stop |
| Streamer.ConsumeSome | stream.go:193-245 | a consumer that breaks any number of times and never comes back has had exactly as many of the first objects as it asked for, or all |
| Streamer.Consume | stream.go:193-288 | for every input and every pattern of stops and resumptions, the objects yielded are those of the division, by the characters of the lines, each with the raw text of its lines; their tokens in order are the tokens of the whole input, and their raw text is the input |
| Flattening.AndFiltersPass | policy/flatten.go:342-358 | the conjunction passes exactly the routes both filters do, an absent filter passing all |
| Flattening.OrFiltersPass | policy/flatten.go:361-377 | the disjunction passes exactly the routes some filter does, and there is none exactly for an empty list |
| Flattening.FilterSizeExact | policy/flatten.go:189-212 | up to the depth cap the size is the number of nodes |
| FlattenTerms.RefineAccepts | policy/flatten.go:218-243 | the terms of REFINE accept a route from a peer, by way of another, exactly when both sides do |
| FlattenTerms.ExceptAccepts | policy/flatten.go:249-288 | the terms of EXCEPT accept what the right side accepts of the left's routes, and the left's where the right admits nothing; together they admit exactly the left's routes |
| FlattenTerms.ExceptOverlap | policy/flatten.go:249-288 | an exception and a remainder admit the same route exactly when a factor without a filter on the right is all that admits it |
| FlattenTerms.ExceptKeeps | policy/flatten.go:249-288 | for policies whose factors all have filters, EXCEPT's terms admit exactly the left's routes and no route is in both an exception and a remainder |
| FlattenTerms.FlatAccepts | policy/flatten.go:147-186 | the flat terms accept a route from a peer, by way of another, exactly when the structured policy does, for every nesting and address family |
| FlattenActions.FlatChosen | policy/flatten.go:147-288 | the first term that accepts a route has the actions the structured policy gives it |
| Policies.CoversIff | types/addrfamily.go:106-118 | a family covers another exactly when it stands for every single family the other does |
| FlattenCosts.FlatBounded | policy/flatten.go:147-288 | the number of terms and their weights are at most what the expression alone gives: products for REFINE, products and remainders for EXCEPT |
| FlattenCosts.CostBounded | policy/flatten.go:122-288 | what flattening charges is at most a budget computed from the expression alone |
| FlattenCosts.CostExact | policy/flatten.go:122-288 | it is exactly that budget when every peering is ANY, by way of anyone, every factor has a filter and no filter nests past the cap |
| Flattener.FitsIff | policy/flatten.go:147-186 | an expression is within the depth cap exactly when its height, of what is in effect, is |
| Flattener.Flattener.Charge | policy/flatten.go:122-131 | the charge is spent and accepted exactly when it fits the budget and nothing failed before |
| Flattener.Flattener.RefineTerms | policy/flatten.go:218-243 | with the budget updated in place: the terms of the lemmas, or failure exactly when their cost, bounded as above, does not fit |
| Flattener.Flattener.ExceptTerms | policy/flatten.go:249-288 | the same for EXCEPT |
| Flattener.Flattener.Flatten | policy/flatten.go:147-186 | the same for every expression, failing also exactly when it nests past the depth cap |
| Flattener.Flatten | policy/flatten.go:71-82 | it succeeds exactly when height and cost fit, and whenever the budget computed from the expression does; then the filter nodes and terms together are within the budget, and the terms accept and choose actions exactly as the structured policy does |
| MemoTexts.MemoTextInjective | resolve/filtermemo.go:250-256 | two filters the memo accepts with the same key text are the same filter |
| MemoTexts.ReadFilter | resolve/filtermemo.go:258-340 | the text of a filter can be told from whatever follows it |
| MemoTexts.ReadAs | resolve/filtermemo.go:342-364 | the same for AS expressions |
| MemoTexts.ReadPath | resolve/filtermemo.go:366-421 | the same for AS-path regexps |
| MemoTexts.OpTextInjective | resolve/filtermemo.go:426-441 | the text of an operator tells its fields |
| MemoTexts.GoEscapesSound | resolve/filtermemo.go:258-323 | Go's quoting escapes, whatever is printable, are such that quoted text can be read back |
| FilterMemos.KeepValid | resolve/filtermemo.go:211-228 | keeping an answer leaves map and lists agreeing and each pool's held weight the sum of its entries and at most the maximum |
| FilterMemos.NewestSurvives | resolve/filtermemo.go:211-228 | a newly kept answer is never the one evicted, and no more are evicted than must be |
| FilterMemos.OtherPool | resolve/filtermemo.go:211-228 | keeping an answer of one kind changes nothing of the other |
| FilterMemos.SurvivorsLead | resolve/filtermemo.go:211-228 | the answers that stay are a front part of the list |
| FilterMemos.Evict | resolve/filtermemo.go:211-228 | the loop keeps the longest front part that fits and takes exactly the rest out of the map |
| FilterMemos.TouchValid | resolve/filtermemo.go:138-161 | a hit keeps the memo valid, loses nothing and moves its answer to the front |
| FilterMemos.GetFinds | resolve/filtermemo.go:138-161 | a lookup answers exactly when some layer holds the key, with the answer of the first that does, which is for that key; the layers below that one are untouched and all stay valid |
| FilterMemos.LayerKeepsHits | resolve/filtermemo.go:138-161 | an answer found below is then held by the top layer too, exactly when four times its weight is within that layer's maximum |
| FilterMemos.StoreValid | resolve/filtermemo.go:196-206 | storing leaves all layers valid |
| FilterMemos.StoreThenGet | resolve/filtermemo.go:138-228 | a new key stored is found by the next lookup exactly when it has no error, or the error is a set too large, not enumerable or every set, and four times its weight is within the maximum of some layer; an answer with any other error changes nothing |
| FilterMemos.KeptIff | resolve/filtermemo.go:211-228 | a new answer is kept exactly when four times its weight is at most the maximum |
| FilterMemos.GetCounts | resolve/filtermemo.go:138-161 | a lookup counts once in every layer it reaches, a hit exactly if it is answered |
| MemoWeights.NormalKeptIff | resolve/filtermemo.go:166-228 | a normal form weighs one more than it has ranges and AS numbers, counted by their places, and is kept exactly when four times that is within the maximum |
| FilterMemos.Weigh | resolve/filtermemo.go:166-187 | the loop sums the conjuncts' ranges and the AS numbers of their path tests |
| FilterMemoLayers.FilterMemo.constructor | resolve/filtermemo.go:105-124 | a new layer is empty, over the given one |
| FilterMemoLayers.FilterMemo.KeepOwn | resolve/filtermemo.go:211-228 | map, list and weight updated in place become those of the value model |
| FilterMemoLayers.FilterMemo.Get | resolve/filtermemo.go:138-161 | the layered lookup has the model's answer and leaves every layer as the model does, valid |
| FilterMemoLayers.FilterMemo.Store | resolve/filtermemo.go:196-206 | the layered store keeps and evicts in every layer as the model does, refuses the errors it refuses, and leaves all valid |
| FilterMemoLayers.FilterMemo.Put | resolve/filtermemo.go:166-187 | an answer that depends on a peer is only counted, in every layer; any other is stored with its weight; all layers stay valid |
| FilterMemoLayers.FilterMemo.PutAsns | resolve/filtermemo.go:190-192 | AS numbers are stored in their own pool with their weight; all layers stay valid |
| FilterMemoLayers.CountAllCounts | resolve/filtermemo.go:166-174 | an answer found for one peer only is counted, once in every layer, and nothing else changes |
| MemoRuns.KeyInjective | resolve/normalize.go:149-159 | requests with the same memo key are the same request |
| MemoRuns.RunSafe | resolve/filtermemo.go:138-228 | every interleaving of lookups, computations, some of which break off, and stores by any number of callers keeps every layer valid and every answer in it right |
| MemoRuns.Transparent | resolve/filtermemo.go:138-228 | from empty layers, after every such run, whatever any layer holds for a request is what computing it gives, and never a failure of a context or a Source |
| MemoRuns.AlwaysInOrder | resolve/filtermemo.go:138-228 | each pool's list is in the order of last use after any uses |
| MemoRuns.EvictsLeastRecent | resolve/filtermemo.go:211-228 | what is evicted was used less recently than anything of its kind that stays |

## Left out

- Streamer.Consume: does not model the caps on an object's lines and bytes, lines over the limit (and the dropping state
  that follows them), read errors, Windows-1252 transcoding or the diagnostics they make; input is any text read whole.
- Streamer.Streamer.Line: the same, for its part of the state.
- Expander.ExpandRanges: no limit on depth, sets visited or prefixes; the claim is for runs in which no limit is hit.
- Discovery.Discover: no limit on depth or sets visited, no fetch error but not-found, and sets are fetched one after
  another, not concurrently.
- Discovery.ExpandPrefixRanges: no limits, no fetch error but not-found, and excluded AS numbers are not modelled, only
  excluded sets.
- FilterEval.Evaluator.Run: no limit on depth, visits or ranges.
- Normalize.NormalizeFilter: no limit on conjuncts, depth or visits, and no `Exclude` list of the Expander, which brings a
  second evaluator and polarity rules; fetching a filter-set succeeds or finds nothing, no other error stops the search
  for tests or an inlining (resolve/normalize.go:329-332, 575-578); filter-sets reached through a template of their name are
  not modelled.
- PipeRuns.OwnAnswer: the server is taken to answer in order; framing, sockets, dialing and deadlines are steps that
  succeed or fail.
- RegexpRoundTrip.RoundTripIff, RegexpGrammar.ParsesIff: at the level of tokens; the tokenizer of regexp text, which also
  tells AS numbers, set names and templates apart, is not part of this model.
- PathExact.RejectsExact: AS numbers are natural numbers, so no set without AS-ANY in it has them all.
- MemoTexts.MemoTextInjective: set names, AS numbers and communities are opaque leaves with distinct texts, and quoted
  text is Unicode, not arbitrary bytes.
- Flattener.Flatten: peerings are compared by their text and intersected as the code does, with ANY the only one that
  contains another.
- SpaceRanges.WalkRanges, SpaceExamples.FirstWithWalk, RangePrefixes.Increment: address buffers hold bits, not packed bytes.
- FilterMemoLayers.FilterMemo.KeepOwn: list elements are found by key, not by pointer; locks are the atomic steps of MemoRuns.
- Expansion to AS numbers and to single prefixes (ExpandAS, ExpandPrefixes), inet-rtr and peering-set expansion: the same
  walk with simpler leaves.
- resolve/cache.go, the registry cache in front of a source.
- The text formats of addresses, set names, AS numbers, timestamps and NIC handles.
- Object decoding, dictionaries, validation profiles and diagnostics.
- policy/parse.go, the policy parser and its error recovery.
- auth, and the sessions, ASPA rules and peer listing of resolve/consist.
- The commands, examples and API-surface tooling.
