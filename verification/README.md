# Verified models of rgpot

Dafny models of seven parts of rgpot, with proofs of what those parts promise.
`dafny verify dfyconfig.toml` checks all of them.

**Compiler rewrite over strided tensors** (`SliceCanonicalizer`,
`StridedTensors`, `Strides`). The export script turns strided writes into slice
writes under a list of guards. Graph nodes are objects that the pass overwrites
in place. `as_strided_scatter` is defined by addresses into a flat storage and
`slice_scatter` by logical indices; the main theorem says that no node of any
graph changes its value. It rests on row-major address arithmetic for every
rank. The hypothesis is that the metadata the exporter attaches to a node
describes the tensor the node produces.

**SPMD collectives** (`Spmd`, `MpiHost`, `MpiPefSession`, `SessionEndings`,
`CalculatorSplit`, `PublishedErrors`, `CalculatorBinding`). Section 5.13 of
MPI 3.1 asks all members of a communicator to enter the same collectives in the
same order. Here that rule is the precondition of every collective: a joint method is the
same code on every rank, per-rank variables are sequences indexed by rank, and
each rank computes by itself what it is about to enter. The group split is
that of section 6.4.2 of MPI 3.1. The error exchange, whose gathers are
non-blocking and whose waits can run out, is a state machine over steps of
single ranks, and its theorems speak about every run. `CalculatorBinding` keeps
the two copies of the group that librgpot and librgpot_mpi have.

**Unit expressions** (`UnitTokens`, `ShuntingYard`, `UnitGrammar`,
`UnitExpressions`, `UnitConversion`, `UnitTable`, `BaseUnits`, `RealPowers`,
`IntegerPowers`). The parser is proved against an independent grammar, printing
and parsing are inverse, and dimensional analysis is given its meaning: nothing
depends on the base units. Factors and exponents are real numbers. The power of
a positive base is a parameter with the laws of real exponentiation
(`RealPowers.PowerLaws`); integer powers are repeated products.

**Result cache** (`CacheRecords`, `CachedPotentials`, `JointDecision`,
`FusedCache`). Records are bytes, result slots share force buffers by address.
The cache hypothesis is that inputs in use with equal keys have equal results,
and that a record stored under such a key was written for such an input, by the
writer of whole results or by that of energy and forces alone, or is cut short
(`CachedPotentials.Potential.AddedCoherent`,
`CachedPotentials.Potential.OldRecordCoherent`). Where the cache gives something
else than the plain evaluation is stated exactly: a single call that hits a
record without metadata returns variance 0; a batch that hits one, which only a
potential without `caps().stress` does, leaves variance 0 and no stress; and a
record holds the stress flag as 0 or 1 only
(`CachedPotentials.Potential.CacheAgreesWithPlain`).

**Heap structure and resource life** (`InstanceRegistry`, `CpmdSession`). The
intrusive list of live instances, and the engine session of the CPMD
potential. The engines' side of the latter is a ledger with rules of its own,
which every history of an instance obeys.

**Printer, scanner and contract** (`UmaContract`).

**Version rewriters and readers** (`LineText`, `VersionScan`,
`VersionSurfaces`, `VersionFiles`, `VersionHeader`, `VersionLockstep`,
`VersionForms`). Against Semantic Versioning 2.0.0 the scanner covers items 2
and 9 and has no build metadata (item 10).

`Wrappers`, `Characters`, `Sequences` and `UnitValues` hold shared definitions.
The lemmas that the table below does not name are steps towards those it names.

Where the code does less than its documentation or a first reading suggests:

- A repeated bind with an argument of 0 or less is refused, although
  `CalculatorGroup.hpp` gives such an argument a meaning
  (`CalculatorBinding.Process.BindTwice`).
- A list or map that holds the least 64-bit integer does not survive printing
  and scanning (`UmaContract.ListRoundTrip`).
- Conversion through the empty unit composes only between two names of one unit
  (`UnitConversion.ConversionComposes`, `UnitConversion.EmptyUnitDoesNotCompose`).
- The unit parser accepts texts outside the infix grammar
  (`UnitConversion.EmptyGroupIsIgnored`); which token lists the grammar has, and
  when the parser agrees with it, is `UnitGrammar.SentencesAre` and
  `UnitExpressions.ParserAcceptsSentences`; what it accepts altogether is
  `UnitExpressions.ParserAcceptsExactly`.
- The agreement of a group-collective call sits behind the test for a cache, so
  ranks that differ in having one do not match
  (`JointDecision.CacheOnAllRanksOrNone`).
- The meson and CMake readers see lines the writers do not take
  (`VersionFiles.ReaderOnlyLine`, `VersionFiles.ReaderOnlyFile`), an argument
  with two v is accepted and then lost on the CMake surface
  (`VersionScan.DoubledV`, `VersionSurfaces.CmakeNeedsDigit`), and the
  writers drop carriage returns in front of the line ending of a line they
  replace (`VersionFiles.TailOfStamped`, `VersionHeader.TailOfRewritten`), one at
  the end of a file among them (`VersionFiles.LoneReturnDropped`).

## Model

| member | source | states |
|---|---|---|
| SliceCanonicalizer.CanonicalizeNode | scripts/aoti_graph.py:18-55 | one turn of the pass rewrites the node to the slice write that its guards allow, and leaves target, arguments and keywords alone when any guard fails |
| SliceCanonicalizer.SliceExactlyWhen | scripts/aoti_graph.py:38-52 | the guards let a write through, with this axis, start and end, exactly when it is the slice of a contiguous base along one axis that it does not cover |
| SliceCanonicalizer.RewrittenExactlyWhen | scripts/aoti_graph.py:18-55 | a node becomes slice_scatter with this axis, start and end exactly when it is a strided write to a node of known integer shape and strides, its size, stride and offset are known, the offset being the fifth argument, else the keyword, else the base's own, and they select that slice; no other node is changed |
| SliceCanonicalizer.NodePreserved | scripts/aoti_graph.py:9-55 | a rewritten node computes the value it computed before, for every environment and every value of the symbolic sizes in which its metadata describes the tensors, failures included |
| SliceCanonicalizer.PassPreservesMeaning | scripts/aoti_graph.py:9-55 | for a node list of any length, every node has the same value before and after the pass |
| SliceCanonicalizer.CanonicalizeStridedSlices | scripts/aoti_graph.py:18-55 | the in-place loop rewrites each node by itself and keeps the results of the whole graph in every execution |
| StridedTensors.StridedWriteIsSliceWrite | scripts/aoti_graph.py:11-13 | under the guards, writing through addresses and writing by logical slice give the same tensor on every source, or fail together, for every rank |
| StridedTensors.SliceWriteReadsBack | scripts/aoti_graph.py:13 | after a slice write, indices in the slice read the source and all other indices read the base as before |
| StridedTensors.AddressInjective | scripts/aoti_graph.py:38 | two in-range indices of a contiguous tensor with one address are equal, also where strides of extent-one axes are arbitrary |
| StridedTensors.ContiguousMeans | scripts/aoti_graph.py:38 | the contiguity test holds exactly when every in-range index has its row-major address |
| StridedTensors.PositionsOfSlice | scripts/aoti_graph.py:13 | start and end of a slice are clamped to the axis, and negative ones count from its end |
| StridedTensors.OffsetGuardNeeded | scripts/aoti_graph.py:38 | an input on which the two writes differ: a base that does not start at the front of its storage, which the guards exclude |
| Strides.ComputeRowMajorStrides | rgpot-core/src/tensor.rs:26-36 | the backward loop leaves in each entry the product of the later extents |
| Strides.RowMajorIsProducts | rgpot-core/src/tensor.rs:26-36 | the recursive and the product form of the strides agree, for every rank |
| Strides.OffsetBounds | rgpot-core/src/tensor.rs:26-36 | the offset of an in-range index lies below the product of the shape |
| Strides.OffsetOfUnravel | rgpot-core/src/tensor.rs:26-36 | every position below the product is the offset of an in-range index |
| Strides.UnravelOfOffset | rgpot-core/src/tensor.rs:26-36 | and of one only, so index to offset is a bijection for every positive shape |
| MpiHost.Collective | CppCore/tools/MpiHost.hpp:58-80 | every rank leaves with the error of the lowest failing rank, cut to its buffer, or none does; all enter the same reduction and, on failure, the same broadcast |
| MpiHost.Agreed | CppCore/tools/MpiHost.hpp:70-79 | which error that is: the lowest rank that failed, with its own text, and none exactly when no rank failed |
| MpiHost.BroadcastVector | CppCore/tools/MpiHost.hpp:82-102 | a vector of any size arrives on every rank, or every rank gets the same allocation error before any payload moves; the transfers are matched on all ranks |
| Spmd.ChunkedBroadcast | CppCore/rgpot/CalculatorGroupMpi.cc:47-59 | the chunk loops of all ranks enter the same broadcasts, and every buffer ends as the root's |
| Spmd.ChunksCoverTheBuffer | CppCore/tools/MpiHost.hpp:93-101 | the chunk sizes add up to the whole buffer, each between 1 and INT_MAX and all but the last INT_MAX |
| MpiPefSession.CalculateReceived | CppCore/tools/MpiPefSession.hpp:103-126 | from unequal inputs on root and workers, all ranks enter the same collectives, receive root's payload and end alike, under any failures of allocation, validation and evaluation |
| MpiPefSession.ConfigureReceived | CppCore/tools/MpiPefSession.hpp:128-145 | the same for a configuration message |
| MpiPefSession.Session.Handle | CppCore/tools/MpiPefSession.hpp:45-98 | one request on root and one turn of the worker loop: a request refused on root leaves no trace, any other reaches every rank |
| MpiPefSession.Session.Destroy | CppCore/tools/MpiPefSession.hpp:35-80 | destruction sends one Stop, which every worker takes as its last command |
| MpiPefSession.Session.Run | CppCore/tools/MpiPefSession.hpp:35-145 | for any number of ranks, requests and failures, then destruction: all collectives are matched, and commands, payloads and endings are the same on every rank in the same order, with one Stop |
| MpiPefSession.NoStopBeforeTheEnd | CppCore/tools/MpiPefSession.hpp:57-69 | no request sends Stop, and there is one command and one ending for each request not refused on root |
| MpiPefSession.EveryPayloadInOrder | CppCore/tools/MpiPefSession.hpp:103-145 | what the ranks receive is root's payloads in order, without refused requests and failed transfers |
| MpiPefSession.EffectDelivers | CppCore/tools/MpiPefSession.hpp:106-129 | a payload is delivered exactly when no rank fails to allocate any of its vectors, and it is root's |
| SessionEndings.RequestEnds | CppCore/tools/MpiPefSession.hpp:45-145 | for any request, number of ranks and failures: one that root refuses leaves no trace; any other ends with the error of the lowest rank that fails in the first stage with a failure, in the words of that failure, and finished when no stage fails, after its own command and with the payload delivered exactly when every rank has memory for it |
| SessionEndings.FinishedExactlyWhen | CppCore/tools/MpiPefSession.hpp:103-145 | a force request ends well exactly when every rank has memory for its vectors, the engine of every rank is available, the atom count is in range and no rank throws; a configuration exactly when every rank has memory and applies it |
| CalculatorSplit.RankToPairAndBack | CppCore/rgpot/CalculatorGroupMpi.cc:72-83 | a valid split sends each rank to a pair of index and rank in group within bounds, from which the rank is recovered |
| CalculatorSplit.PairToRankAndBack | CppCore/rgpot/CalculatorGroupMpi.cc:72-83 | and each pair within bounds comes from exactly that rank |
| CalculatorSplit.SplitExactlyWhen | CppCore/rgpot/CalculatorGroupMpi.cc:60-86 | a world is split exactly when the ranks asked for fill it a whole number of times, or none are asked for, which means all; then every group has that many, and the count of calculators is that number of times |
| CalculatorSplit.RootIsFirstOfOwner | CppCore/rgpot/CalculatorGroupMpi.cc:48 | the broadcast root owner times ranks is in the world and is rank 0 of group owner |
| CalculatorSplit.Share | CppCore/rgpot/CalculatorGroupMpi.cc:108-180 | on a world bound with one group size every rank is turned away, or every rank ends with the owner's bytes over the same transfers, or every rank aborts; which one depends on whether all ranks can take part and agree |
| CalculatorSplit.AgreeExactlyWhen | CppCore/rgpot/CalculatorGroupMpi.cc:127-165 | the ranks of a split world agree exactly when all give one owner and one byte count within 63 bits, the owner is one of the calculators, and no rank with bytes lacks a buffer |
| CalculatorSplit.ShareAlone | CppCore/rgpot/CalculatorGroupMpi.cc:117-125 | a process alone in its world keeps its bytes when the request makes sense for its one group, and is turned down otherwise |
| CalculatorSplit.Agree | CppCore/rgpot/CalculatorGroupMpi.cc:214-234 | flags of any common length become the logical AND over the ranks of the calculator, by the same chunked reductions on every rank; a calculator of one rank keeps its flags |
| CalculatorSplit.SameCallsSameCount | CppCore/rgpot/CalculatorGroupMpi.cc:224-232 | ranks enter the same reductions exactly when they pass equally many flags |
| PublishedErrors.NoReturnWithAMessage | CppCore/rgpot/CalculatorGroupMpi.cc:265-341 | in every run of single-rank steps, no rank returns when some rank of its calculator passed a non-empty message |
| PublishedErrors.AbortHasACause | CppCore/rgpot/CalculatorGroupMpi.cc:265-341 | the world is aborted only if some message is non-empty or MPI refused a post |
| PublishedErrors.LinesAreMessages | CppCore/rgpot/CalculatorGroupMpi.cc:250-338 | in every run each printed line carries the world rank of a rank with a message and the beginning of its text, up to a zero byte and at most 512 characters when the report prints it |
| PublishedErrors.ReportHasAll | CppCore/rgpot/CalculatorGroupMpi.cc:330-338 | and the report of a completed exchange leaves no message out |
| PublishedErrors.ReportInOrder | CppCore/rgpot/CalculatorGroupMpi.cc:330-338 | its lines are in the order of the ranks, at most one for each |
| PublishedErrors.LastStepPrints | CppCore/rgpot/CalculatorGroupMpi.cc:250-338 | what is printed when the world goes down: the whole report at the end of an exchange, else the message of the rank that stops waiting, uncut up to a zero byte |
| PublishedErrors.EveryRunEnds | CppCore/rgpot/CalculatorGroupMpi.cc:265-341 | runs are at most three steps per rank long, and one that cannot go on has aborted, or all ranks have returned and no message was passed |
| PublishedErrors.NeverStuck | CppCore/rgpot/CalculatorGroupMpi.cc:288-328 | until the end some rank can go on without a wait running out and without a failure |
| PublishedErrors.MessageHolderCanAlwaysLeave | CppCore/rgpot/CalculatorGroupMpi.cc:293-328 | a rank with a message never depends on its peers to get out |
| PublishedErrors.PostsThatCanFail | CppCore/rgpot/CalculatorGroupMpi.cc:265-322 | at any point of any run, the posts MPI can refuse are the first one of a rank that has not entered, and the second one once all ranks are in and some rank has a message |
| PublishedErrors.AllBlocksPosted | CppCore/rgpot/CalculatorGroupMpi.cc:311-328 | when the second gather completes, every rank has posted its own padded text, so the buffer holds what the printing loop reads |
| PublishedErrors.PrintReport | CppCore/rgpot/CalculatorGroupMpi.cc:330-338 | the loop over the receive buffer prints one line for each non-empty message, cut to 512 characters, under its sender's world rank |
| PublishedErrors.LinesNameTheSender | CppCore/rgpot/CalculatorGroupMpi.cc:280-336 | the printed rank is a world rank, and the split puts it at the sender's place in the calculator |
| CalculatorBinding.Process.Hook | CppCore/rgpot/CalculatorGroup.cc:122-131 | a hook is registered once by address, null never |
| CalculatorBinding.Process.Adopter | CppCore/rgpot/CalculatorGroup.cc:133-149 | an adopter is registered unless null, known or refused; after the bind it is called at once, and any answer but the group's index refuses the group |
| CalculatorBinding.Process.BindCalculators | CppCore/rgpot/CalculatorGroup.cc:151-202 | the first bind calls every hook and then every adopter whatever the hooks answer, and keeps the index exactly when every hook and adopter answers with it; a later bind changes nothing and gives the group for the stored count only |
| CalculatorBinding.Process.Run | CppCore/rgpot/CalculatorGroup.cc:122-202 | over any sequence of registrations and binds the invariant holds, a refusal is never cleared, the group changes only by its index, and calls into callbacks are only added |
| CalculatorBinding.EachCallbackOnce | CppCore/rgpot/CalculatorGroup.cc:185-198 | in every reachable bound state a hook has been called once if it was there at the bind and never otherwise, and an adopter once if it is registered and librgpot_mpi has a communicator, and never otherwise |
| CalculatorBinding.Process.BindTwice | CppCore/rgpot/CalculatorGroup.cc:154-160 | binding again with the first argument gives the group exactly for a positive argument; a repeat of an argument of 0 or less is refused, because the effective count is stored |
| CalculatorBinding.AdoptersEnterTogether | CppCore/rgpot/CalculatorGroup.cc:191-198 | ranks bound alike with the same adopters have called the same adopters in the same order, whether or not hooks refused on some of them |
| UnitTokens.Tokenize | CppCore/rgpot/units.cc:233-282 | the loop yields a canonical token list whose text is the input without its spaces |
| UnitTokens.TokensMeaning | CppCore/rgpot/units.cc:233-282 | the scanner drops nothing but spaces and cuts values as long as possible |
| UnitTokens.CanonicalUnique | CppCore/rgpot/units.cc:233-282 | that determines the token list: two canonical lists with one text are equal |
| ShuntingYard.Shunt | CppCore/rgpot/units.cc:286-335 | for every token list: an error exactly on unbalanced parentheses, else the operands in order and each operator as often as before |
| UnitGrammar.PostfixOfSentence | CppCore/rgpot/units.cc:286-335 | every sentence of the grammar becomes its own tree in reverse Polish notation |
| UnitGrammar.Unambiguous | CppCore/rgpot/units.cc:186-231 | one token list has one tree in the grammar |
| UnitGrammar.SentencesAre | CppCore/rgpot/units.cc:186-335 | the sentences of the grammar are exactly the token lists with balanced parentheses in which operands and operators take turns, an operand first and last |
| UnitExpressions.TokenStream.ReadExpr | CppCore/rgpot/units.cc:427-476 | the method that pops a shared stream reads the expression at its end and leaves the rest |
| UnitExpressions.ReadReversePolish | CppCore/rgpot/units.cc:427-476 | reading the reverse Polish form of a tree behind any prefix gives the tree with its names resolved and leaves the prefix |
| UnitExpressions.ParserMeetsGrammar | CppCore/rgpot/units.cc:286-497 | every sentence of the grammar parses to exactly its tree with nothing left over |
| UnitExpressions.MeaningFailsOnlyOnUnknown | CppCore/rgpot/units.cc:435-449 | and the only failure is a name in it that resolves to nothing |
| UnitExpressions.ParserAcceptsSentences | CppCore/rgpot/units.cc:286-497 | for every token list: among those in which operands and operators take turns the parser accepts exactly the sentences whose names resolve, and any other list it accepts is no sentence |
| UnitExpressions.ParserAcceptsExactly | CppCore/rgpot/units.cc:286-497 | for every token list, inside the grammar or not: it is accepted exactly when the yard makes the reverse Polish form of some tree with resolvable names of it, and it is read as that tree |
| UnitExpressions.PrintParseRoundTrip | CppCore/rgpot/units.cc:233-476 | tokenizing, shunting and reading the printed form of a tree with readable leaf names gives the tree back |
| UnitConversion.ParseUnit | CppCore/rgpot/units.cc:478-497 | the whole parser as one method, errors included |
| UnitConversion.EvalMeaning | CppCore/rgpot/units.cc:380-424 | a product multiplies factors and adds dimensions, a quotient times its divisor is its dividend, and a power of exponent p / q, fractions included, has the p-th power of the base as its q-th power and is positive for a positive base |
| UnitConversion.FailsExactlyWhen | CppCore/rgpot/units.cc:380-424 | an operation on two values fails exactly for a division by zero, an exponent with a dimension, a negative power of zero or a fractional power of a negative number |
| UnitConversion.ConversionMeaning | CppCore/rgpot/units.cc:510-523 | there is an answer exactly for two readable units of equal dimension, it is finite exactly for a non-zero target, and then the factor times the target unit is the source unit |
| UnitTable.NumeralIsNumber | CppCore/rgpot/units.cc:435-449 | a name that the table does not hold in lower case is the number that the number reader makes of it, without a dimension |
| UnitTable.NumberOfUnits | CppCore/rgpot/units.cc:427-523 | a numeral times a unit converts to that unit by the value of the numeral, with any spaces around the operator |
| UnitTable.WholePowerOfUnit | CppCore/rgpot/units.cc:396-497 | a unit to the power of a numeral for a whole number is that many units multiplied, or undoes them; it fails exactly for a negative power of zero |
| UnitTable.CaseDoesNotMatter | CppCore/rgpot/units.cc:435-441 | texts that differ from a name of the table only in the case of ASCII letters are that unit |
| UnitTable.BlankIsOne | CppCore/rgpot/units.cc:478-485 | a text of white space alone is the number one |
| BaseUnits.EvalRescaled | CppCore/rgpot/units.cc:380-424 | a change of base units multiplies the factor of every evaluation by the power product of its dimension, leaves the dimension alone and keeps every error |
| BaseUnits.ParseRescaled | CppCore/rgpot/units.cc:478-497 | the same for texts, with the unit table rescaled accordingly |
| BaseUnits.LookupRescaled | CppCore/rgpot/units.cc:126-449 | rescaling the table rescales every name it holds and leaves numbers alone |
| BaseUnits.ConversionIndependentOfBaseUnits | CppCore/rgpot/units.cc:510-523 | a conversion factor, or its error, does not depend on the base units the table is written in |
| UnitConversion.EmptyGroupIsIgnored | CppCore/rgpot/units.cc:233-497 | a text outside the grammar that is read all the same: a name followed by an empty pair of parentheses is the unit of that name |
| UnitConversion.ConversionComposes | CppCore/rgpot/units.cc:510-523 | a to b and b to c is a to c for non-empty units; with one of them empty, exactly when the other two name one unit that is not zero, or one of these is empty as well |
| UnitConversion.EmptyUnitDoesNotCompose | CppCore/rgpot/units.cc:512-513 | an input on which conversion through the empty unit does not compose |
| CacheRecords.Serialize | CppCore/rgpot/PotentialCache.cc:62-81 | the copies into the zeroed buffer lay out a record field by field |
| CacheRecords.WrittenAsLaidOut | CppCore/rgpot/PotentialCache.cc:62-81 | energy, forces, the marker RGPOTR1 and its zero, variance, stress and flag stand at their byte positions in a written record of any size |
| CacheRecords.DecodesExactly | CppCore/rgpot/PotentialCache.cc:33-60 | what any bytes are read as: nothing when too short for energy and forces, the one result they lay out when they are a record with metadata, else energy and forces alone |
| CacheRecords.RecordRoundTrip | CppCore/rgpot/PotentialCache.cc:33-81 | for every atom count, reading a written record restores energy, forces and variance, and stress with its flag made 0 or 1 |
| CacheRecords.LegacyNeverMetadata | CppCore/rgpot/PotentialCache.cc:33-40 | a record of whole words is never taken to carry metadata, whatever it holds |
| CacheRecords.LegacyDecodes | CppCore/rgpot/PotentialCache.cc:42-60 | an old record decodes to its prefix with zero variance and no stress, or is refused when too short |
| CachedPotentials.Potential.Evaluate | CppCore/rgpot/Potential.hpp:167-225 | for a cached call with a record under its key, on all ranks of a group-collective potential, the kernel is not run and not counted, and energy and forces are the kernel's, the variance too unless the record carries none; a record cut short is an exception; in every other case the kernel is run once, counted, and its result written to the database |
| CachedPotentials.Potential.EvaluateTwice | CppCore/rgpot/Potential.hpp:167-225 | the same call again runs no kernel, counts no call and answers the same |
| CachedPotentials.Potential.ForceBatchImpl | CppCore/rgpot/Potential.hpp:249-253 | the default loop stores each system's result in its own slot and buffer, in order, and touches nothing else |
| CachedPotentials.Potential.ServeHits | CppCore/rgpot/Potential.hpp:305-312 | hits are written from their records, misses are listed in order and left alone, and the first hit whose record is cut short ends the loop |
| CachedPotentials.Potential.StoreMisses | CppCore/rgpot/Potential.hpp:332-340 | computed slots go back to their systems, each is counted and cached |
| CachedPotentials.Potential.ForceBatch | CppCore/rgpot/Potential.hpp:264-348 | every slot ends with the result of its system, forces through the shared buffers included; the kernel gets, in order, exactly the systems without a record, without metadata where the potential reports stress, or that a peer of a group-collective potential lacks; the counter grows by their number, and the cache stays coherent; a record cut short ends the call before the kernel, and which slots then hold what is stated |
| CachedPotentials.Potential.SecondBatchIsFree | CppCore/rgpot/Potential.hpp:264-348 | after a batch on an open database, the same batch has no system for the kernel and no record cut short |
| CachedPotentials.Potential.BatchTwice | CppCore/rgpot/Potential.hpp:264-348 | so the second of two calls does not throw, runs no kernel and counts no call |
| CachedPotentials.Potential.AddedCoherent | CppCore/rgpot/Potential.hpp:213-339 | writing back a kernel result keeps every record right for every input that shares its key |
| CachedPotentials.Potential.OldRecordCoherent | CppCore/rgpot/PotentialCache.cc:42-178 | a record of the writer of energy and forces alone keeps the cache right; the batch takes it as a hit exactly without caps().stress, and the hit then has variance 0 and no stress |
| CachedPotentials.Potential.CacheAgreesWithPlain | CppCore/rgpot/Potential.hpp:264-348 | the batch through the cache gives what the plain loop gives exactly on misses, on results a record with metadata can hold, and, for a record without, on results that have no variance and no stress |
| CachedPotentials.NormalForm | CppCore/rgpot/PotentialCache.cc:74-78 | those results are the ones with flag 1, or with flag 0 and no stress |
| JointDecision.SameMissesOnEveryRank | CppCore/rgpot/Potential.hpp:290-312 | after the agreement every rank lists the same misses: the systems that some rank misses |
| JointDecision.AgreeOnBatch | CppCore/rgpot/Potential.hpp:274-312 | each rank with a cache brings the flags of its own, arbitrarily different from the others; when all ranks have one or none has, all go through the same chunked reductions, and every rank learns of each system whether some rank misses it and is left with the same misses |
| JointDecision.AgreeOnCall | CppCore/rgpot/Potential.hpp:194-208 | the same for a single call: all ranks skip the kernel or all enter it, and skip exactly when every rank has a record |
| JointDecision.CacheOnAllRanksOrNone | CppCore/rgpot/Potential.hpp:194-303 | the ranks of a calculator enter the same agreement, for any number of systems, exactly when all have a cache configured or none has; otherwise its first turn is already unmatched |
| JointDecision.JointBatch | CppCore/rgpot/Potential.hpp:264-348 | after the agreement the kernel of every rank is given the same systems, those that some rank misses, and every slot ends with the result of its system, served exactly when no rank misses it; a rank that finds a record cut short leaves before the kernel |
| InstanceRegistry.Registry.Construct | CppCore/rgpot/PotHelpers.hpp:42-50 | a new instance becomes the head of a well-formed list |
| InstanceRegistry.Registry.CopyConstruct | CppCore/rgpot/PotHelpers.hpp:56-64 | a copy gets a place of its own and not its origin's links |
| InstanceRegistry.Registry.Destruct | CppCore/rgpot/PotHelpers.hpp:69-80 | a destroyed instance leaves from any place, and the others stay linked in order |
| InstanceRegistry.Registry.Walk | CppCore/rgpot/PotHelpers.hpp:31-36 | following next from head ends and visits each live instance once, as many as the counter says |
| InstanceRegistry.Registry.Run | CppCore/rgpot/PotHelpers.hpp:42-80 | after any constructions, copies and destructions in any order the list holds exactly the live instances, newest first |
| InstanceRegistry.LinksAreInverse | CppCore/rgpot/PotHelpers.hpp:35-36 | prev and next are inverse to each other on the list |
| CpmdSession.CpmdPot.constructor | CppCore/rgpot/CPMDPot/CPMDPot.cc:425-442 | construction opens the first library that opens, makes a session exactly when the library is usable, accepted, has sessions and gives one, does nothing else to an engine, and obeys the ledger |
| CpmdSession.CpmdPot.TryLoad | CppCore/rgpot/CPMDPot/CPMDPot.cc:115-195 | loading opens the first library that opens, and counts as loaded only with feature discovery and one of the two calculation interfaces |
| CpmdSession.FirstThatOpens | CppCore/rgpot/CPMDPot/CPMDPot.cc:115-195 | the library opened is that of the first path that opens any, and none exactly when no path does |
| CpmdSession.CpmdPot.Configure | CppCore/rgpot/CPMDPot/CPMDPot.cc:398-423 | a session for unchanged parameters and path is kept without an engine call; otherwise it is destroyed first and a new one is made for the current parameters exactly when the engine is accepted, has sessions and gives one; the answer says whether the engine can be used |
| CpmdSession.CpmdPot.SetParams | CppCore/rgpot/CPMDPot/CPMDPot.cc:467-494 | a live session survives exactly an unchanged and accepted configuration, without an engine call; else its engine destroys it, another path or a failed load replaces the library, and a session for the new parameters is made where there are sessions; all engine calls, the session and the answer are stated |
| CpmdSession.CpmdPot.Force | CppCore/rgpot/CPMDPot/CPMDPot.cc:598-691 | an accepted force names the orbital key and calculates through the session of the current parameters when the engine has sessions, and calls the engine once otherwise; it ends without an exception exactly when every answer of the engine allows it |
| CpmdSession.CpmdPot.ForceSession | CppCore/rgpot/CPMDPot/CPMDPot.cc:647-670 | the calls of a force through a session, in order, with an early end when the engine does not size the input or refuses the key |
| CpmdSession.CpmdPot.Close | CppCore/rgpot/CPMDPot/CPMDPot.cc:460-465 | destruction leaves no session and no library open |
| CpmdSession.OneSessionAtMost | CppCore/rgpot/CPMDPot/CPMDPot.cc:390-423 | in every state of every run, sessions created minus destroyed is 1 when the instance holds a session and 0 otherwise |
| CpmdSession.DestroyedByItsCreator | CppCore/rgpot/CPMDPot/CPMDPot.cc:390-486 | a destroyed session was created by the same engine, was not destroyed before, and its library stayed open in between |
| CpmdSession.LedgerBalances | CppCore/rgpot/CPMDPot/CPMDPot.cc:390-423 | in a history that obeys the rules the sessions created and not destroyed are the live ones |
| CpmdSession.Life | CppCore/rgpot/CPMDPot/CPMDPot.cc:425-494 | a whole life of an instance obeys the rules and destroys as many sessions as it creates |
| UmaContract.Integers | CppCore/rgpot/UmaPot/UmaContract.hpp:73-91 | the index-driven scan finds the signed integers of a text in order, or leaves the 64-bit range |
| UmaContract.ScanMeaning | CppCore/rgpot/UmaPot/UmaContract.hpp:71-91 | in any text the scan finds the maximal runs of digits in order, negative behind a minus sign, or stops at one beyond the 64-bit range |
| UmaContract.StrList | CppCore/rgpot/UmaPot/UmaContract.hpp:133-138 | the appending loop prints a list |
| UmaContract.StrMap | CppCore/rgpot/UmaPot/UmaContract.hpp:140-148 | the appending loop prints a map |
| UmaContract.PrintedForms | CppCore/rgpot/UmaPot/UmaContract.hpp:133-148 | brackets, braces and separators of the printed forms |
| UmaContract.ListRoundTrip | CppCore/rgpot/UmaPot/UmaContract.hpp:73-138 | scanning a printed list gives it back exactly when it does not hold the least 64-bit integer, whose digits overflow |
| UmaContract.MapRoundTrip | CppCore/rgpot/UmaPot/UmaContract.hpp:120-148 | a printed map reads back as itself, unless it holds the least integer |
| UmaContract.MetadataRoundTrip | CppCore/rgpot/UmaPot/UmaContract.hpp:93-131 | reading the metadata written for a contract gives the contract, exactly when no field holds the least integer |
| UmaContract.ReadExactlyWhen | CppCore/rgpot/UmaPot/UmaContract.hpp:93-131 | any metadata is a contract exactly when each of its five entries can be read; else the first that cannot, in the order of reading, is what reading ends with |
| UmaContract.AcceptedMetadata | CppCore/rgpot/UmaPot/UmaContract.hpp:93-131 | an accepted contract holds, for each entry present, its one integer, its sorted integers, or its pairs with the last value of each key |
| UmaContract.ReadPairs | CppCore/rgpot/UmaPot/UmaContract.hpp:120-128 | an even list becomes a map in which a later pair replaces an earlier one; an odd list is refused |
| UmaContract.CheckSystem | CppCore/rgpot/UmaPot/UmaContract.hpp:163-182 | a system is accepted exactly when atom count, histogram and sorted elements match the fields present; else the first mismatch is named |
| UmaContract.OrderDoesNotMatter | CppCore/rgpot/UmaPot/UmaContract.hpp:163-182 | the verdict is the same for every order of the atoms |
| FusedCache.Objective.EvalStore | rgpot-core/src/eindir.rs:157-169 | the locked region after an energy callback replaces the cached evaluation, or clears it |
| FusedCache.Objective.GradTake | rgpot-core/src/eindir.rs:181-194 | the cached evaluation is taken out, and used exactly at equal positions; it then is the answer without a cache, opposite to the cached force entry by entry |
| FusedCache.Objective.GradCall | rgpot-core/src/eindir.rs:195-233 | on success with forces, one callback is made and each entry of the gradient and of the force add up to zero; without forces, or on failure, there is no gradient; every tensor made is freed |
| FusedCache.Objective.EvalThenGrad | rgpot-core/src/eindir.rs:112-234 | an energy and then a gradient request at the same positions make one callback in all, exactly when it gave forces |
| FusedCache.Interleave | rgpot-core/src/eindir.rs:112-234 | requests with their locked regions in any order all answer as without a cache, each gradient opposite to the callback's force, and are answered when scheduled twice; each makes at most one callback, no tensor is left behind, and which gradients come from the cache is stated for every order |
| VersionScan.SemverOk | potctl/src/lockstep.rs:27-74 | the scanner accepts exactly an optional v or V, three dotted digit runs, and an optional dash with a non-empty tail |
| VersionScan.AcceptsMeans | potctl/src/lockstep.rs:41-73 | the branch for a tail that starts with a dot is never taken |
| VersionScan.DoubledV | potctl/src/lockstep.rs:27-388 | an argument with two v is accepted by sync and written with one |
| VersionForms.TakesExactlyWhen | potctl/src/lockstep.rs:300-359 | the lines the writers take, spelled out for the meson, CMake and TOML surface |
| VersionForms.TableNames | potctl/src/lockstep.rs:163-173 | which table a header names, in single and double brackets and with white space around |
| VersionForms.TableNameExactlyWhen | potctl/src/lockstep.rs:163-173 | a line names a table exactly when, trimmed, it is the name in single or double brackets, white space inside the brackets aside |
| VersionForms.TableFile | potctl/src/lockstep.rs:163-382 | a file of one table is read and written exactly when the table is the one looked for |
| VersionForms.MacroLine | potctl/src/lockstep.rs:236-267 | the line of each of the four macros, before and after, spelled out |
| VersionForms.IndentedMacro | potctl/src/lockstep.rs:218-267 | white space in front of a macro is dropped by the writer and passed over by the reader |
| VersionForms.MacroNumbers | potctl/src/lockstep.rs:236-242 | the macros get the text before the first dot, between the dots, behind them, and the whole version in quotes |
| VersionForms.EachInItsForm | potctl/src/lockstep.rs:123-428 | each of the seven files, written out, reads back its version, and is rewritten to the same text with the new version in place of the old |
| VersionSurfaces.StampedLine | potctl/src/lockstep.rs:300-341 | the reader finds the version on a written line, the writer takes the line again, and a second stamp is as if put on the old line |
| VersionSurfaces.OwnFormStays | potctl/src/lockstep.rs:300-359 | a line in the form of the repository's own files is taken, and its own version leaves it to the byte |
| VersionSurfaces.CmakeNeedsDigit | potctl/src/lockstep.rs:135-341 | on the CMake surface the version is read back exactly when it starts with a digit |
| VersionSurfaces.TomlReaderIsWriter | potctl/src/lockstep.rs:148-359 | the TOML reader looks at no line the writer would not take |
| VersionFiles.ReplaceFirst | potctl/src/lockstep.rs:300-359 | the writer loop replaces the first line it takes and copies the others |
| VersionFiles.OneLineChanges | potctl/src/lockstep.rs:300-359 | all other lines are kept to the byte, and the changed one keeps its line ending |
| VersionFiles.ReadsBackExactlyWhen | potctl/src/lockstep.rs:123-359 | reading after writing gives the version exactly when the writer has a line and no earlier line that only the reader takes says otherwise |
| VersionFiles.ReaderOnlyLine | potctl/src/lockstep.rs:124-325 | such lines exist on the meson and the CMake surface: a key behind a vertical tab, form feed or carriage return |
| VersionFiles.ReaderOnlyFile | potctl/src/lockstep.rs:123-341 | in a file with such a line first, the writer changes its own line and the reader goes on finding the old version |
| VersionFiles.TailOfStamped | potctl/src/lockstep.rs:93-382 | a replaced line keeps its line ending and loses every carriage return in front of it: what trimming cuts off is kept exactly when it is a line ending |
| VersionFiles.TailParts | potctl/src/lockstep.rs:93-382 | what is lost in front of the ending of a line is carriage returns only |
| VersionFiles.LoneReturnDropped | potctl/src/lockstep.rs:93-359 | one such line: a carriage return without a line feed at the end of a file |
| VersionFiles.TomlReadsBack | potctl/src/lockstep.rs:148-359 | on the TOML surface any line of the writer's is enough |
| VersionFiles.SecondWriteOverwrites | potctl/src/lockstep.rs:300-359 | a second version overwrites the first as if written alone |
| VersionFiles.ReplaceSection | potctl/src/lockstep.rs:361-382 | the writer loop replaces the first version line of the named table |
| VersionFiles.SectionReadsBack | potctl/src/lockstep.rs:175-382 | the table reads back the version exactly when it has a line for one, and a second version overwrites the first |
| VersionFiles.SectionKeepsOthers | potctl/src/lockstep.rs:361-382 | at most one line changes, and that one carried a version |
| VersionHeader.PartsOfVersion | potctl/src/lockstep.rs:236-241 | the three macros get the three numbers of the version |
| VersionHeader.RewrittenLine | potctl/src/lockstep.rs:243-267 | a rewritten line defines the same macro with its old ending, and rewriting again is as if done once |
| VersionHeader.TailOfRewritten | potctl/src/lockstep.rs:93-267 | a rewritten macro line loses the carriage returns in front of its ending in the same way |
| VersionHeader.HeaderReadsBack | potctl/src/lockstep.rs:218-270 | the header reads back the version exactly when it defines the full macro, and a second version overwrites the first |
| VersionLockstep.FileReadsBack | potctl/src/lockstep.rs:123-382 | the exact condition under which each of the seven files reads back the version written to it |
| VersionLockstep.Root.SyncVersions | potctl/src/lockstep.rs:384-428 | a refused version changes no file; an accepted one is written to every file there is, and to each in its own way |
| VersionLockstep.Root.AssertLockstep | potctl/src/lockstep.rs:431-475 | accepts exactly when the six files have versions that all agree with each other, with the header if there is one, and with the expected version |
| VersionLockstep.Root.SyncThenAssert | potctl/src/lockstep.rs:384-475 | for every argument, syncing and then asserting it succeeds exactly when the version begins with a digit once one v is taken off, the six files exist and every file has a place for the version |
| VersionLockstep.SyncTwice | potctl/src/lockstep.rs:384-428 | syncing twice is syncing the second version |

## Left out

- Floating point: rounding, overflow and `isfinite` checks, NaN and signed zero; factors and forces are real numbers, and cache words are raw bytes.
- UnitConversion.ConversionMeaning: a quotient by zero is one non-finite value, without its sign.
- The 1e-10 tolerance of dimension comparison, which is equality here.
- BaseUnits.LookupRescaled: the entries of the unit table are not part of this model; the table is any map, the number reader any function.
- Strides.ComputeRowMajorStrides: does not model 64-bit wrap-around of the products; extents are unbounded integers.
- `run_decompositions`, `lint`, `recompile` and `validate` around the graph pass, and operators other than the two scatters, which are arbitrary functions of their operands.
- MPI itself: a collective delivers what section 5 of MPI 3.1 says; failures reported by `MPI_Allgather`, `MPI_Bcast` and `MPI_Allreduce` are not part of this model.
- Collectives inside an engine's force call, and what the engines compute.
- The error message of a process that is not bound or was refused a calculator, which is printed by that process alone.
- Messages of 2^31 characters and more in the error exchange, and the order in which several aborting ranks print.
- The finalizer at process exit, and `abortMpiAtExit`.
- Cap'n Proto encoding, `dlopen` searches, environment variables, RocksDB and its errors: parameters or maps.
- `cacheKey` and the FNV hash of parameters: equal keys are assumed to mean equal results, and force buffers of one batch are assumed not to overlap.
- JointDecision.JointBatch: the ranks are processes with memories of their own, so the batch is followed on one of them, which may be any.
- Concurrent use of one potential or of the cache; the instance list is documented as single-threaded.
- Copy assignment of registry objects, which copies the links.
- CpmdSession.CpmdPot.Configure: an exception out of the adopter registration is not modelled; the registration answers yes or no.
- CpmdSession.CpmdPot.Force: the numbers in the engine's result and their conversion are not modelled; that a result is usable is one answer of the engine.
- The handle that keeps a registered adopter's library loaded; the ledger follows the handle of the instance.
- Error texts: which error arises is modelled, its wording is not, except for the host errors and published messages that travel between ranks.
- `UmaContract::checkConfig`: comparisons of single fields.
- FusedCache.Interleave: positions are compared as real numbers, so a negative zero equal to a positive one is not distinguished.
- VersionFiles.ReplaceFirst: white space is ASCII white space; Unicode spaces are not part of this model, and the writers for meson.build, CMakeLists.txt and the TOML files share one loop.
- Reading and writing files, their errors, and the changelog check of `assert_lockstep`.
- Pair potentials, expression potentials, molecular frames, bindings, and the scripts around them: thin wrappers or short identities.
