# Witness: a verified model

Witness is a stake-weighted king-of-the-hill protocol for audio-visual models. Evaluators
measure challengers privately, publish compact commitments on chain, and every follower
replays the finalized blocks to the same decision. This project models the parts of
`witness/benchmark` on which that agreement and the miners' fair treatment rest, and proves
what the code and its documentation promise about them.

The project follows the program's files:

- `Stopping` is the futility look after three videos, with its finite-population guarantee.
- `Wire` is the result commitment and `Layout` says what its bytes and characters stand for;
  `Decide` folds rows into a decision; `Consensus` proves what the decision guarantees.
- `Verdict`, `Majority` and `Splitting` say what the decision means: whose first results count,
  which challenger the stakes prefer, and that splitting a stake changes nothing.
- `Spans`, `Sums`, `Rationals`, `Credit`, `Chains`, `Forest`, `EventScoring` and `EventMeasure`
  are event scoring: interval measure, maximum flow, identities by union-find, and the score.
  `EventMeaning` says what a score means in verdicts, facts and instants.
- `Fingerprints` and `Catalog` are near-duplicate search and lineage grouping; `Kinship` says which
  sources are kin in terms of their fields and bits.
- `RoundRobin`, `LedgerSpec`, `LedgerPanel`, `Rotation`, `Ledger`, `LedgerHistory` and `LedgerRuns`
  are the replayable ledger: what one block does, who gets on a panel and in which turn, the class
  that does it, what holds over every history, and what whole histories guarantee to miners.
  `Panels`, `Succession` and `Blocks` say who is nominated, how the crown passes, and what one block
  adds, in terms of submissions, closings and rows.
- `Turns`, `Queue`, `Triggers`, `Fairness`, `Schedule`, `ScheduledTriggers` and `Lifecycle` are
  the dispatch queue and its scheduling layer. `Readiness` says which rows may go and in which
  order, and `Lives` how each event may change each row.
- `Pool`, `Download` and `Sends` are the three loops that must survive a crash: batch
  preparation, resumable download, and the weight-send record.

The modules that say what a result means define it a second time, without the functions that the
methods and their specifications share, and prove the two definitions equal for all inputs.

Conventions of the model:

- Scores, times and stakes are exact: `real` where the program uses floating point or
  `Fraction`, scaled integers on the wire. Times in `EventMeasure.Measure` are multiples of
  some unit `1 / tick`, as finite floating-point times are; that makes amounts rational.
- Hashes are functions: `Config.challenge` and `Registry.challenge` bind a hotkey and a
  manifest to a model id, and file hashes are equality of contents. Nothing assumes that a
  challenge function is injective: a shared model id keeps the earlier submission.
- A database is one value of type `Tables`; a transaction saves it and restores it on error.
  SQLite tables are maps or sequences under their primary keys. Block hashes and the `blocks`
  table, which only repeat the cursor, are not part of this model.
- The draw and its reserve order are given permutations. Callbacks of the scheduler
  (`candidates`, `interruption`, `current_block`) answer consistently during one call.
- A dispatch of `Lifecycle` starts the first offered row of a given set: the rows that the evaluator
  does not skip because their result is waiting for publication, published, or stopped early.
- `Pool` assumes of its environment that media are intrinsically sound or invalid: a build never
  reports an invalid video as ready nor a sound one as invalid, but may fail or stop short at
  any time. `Download` assumes of an honest reply that it is the requested range, and assumes
  nothing for the claim that only the committed file is put in place.
- `LedgerSpec.Config.policyFor` stands for the policy schedule, one policy per window.

Where the code and an obvious reading of it differ, the model follows the code:

- The send record does not exclude a second send in every case, although it is there to do so.
  `_complete_write` clears the future even when the write of the receipt and the write of the
  `unknown` status both fail; the record then still says `submitting`, the process goes on, and
  `_due` does not block on `submitting` (`Sends.LostReceiptSendsTwice`). The same state arises at
  hand-over: when the thread of the writer cannot be started, `submit` raises although the work is
  already queued; and when the directory sync of the record write raises after the file was
  replaced, the record says `submitting` with nothing queued. The guarantee is therefore stated
  with its exact condition: a second send opens up exactly by losing the future or the receipt
  (`Sends.SendingStep`, `Sends.ReopenedExactlyByALoss`), and by nothing else over any run
  (`Sends.NoDuplicateSend`). A restart in between closes it again (`Sends.RestartBlocks`).
- `Fingerprints.Matches` is complete for distances up to six, which covers both uses in the
  program (6 and 5); for larger distances it is proved sound.
- `decide` guards no division: `Consensus.StakeIsPositive` shows that a counted vote always
  carries positive stake.

## Model

| member | source | states |
|---|---|---|
| `Stopping.FirstRare` | witness/benchmark/stopping.py:40-41 | the least k for which missing all k largest rewards in a draw of three has probability at most one tenth; such a k always exists, so the search always ends |
| `Stopping.CountSubsets` | witness/benchmark/stopping.py:3-4 | the number of k-element subsets of a finite set is the binomial coefficient the module counts with |
| `Stopping.TopSeenBounds` | witness/benchmark/stopping.py:3-5 | once one of the k largest scores has been seen, the sum of all scores is at most k - 1 plus the rest at the largest seen value |
| `Stopping.SoundStop` | witness/benchmark/stopping.py:45-47 | a stop whose reward bound is at or above the full mean implies that the rounded full mean does not clear the king by the margin: the upward rounding is sound |
| `Stopping.FalseStopUnderestimates` | witness/benchmark/stopping.py:36-47 | a stop of a batch that clears the king happens after exactly three videos, rests on the statistical bound, and that bound is strictly below the true mean |
| `Stopping.CompletionNeverStopsAWinner` | witness/benchmark/stopping.py:6-50 | for every batch that clears the king and every draw the look never fails, never stops at another number of videos than three, and never stops on the best-possible-completion bound |
| `Stopping.StopMissesTop` | witness/benchmark/stopping.py:3-5 | a draw that stops a batch that clears the king contains none of the k largest rewards |
| `Stopping.AvoidingIsRare` | witness/benchmark/stopping.py:3-5 | any family of three-element samples that avoid the k largest rewards holds at most one tenth of all samples |
| `Stopping.AtMostOneTenthStopAWinner` | witness/benchmark/stopping.py:1-50 | for every batch of more than three videos and every king score: if the full mean clears the king in transmitted units, at most one tenth of all three-video subsets lead to a stop in any order |
| `Stopping.PublishedBoundDominates` | witness/benchmark/stopping.py:45-50 | the published quality bound, rounded up, is never below the rounded full mean; the reward bound too whenever it is the completion bound or is not below the mean |
| `Stopping.StopsExactly` | witness/benchmark/stopping.py:24-50 | for any number of valid videos the look stops exactly when the best possible completion lies within the margin of the king, or after three videos the bound from the fewest unseen top rewards does; it publishes the sharper of the two with the completed quality |
| `Stopping.RefusesExactly` | witness/benchmark/stopping.py:24-33 | the look is refused exactly for fewer than three planned videos, or, with some but not all seen, for a score out of range or above its quality or a king's score out of range; before the first and after the last video it does nothing |
| `Wire.DecodeBytes` | witness/benchmark/protocol.py:42-49 | a decoded value has exactly the requested number of bytes |
| `Wire.EncodingRoundTrip` | witness/benchmark/protocol.py:38-49 | decoding undoes encoding for every byte string (section 5 of RFC 4648, unpadded), and the text has ceil(4n/3) characters |
| `Wire.PackUnpacked` | witness/benchmark/protocol.py:35 | every 91-byte block whose record is valid is the packed form of that record |
| `Wire.UnpackPacked` | witness/benchmark/protocol.py:35 | unpacking undoes packing for every valid record |
| `Wire.ParseCommitment` | witness/benchmark/protocol.py:118-130 | every valid record parses back from its commitment, which has exactly 126 characters |
| `Wire.CommitParsed` | witness/benchmark/protocol.py:42-49 | every accepted string is the commitment of the valid record it parses to, so no other encoding of a record is accepted |
| `Wire.Bijection` | witness/benchmark/protocol.py:118-130 | two accepted strings that parse to the same record are the same string |
| `Layout.GroupOfFour` | witness/benchmark/protocol.py:38-39 | every three bytes are one 24-bit number written with four digits of the URL-safe alphabet, what is missing at the end counting as zero |
| `Layout.PackLaidOut` | witness/benchmark/protocol.py:118-123 | the packed record holds window, uid, digests, scores and flags at their offsets, numbers in base 256 and digests in base 16 |
| `Layout.ValidMeans` | witness/benchmark/protocol.py:102-116 | the constructor accepts exactly records in range, with small hexadecimal digests, rewards within qualities, zero scores when rejected, and a partial flag only on a passing challenger |
| `Layout.ParsedMeans` | witness/benchmark/protocol.py:125-130 | a string parses to a record exactly when it is the prefix and the text of 91 bytes that lay out that well-formed record |
| `Ordering.LessMeans` | witness/benchmark/protocol.py:173 | strings compare at their first difference: one ends there or has the smaller character |
| `Decide.Tally` | witness/benchmark/protocol.py:172-204 | the loop over the sorted rows computes the fold of the single-row step over the four dictionaries |
| `Decide.Decide` | witness/benchmark/protocol.py:164-255 | both loops together compute winner, inconclusive models and early losses as defined on the folded ballot |
| `Decide.FoldWellFormed` | witness/benchmark/protocol.py:172-204 | every stored vote is a valid record, so publishing early losses in wire format cannot fail |
| `Decide.LossesOf` | witness/benchmark/protocol.py:224-226 | the reported losses are exactly the counted partial votes, each with its own commitment |
| `Decide.Counted` | witness/benchmark/protocol.py:208-216 | exactly the votes of evaluators that covered the bootstrap pair, or bound the same king scores as their accepted baseline, are counted |
| `Consensus.SortSorts` | witness/benchmark/protocol.py:173 | sorting keeps the rows and orders them by block, hotkey and value |
| `Consensus.StepTwice` | witness/benchmark/protocol.py:173-204 | replaying a row changes no dictionary, whatever its flags |
| `Consensus.SameRowsSameFold` | witness/benchmark/protocol.py:172-204 | sorted row lists with the same members fold to the same ballot, however often a row occurs |
| `Consensus.OrderAndRepetitionIrrelevant` | witness/benchmark/protocol.py:164-255 | the whole decision depends only on the set of rows: reordering and duplicating rows changes nothing |
| `Consensus.BestIsMinimum` | witness/benchmark/protocol.py:240-241 | with distinct hotkeys the selected entry strictly precedes every other one in (-metric, block, hotkey) |
| `Consensus.CrownIsUniqueMinimum` | witness/benchmark/protocol.py:232-249 | a crowned challenger strictly precedes every other eligible one |
| `Consensus.MinimumIsChosen` | witness/benchmark/protocol.py:232-247 | an eligible entry that precedes all others is chosen when no inconclusive model reaches its metric |
| `Consensus.FoldReachable` | witness/benchmark/protocol.py:179-204 | only staked evaluators hold votes, and partial votes exist only against a king |
| `Consensus.StakeIsPositive` | witness/benchmark/protocol.py:219-223 | the stake under a mean is positive whenever some vote is counted, so the division is defined |
| `Consensus.StandingAdvanced` | witness/benchmark/protocol.py:206-231 | completing any of the partial votes never raises a model's delta nor adds a model, leaves unbounded aggregates unchanged, and leaves none bounded once all are completed |
| `Consensus.EligibleAdvanced` | witness/benchmark/protocol.py:232-235 | whoever is eligible after some completions was eligible or inconclusive before, an eligible challenger stays eligible with the same metric, and nobody becomes inconclusive or gains by it |
| `Consensus.EarlyStoppingKeepsTheCrown` | witness/benchmark/protocol.py:195-249 | replace any of the partial votes by full votes with the same king scores and no greater quality and reward: a crowned challenger stays crowned with the same winner, and with no inconclusive model the outcome is equal in every case |
| `Consensus.LateResultsKeepTheCrown` | witness/benchmark/protocol.py:172-249 | the same guarantee for rows: whichever later rows deliver full results within their bounds, after each of them the crown is kept |
| `Consensus.EarlyLossIsDefinitive` | witness/benchmark/protocol.py:224-226 | a model whose bound is reported as lost is not eligible whichever evaluations are completed |
| `Verdict.FirstResultsCount` | witness/benchmark/protocol.py:172-204 | said of the set of rows: an evaluator votes by its first terminal row on a hotkey, or by its first bound if that came before anything terminal; king scores, used hotkeys and covered panels likewise |
| `Majority.MeanIsStakeWeighted` | witness/benchmark/protocol.py:219-223 | mean times total stake times the scale equals the sum of stake times raw score over the evaluators that count, for quality, reward and gain |
| `Majority.ChosenIsCrowned` | witness/benchmark/protocol.py:232-247 | the chosen challenger is exactly the one whose stake-weighted sums clear the floor and the margin without bounds and outrank every other such challenger and every unfinished one |
| `Majority.DecisionMeans` | witness/benchmark/protocol.py:164-255 | winner, inconclusive models and early losses in those sums over the votes of the set of rows, with no mean, list order or tie-breaking loop |
| `Splitting.SplittingChangesNothing` | witness/benchmark/protocol.py:166-171 | splitting the stake of an evaluator over several with the same rows leaves winner and inconclusive models unchanged: duplicate evaluators never multiply stake |
| `Spans.Intervals` | witness/benchmark/event_scoring.py:16-25 | the merge loop returns sorted, nonempty, strictly separated spans that cover exactly the input's points |
| `Spans.CanonicalUnique` | witness/benchmark/event_scoring.py:16-25 | two such lists with the same points are equal |
| `Spans.LengthIsMeasure` | witness/benchmark/event_scoring.py:28-29 | length is the measure of the union, whatever cut points measure it |
| `Spans.LengthDependsOnPoints` | witness/benchmark/event_scoring.py:28-29 | length depends only on the covered points: reordering and duplicating spans changes nothing |
| `Spans.SplitKeepsLength` | witness/benchmark/event_scoring.py:28-29 | splitting a span anywhere keeps the length |
| `Spans.IntersectionIsMeasure` | witness/benchmark/event_scoring.py:32-33 | intersection is the measure of the points common to both unions |
| `Spans.IntersectionDependsOnPoints` | witness/benchmark/event_scoring.py:32-33 | intersection depends only on the two sets of covered points |
| `Spans.InclusionExclusion` | witness/benchmark/event_scoring.py:28-33 | inclusion and exclusion hold, intersection is symmetric and lies between zero and the length of either side |
| `Credit.Build` | witness/benchmark/event_scoring.py:38-47 | the fresh network has exactly the arcs source-prediction-fact-sink with their capacities and empty back edges |
| `Credit.Search` | witness/benchmark/event_scoring.py:50-57 | breadth-first search returns a tree of open edges, and when it misses the sink the reached nodes are a closed cut |
| `Credit.Augment` | witness/benchmark/event_scoring.py:65-70 | pushing along the tree path keeps a feasible flow, conserved at every node, whose value grows by the amount pushed |
| `Credit.Pass` | witness/benchmark/event_scoring.py:49-71 | one pass ends with an optimum or strictly reduces what is left in units of a common denominator |
| `Credit.MaxCredit` | witness/benchmark/event_scoring.py:36-71 | for all rational amounts the loop terminates and returns the optimum of the fractional matching: attained by a feasible assignment and exceeded by none |
| `Credit.WeakDuality` | witness/benchmark/event_scoring.py:36-37 | no assignment that respects demand amounts and unit fact capacities exceeds the capacity of any cut |
| `Credit.NoPathIsOptimal` | witness/benchmark/event_scoring.py:58-59 | a flow whose residual network has a closed cut between source and sink is an optimum |
| `Credit.PushBalances` | witness/benchmark/event_scoring.py:66-70 | one push moves the missing amount from the head of the edge to its tail and conserves flow everywhere else |
| `Credit.OptimumBounds` | witness/benchmark/event_scoring.py:36-37 | the optimum is unique and lies between zero and the number of demands |
| `Rationals.CommonDenominator` | witness/benchmark/event_scoring.py:36-71 | finitely many rational amounts are multiples of one unit, the measure that makes the flow loop end |
| `Forest.Forest.Find` | witness/benchmark/event_scoring.py:86-90 | path halving returns the representative, keeps every representative, and leaves a valid forest |
| `Forest.Forest.Link` | witness/benchmark/lineage.py:172 | hanging one representative below another merges exactly their two classes |
| `Forest.Forest.Skip` | witness/benchmark/lineage.py:163-167 | one halving step stays in the same class and moves strictly closer to the representative |
| `EventMeasure.Identify` | witness/benchmark/event_scoring.py:81-116 | both joining passes end with every fact named by the least key of its component of joined facts |
| `EventScoring.IdentitiesUnique` | witness/benchmark/event_scoring.py:81-116 | the identities are determined by the joined pairs alone, not by the order of the joins |
| `EventMeasure.AliasLists` | witness/benchmark/event_scoring.py:107-111 | the dictionary lists, per proposition, the single-fact supports of all annotations in order |
| `EventMeasure.JoinAliases` | witness/benchmark/event_scoring.py:105-116 | every pair of neighbouring aliases from different, overlapping annotations is joined and nothing outside the chains of joined pairs |
| `EventMeasure.Gather` | witness/benchmark/event_scoring.py:117-151 | the loop collects exactly the predicted spans, evidence spans, contradictions and unsupported propositions of all claims |
| `EventMeasure.DemandList` | witness/benchmark/event_scoring.py:152-156 | the demands are the distinct targets in order with their temporal purity as a measure of points, capped at one, and their amounts are rational |
| `EventMeasure.RecallOf` | witness/benchmark/event_scoring.py:160-172 | the recall of one annotation is the weighted share of its own event time that supported claims cover |
| `EventMeasure.MeanRecall` | witness/benchmark/event_scoring.py:173 | recall is the mean over the annotations |
| `EventMeasure.Measure` | witness/benchmark/event_scoring.py:74-177 | a score is returned exactly for assessed inputs, and it is the score defined by points, optimum credit and recall |
| `EventScoring.ScoreInUnit` | witness/benchmark/event_scoring.py:157-174 | precision, recall and quality always lie between zero and one |
| `EventScoring.RepeatingAClaimChangesNothing` | witness/benchmark/event_scoring.py:1-5 | inserting a copy of a claim with a fresh id and the same verdicts in every assessment and review leaves precision, recall and quality unchanged |
| `EventMeaning.BestJudges` | witness/benchmark/event_scoring.py:133-135 | counted in parts, the annotation that judges a claim supports no smaller share than any other, contradicts no larger one at equal support, and is the first of full ties |
| `EventMeaning.FullySupported` | witness/benchmark/event_scoring.py:133-149 | no part by which a claim is judged is refuted or lacking when some annotation supports the claim in every part |
| `EventMeaning.FullySupportedAddsNothing` | witness/benchmark/event_scoring.py:133-151 | every refuted or lacking proposition behind a measured score comes from another claim than one that some annotation supports in every part |
| `EventMeaning.IdentitiesName` | witness/benchmark/event_scoring.py:81-116 | two facts share a name exactly when a chain of touching duplicate labels and neighbouring synonyms joins them, and the name is the least of them |
| `EventMeaning.MeasuresMeans` | witness/benchmark/event_scoring.py:74-177 | a measured score in terms of verdicts, facts and instants: targets, refuted and lacking propositions of the judging annotations, amounts as shares of claimed time, the best credit, and the sums that make precision, recall and quality |
| `EventMeaning.ScoredInput` | witness/benchmark/scoring.py:90-107 | an input is scored exactly when every annotation has one assessment that decides all claims and nothing else, cites distinct overlapping facts within the limit, and leaves no contradiction without fact or review |
| `Fingerprints.Pigeonhole` | witness/benchmark/lineage.py:96-101 | values within six bit errors agree in at least two of eight chunks, for every chunk width |
| `Fingerprints.Index` | witness/benchmark/lineage.py:102-107 | every position with a value is filed under each of its chunk-pair keys |
| `Fingerprints.Offsets` | witness/benchmark/lineage.py:108-115 | no pair of positions within six bit errors escapes the collected offsets |
| `Fingerprints.Scan` | witness/benchmark/lineage.py:116-122 | the run counter answers exactly whether eight consecutive pairs at this offset are close |
| `Fingerprints.Matches` | witness/benchmark/lineage.py:93-123 | for distances up to six the indexed search answers exactly what comparing all offsets would; for every distance a hit is real |
| `Fingerprints.AlignedSymmetric` | witness/benchmark/lineage.py:93-123 | near-duplication does not depend on the order of the two tracks |
| `Catalog.IsRelated` | witness/benchmark/lineage.py:126-133 | the loops decide exactly the declared relation: same origin, creator or parentage, or near-duplicate tracks |
| `Catalog.RelatedSymmetric` | witness/benchmark/lineage.py:126-133 | the relation is symmetric |
| `Catalog.Group` | witness/benchmark/lineage.py:169-172 | after all pairs, representatives are linked to their keys by related sources and every related pair shares one; skipping joined pairs loses no edge |
| `Catalog.Build` | witness/benchmark/lineage.py:158-177 | every source is mapped to the smallest id that a chain of related sources reaches from it |
| `Catalog.GroupsAreComponents` | witness/benchmark/lineage.py:158-177 | two sources share a group exactly when a chain of related sources links them, and a group name names itself |
| `Catalog.GroupingIgnoresOrder` | witness/benchmark/lineage.py:158-177 | the map does not depend on the order or repetition of the sources |
| `Catalog.Create` | witness/benchmark/lineage.py:143-177 | a catalogue is accepted exactly when ids are distinct, splits cover them, parents are known and no chain of related sources joins two usable splits |
| `Catalog.CrossingIsLineage` | witness/benchmark/lineage.py:152-155 | a group spans two usable splits exactly when some chain of related sources does |
| `Kinship.DistanceCountsBits` | witness/benchmark/lineage.py:120 | the distance of two fingerprints is the number of bits in which they differ |
| `Kinship.RelatedMeans` | witness/benchmark/lineage.py:93-133 | two sources are related exactly when they share file, parentage or a named creator, or have eight seconds in a row that differ in at most six bits to see or five to hear |
| `Kinship.GroupsMean` | witness/benchmark/lineage.py:158-177 | two ids share a group exactly when a path of such kin joins them, and the group is the least id on such paths |
| `Kinship.CrossingMeans` | witness/benchmark/lineage.py:152-155 | a catalogue is refused for its splits exactly when a path of kin leads from one usable split into another |
| `RoundRobin.TakeTurns` | witness/benchmark/ledger.py:266-270 | popping one head per owner and deleting emptied owners yields the rounds of service in order, cut at the requested count |
| `RoundRobin.TurnsKeepRows` | witness/benchmark/ledger.py:262-270 | taking turns is a permutation of the rows |
| `RoundRobin.GroupedRows` | witness/benchmark/ledger.py:262-264 | grouping gives one group per owner in order of first appearance, each holding that owner's rows in order |
| `RoundRobin.SlotHolds` | witness/benchmark/triggers.py:113-121 | item d of owner i is served exactly at its slot |
| `RoundRobin.SlotOrdered` | witness/benchmark/triggers.py:113-121 | slots are ordered by depth first and owner second: nobody gets turn d + 1 before every owner with that much work got turn d |
| `RoundRobin.SlotOnto` | witness/benchmark/triggers.py:113-121 | every turn belongs to some item |
| `Ledger.Ledger.History` | witness/benchmark/ledger.py:219-222 | the sorted commitments of the half-open block range |
| `Ledger.Ledger.VotingRows` | witness/benchmark/ledger.py:224-244 | baselines, unresolved bounds, and otherwise only rows recorded as uses of the window |
| `Ledger.Ledger.Close` | witness/benchmark/ledger.py:301-321 | the decision on the recorded votes, the new king, the consumed losses and the retired pair, as one new state |
| `Ledger.Ledger.ResetAdmissions` | witness/benchmark/ledger.py:131-143 | the one reset archives and clears the three active indexes and the rotation |
| `Ledger.Ledger.FirstPair` | witness/benchmark/ledger.py:259-277 | the next two submissions of the owners' rotation |
| `Ledger.Ledger.Open` | witness/benchmark/ledger.py:246-283 | the frozen opening of a new window, or the refusal of a window id seen before |
| `Ledger.Ledger.AdmitRow` | witness/benchmark/ledger.py:326-361 | one row as commitment, submission and measurement, or its refusal |
| `Ledger.Ledger.CompletePairs` | witness/benchmark/ledger.py:362-371 | exactly the complete pairs of an open first window become uses, in any order of the evaluators |
| `Ledger.Ledger.Ingest` | witness/benchmark/ledger.py:285-377 | one block is all or nothing: the tables become the specified next state, or stay as they were on every error |
| `LedgerSpec.EarlyLossesListed` | witness/benchmark/ledger.py:309-316 | every early loss parses and names a submission of the closing panel, so consuming it cannot fail |
| `LedgerPanel.OpeningIsFrozen` | witness/benchmark/ledger.py:246-283 | a panel holds submissions strictly older than the opening block, registered and not retired, one per hotkey with the uid of that block; under a king every such model but the king's, without one a pair or nobody |
| `Panels.CandidatesAreNominated` | witness/benchmark/ledger.py:246-252 | the candidates of an opening are exactly the earliest submissions, by block and hotkey, of every model among those that stand, under the uid of the opening block |
| `Panels.PanelUnderKing` | witness/benchmark/ledger.py:253-258 | under a king the panel is exactly the nominations of every other model |
| `Panels.RotationOrder` | witness/benchmark/ledger.py:259-270 | without a king the rotation lists every owner's first submission in the order of those, then every second one, and so on |
| `Succession.ClosePassesTheCrown` | witness/benchmark/ledger.py:299-324 | after every close the king is the winner recorded in the closing of the window just closed, and the next window opens under him with his current uid while he is registered, under nobody otherwise |
| `Succession.KingIsTheLastWinner` | witness/benchmark/ledger.py:285-377 | in every reachable state the king is the winner of the window closed last, and nobody before any close |
| `Succession.CrownIsEarned` | witness/benchmark/ledger.py:224-308 | at every reachable close the decision is the stake-weighted verdict on exactly the rows of the window's blocks that may vote |
| `Blocks.DeliveryMeans` | witness/benchmark/ledger.py:285-377 | one block in all its effects, said of its rows: losses spent, pair retired, generation reset, rotation moved; the first submission and the first measurement of each hotkey recorded; first pairs consumed when both reports wait |
| `Blocks.AcceptedBlocks` | witness/benchmark/ledger.py:291-339 | a block is refused exactly when it is out of order, before activation, of a window opened before, or has a row of another block or a submission without owner |
| `LedgerPanel.PairAt` | witness/benchmark/ledger.py:271-275 | the first pair is the next two in the cyclic order after the last one served |
| `Rotation.NextRotation` | witness/benchmark/ledger.py:271-277 | the pair that is seated goes to the back of the rotation, for every order of distinct candidates and every last one served |
| `Rotation.AheadShrinks` | witness/benchmark/ledger.py:271-277 | each opening takes exactly two of those who are seated before a candidate |
| `Rotation.ArrivalsBehind` | witness/benchmark/ledger.py:259-275 | whoever arrives behind a candidate while the turn has not passed it is not seated before it |
| `Rotation.DeparturesCutNobody` | witness/benchmark/ledger.py:259-275 | candidates that leave put nobody new before another one, and the rotation begins again exactly when the last one served is among them |
| `LedgerPanel.AdmitAllKeyed` | witness/benchmark/ledger.py:326-361 | the rows of a block never change the open panel, a window, the king or an earlier submission |
| `LedgerHistory.UsesAreWrittenOnce` | witness/benchmark/ledger.py:131-143 | over every continuation of every history a use never changes; it leaves the active table only into the archive of the single reset |
| `LedgerHistory.OneArchive` | witness/benchmark/ledger.py:131-143 | a ledger is reset at most once, with exactly one archive |
| `LedgerHistory.FirstPairsAreWhole` | witness/benchmark/ledger.py:345-371 | in every window opened without a king the panel of a used hotkey is a pair, and each evaluator's uses of the window cover both hotkeys or neither, before and after the reset |
| `LedgerHistory.WindowsAreFrozen` | witness/benchmark/ledger.py:278-283 | over every history openings never change and decisions, once recorded, never change |
| `LedgerHistory.PanelNeverChanges` | witness/benchmark/ledger.py:246-283 | while a window is open its panel is the one frozen at its opening, of submissions strictly before the opening block |
| `LedgerHistory.BallotIsTheRecord` | witness/benchmark/ledger.py:224-244 | at every reachable close a full vote is in the ballot exactly when its evaluator, staked at the close, is recorded as having used that submission in this window with passing controls; the vote is the recorded one and stood on chain before the closing block |
| `LedgerHistory.UsesBelongToTheirWindow` | witness/benchmark/ledger.py:285-290 | over every history a use is a measurement for its own window, policy and submission, on chain from the opening block on and before the closing one |
| `LedgerRuns.EvaluatedPairRetires` | witness/benchmark/ledger.py:317-321 | at every reachable close of an evaluated first window that crowns nobody the pair is retired |
| `LedgerRuns.RetiredSitsOut` | witness/benchmark/ledger.py:317-321 | over every continuation of every history without the reset, a retired hotkey stays retired and is on no window opened later |
| `LedgerRuns.EveryoneGetsAPanel` | witness/benchmark/ledger.py:259-277 | over every history of first windows in which candidates arrive, retire and drop out, nobody new getting in before it, a candidate is on a panel once twice the openings exceed those ahead of it plus, per restart of the rotation, those that stand before it |
| `LedgerRuns.EarlyStoppingIsSafeAtEveryClose` | witness/benchmark/ledger.py:301-305 | at every reachable close: full results in place of any of the partial ones, within their bounds, keep the crown and the winner |
| `LedgerHistory.ReplaySettled` | witness/benchmark/ledger.py:285-377 | every reachable state satisfies the invariant on windows, uses, pending pairs and archives |
| `Turns.EnterDistinct` | witness/benchmark/triggers.py:86-87 | a new owner gets a turn of its own and moves nobody |
| `Turns.ServeShrinksAhead` | witness/benchmark/triggers.py:130-131 | serving another owner removes exactly that owner from those ahead |
| `Triggers.Triggers.ApplyReset` | witness/benchmark/triggers.py:40-58 | rows older than the reset are archived and discarded once; a different reset is refused |
| `Triggers.Triggers.Observe` | witness/benchmark/triggers.py:60-98 | the rows in order bind each unbound registered hotkey once and give new owners a turn |
| `Triggers.Triggers.Pending` | witness/benchmark/triggers.py:100-121 | the preview is the round-robin of the ready owners, cut at the count |
| `Triggers.Triggers.Start` | witness/benchmark/triggers.py:123-137 | the row runs and its owner goes to the back, or nothing changes |
| `Triggers.Triggers.Defer` | witness/benchmark/triggers.py:139-142 | only a running row is queued again, with reason and retry block |
| `Triggers.Triggers.Finish` | witness/benchmark/triggers.py:144-150 | a row becomes terminal unless it is terminal or discarded; other statuses are refused |
| `Triggers.Triggers.Reconcile` | witness/benchmark/triggers.py:152-158 | a finalized result consumes the live row of its hotkey |
| `Fairness.PendingIsLayered` | witness/benchmark/triggers.py:106-121 | the preview is the depth-layer interleaving: every row with a smaller depth, or the same depth and an earlier owner, stands before |
| `Fairness.OwnerIsFirstInFirstOut` | witness/benchmark/triggers.py:103-108 | rows of one owner are dispatched in the order of block and hotkey |
| `Fairness.HeadHasWaitedLongest` | witness/benchmark/triggers.py:100-121 | the head of the queue belongs to the eligible owner with the earliest turn |
| `Fairness.TurnsStayDistinct` | witness/benchmark/triggers.py:85-87 | turns are pairwise distinct in every state of every run |
| `Fairness.BoundedWaiting` | witness/benchmark/triggers.py:123-137 | if every dispatch starts the head, an owner that stays eligible is served within as many dispatches as there are owners with an earlier turn, plus one |
| `ScheduledTriggers.ScheduledTriggers.Observe` | witness/benchmark/managed_evaluator.py:56-72 | withdrawn bindings return only by a later commitment of the same value; all other arrivals of their hotkeys are ignored |
| `ScheduledTriggers.ScheduledTriggers.Reconcile` | witness/benchmark/managed_evaluator.py:77-82 | withdrawn rows of the hotkey are restored and the live one is consumed |
| `ScheduledTriggers.ScheduledTriggers.RecoverInterrupted` | witness/benchmark/managed_evaluator.py:84-107 | every row after a restart: transport failures withdrawn, timeouts retried at once, long waits capped |
| `Schedule.RecoverTwice` | witness/benchmark/managed_evaluator.py:84-107 | recovering again at the same block changes nothing: every interrupted row gets its one immediate retry once |
| `ScheduledTriggers.ScheduledTriggers.Pending` | witness/benchmark/managed_evaluator.py:109-142 | every waiting row is visited and the offered ones are served round-robin from the ready owners |
| `ScheduledTriggers.ScheduledTriggers.Visit` | witness/benchmark/managed_evaluator.py:116-131 | one waiting row is withdrawn, woken for a new window or left, and offered exactly when budget and candidate allow |
| `ScheduledTriggers.ScheduledTriggers.Withdraw` | witness/benchmark/managed_evaluator.py:144-150 | only a live or excluded row is withdrawn, remembering the block of its removal |
| `ScheduledTriggers.ScheduledTriggers.Defer` | witness/benchmark/managed_evaluator.py:152-198 | every branch of ending an attempt: planned, miner failure, infrastructure, timeout, parking |
| `Schedule.Renewal` | witness/benchmark/managed_evaluator.py:62-67 | the earliest block above the removal at which the same value was committed by the registered hotkey |
| `Lifecycle.OneChallengePerHotkey` | witness/benchmark/managed_evaluator.py:56-82 | over every run at most one row of a hotkey is not discarded, and its value is the one first bound |
| `Lifecycle.BindingsAreImmutable` | witness/benchmark/managed_evaluator.py:56-82 | hotkey, value, block, owner, uid and model of a row never change, and a discarded row stays discarded |
| `Lifecycle.OutOfDispatchLeavesOnlyBy` | witness/benchmark/managed_evaluator.py:56-82 | a withdrawn row changes only by the same value committed above its removal block, by a result, or by a new generation; a consumed row only by the latter |
| `Lifecycle.NeverDispatchedAfterTwoTimeouts` | witness/benchmark/managed_evaluator.py:109-131 | over every run a dispatched row is live, a listed candidate, and has fewer than two timed-out attempts |
| `Lifecycle.SecondTimeoutWithdraws` | witness/benchmark/managed_evaluator.py:176-184 | no live row ever has two timed-out attempts |
| `Lifecycle.TurnsStayDistinct` | witness/benchmark/managed_evaluator.py:56-198 | turns are pairwise distinct in every state of every run of the scheduler |
| `Lifecycle.LongestWaitingIsServed` | witness/benchmark/evaluator.py:456-467 | over every run, when the first offered row that is accepted is started, its owner has waited at least as long as every owner with an accepted row no deeper than those of the owners behind it |
| `Lifecycle.HeadIsEligible` | witness/benchmark/evaluator.py:456-467 | an owner whose first offered row is accepted is such an owner |
| `Lifecycle.BoundedWaiting` | witness/benchmark/evaluator.py:456-468 | after every run and over all transitions, each start taking the first offered row that is accepted: an owner that is eligible whenever a row is started is served within as many starts as there are owners with an earlier turn, plus one |
| `Lifecycle.PendingIsLayered` | witness/benchmark/managed_evaluator.py:109-142 | the scheduler's queue is a depth-layer interleaving of its offered rows, as in the base queue |
| `Lifecycle.OwnerIsFirstInFirstOut` | witness/benchmark/managed_evaluator.py:109-142 | the scheduler offers rows of one owner in the order of block, or of the block of readmission, and hotkey |
| `Lifecycle.RunSound` | witness/benchmark/managed_evaluator.py:41-198 | every reachable queue satisfies the invariant on rows, timeouts and generations |
| `Readiness.PendingIsReady` | witness/benchmark/triggers.py:100-121 | every id offered by the base queue has an owner whose first waiting row may go by now, and with room left every waiting row that is not offered has an owner whose first row must wait longer |
| `Readiness.QueueOrder` | witness/benchmark/triggers.py:100-121 | over every run of the base queue the offer is the first ready rows, ordered by how many rows of their owner come before them and then by the owner's turn |
| `Readiness.ScheduledIsReady` | witness/benchmark/managed_evaluator.py:109-142 | the same two directions for the scheduler, over the waiting rows that challenge in the current window |
| `Readiness.ScheduledOrder` | witness/benchmark/managed_evaluator.py:109-142 | over every run of the scheduler its offer is exactly the first ready challengers in that order |
| `Lives.RowsLiveByTheRules` | witness/benchmark/managed_evaluator.py:41-198 | over every run, what each event makes of each row, with every reason, wait and limit spelled out row by row |
| `Lives.RowsEnterByTheRules` | witness/benchmark/managed_evaluator.py:56-82 | over every run, rows enter by the earliest commitment of a registered hotkey without an undiscarded row, every such newcomer gets one, and its owner joins behind all others |
| `Lives.ServedLast` | witness/benchmark/triggers.py:123-137 | the owner of the started row goes behind everybody and nobody else moves |
| `Lives.DiscardedIsArchived` | witness/benchmark/triggers.py:40-58 | a new generation archives every row it discards as it was |
| `Pool.WindowPool.Replace` | witness/benchmark/pool.py:239-244 | every rejected place gets the next available reserve; it fails only with nothing available and a rejected video left |
| `Pool.WindowPool.Examine` | witness/benchmark/pool.py:221-233 | the rejected videos of the selection; new ones are learnt only from a build without known rejections |
| `Pool.WindowPool.WindowBatch` | witness/benchmark/pool.py:187-256 | from any persisted state: a locked batch is the sound draws in place and the first sound reserves and never changes; builds are bounded by what is learnt plus one; a run that locks nothing met a crashed build, a build that left a video open, a stop, or a reserve with too few sound videos |
| `Pool.ThoroughRunLocks` | witness/benchmark/pool.py:187-256 | a run whose builds settle every video and that nobody stops locks the target if and only if the reserve suffices, from any persisted state, and otherwise reports the exhausted reserve |
| `Pool.AThoroughRunIsEnough` | witness/benchmark/pool.py:187-256 | after any number of crashed, incomplete and stopped runs one such run locks the target |
| `Pool.OneBatchPerWindow` | witness/benchmark/pool.py:187-256 | over any sequence of runs every batch that is returned is the same one |
| `Pool.Arrived` | witness/benchmark/pool.py:203-252 | a selection without invalid media that the loop reaches is the target set, whatever was rejected on the way |
| `Pool.Exhausted` | witness/benchmark/pool.py:242-243 | the reserve runs out only when it holds fewer sound videos than there are invalid draws |
| `Pool.ClosedIsPrefix` | witness/benchmark/pool.py:239-244 | taking available reserves in order selects a prefix of the sound reserves |
| `Download.ModelFile.Submit` | witness/benchmark/p2p.py:476-480 | at most two requests are in flight and tile exactly the gap between written and requested bytes |
| `Download.ModelFile.Receive` | witness/benchmark/p2p.py:481-486 | the oldest reply is appended where the file ends; a short or failed one changes nothing |
| `Download.ModelFile.Resume` | witness/benchmark/p2p.py:463-472 | a run starts from the bytes on disk, and from nothing when they exceed the file |
| `Download.ModelFile.Fetch` | witness/benchmark/p2p.py:454-490 | a finished run leaves exactly the committed bytes; with honest replies every cancelled, failed or killed run leaves a longer or equal prefix of them; a run that is answered and left alone finishes |
| `Download.ResumedRunsKeepAPrefix` | witness/benchmark/p2p.py:454-490 | over any sequence of cancelled, failed, killed and resumed runs with honest replies the partial file is a prefix of the committed one and loses no byte until a run finishes |
| `Download.OnlyTheWholeFileIsPlaced` | witness/benchmark/p2p.py:484-490 | over any sequence of runs, honest replies or not, the file in place is the committed one once a run has finished, and is untouched before |
| `Download.TilesOrdered` | witness/benchmark/p2p.py:471-480 | requests that tile a range stay inside it, one byte each at least |
| `Sends.Validator.constructor` | witness/benchmark/validator.py:34-36 | a record left as submitting becomes unknown on start |
| `Sends.Validator.CompleteWrite` | witness/benchmark/validator.py:42-63 | a finished operation is recorded as submitted, rejected or unknown and always frees the writer; each of the writes may fail before or after it replaces the file, and the call raises exactly when the handler's own write does |
| `Sends.Validator.IsDue` | witness/benchmark/validator.py:69-86 | whether to sign, and the recording of an observed earlier send as applied, with every failing write |
| `Sends.Validator.Step` | witness/benchmark/validator.py:88-133 | one step: completion, decision and hand-over, in every error case |
| `Sends.NoDuplicateSend` | witness/benchmark/validator.py:42-128 | over every interleaving of steps, completions, restarts and failing writes: between two sends the first is seen on the chain, or its receipt was a refusal and at least five blocks have gone by, unless its future or the record of its receipt was lost in between |
| `Sends.GuardedUntilCleared` | witness/benchmark/validator.py:42-128 | until it is settled or lost, a send keeps its record, in memory or on disk, and with it the block on sending |
| `Sends.SendingStep` | witness/benchmark/validator.py:126-128 | from every state: right after a send an unsettled second one is possible exactly when that step lost the future |
| `Sends.ReopenedExactlyByALoss` | witness/benchmark/validator.py:42-128 | over every run: while a send is unresolved and not lost, the next event makes an unsettled second send possible exactly when it loses the receipt, that is, when neither the receipt nor the unknown status reaches the disk |
| `Sends.LostReceiptSendsTwice` | witness/benchmark/validator.py:51-63 | for every first send: both completion writes fail, the record stays submitting with no future, and the step one block later sends again |
| `Sends.SendBlocksIffTracked` | witness/benchmark/validator.py:126-128 | from every state that is about to send: the same step repeated sends exactly when the record write raised or the hand-over raised; a write torn after the replacement leaves a submitting record that blocks nothing |
| `Sends.RestartBlocks` | witness/benchmark/validator.py:34-36 | after a restart nothing is sent by the next step, and the record stays unknown until the chain shows it |
| `Sends.RecordIsTruthful` | witness/benchmark/validator.py:42-77 | over every run the record says submitted only after an accepted receipt for exactly these weights, rejected only after a refused one, and applied only after the chain showed them |
| `Sends.ReceiptIsRecorded` | witness/benchmark/validator.py:42-63 | what every receipt leaves in the record and the last weights, whichever of its writes fail and how |
| `Sends.SendsExactly` | witness/benchmark/validator.py:69-128 | a step with nothing in flight sends exactly under the conditions on record, rate limit, tempo and permissions, in block arithmetic |
| `Sends.AcceptedIsShownFirst` | witness/benchmark/validator.py:42-128 | over every run an accepted send of which nothing is lost is followed by no second one before the chain shows it |
| `Sends.RefusalReleases` | witness/benchmark/validator.py:79-86 | a refused send whose record reached the disk stands in the way for five blocks and no longer: the step that learns of it and every later one sends exactly when the send may go again |
| `Sends.PublishesExactly` | witness/benchmark/validator.py:129-133 | the writer gets an evaluator commitment exactly in the steps that do not sign |

## Left out

- Floating-point effects: the `1e-12` threshold of the flow search and the rounding of sums are replaced by exact arithmetic.
- `text_key` and creator normalisation: propositions, subjects and creators are compared in the normal form they already have.
- `validate_assessment`: the rules it enforces are the predicate `EventScoring.Assessed`; its error messages are one error.
- Grouping of duplicate labels by text before comparing pairs: all pairs are compared, with the text as part of the comparison.
- `weight_vector`, `weights_match` and the display fields of a decision: projections of the winner; `weights_match` enters `Sends` as a given comparison.
- Policy hashing, upgrade validation and the one-off migrations in `Ledger.__init__`: start-up checks around an abstract schedule.
- `Source`, `Result` and manifest field validation by pydantic beyond the checks of `Result`: single branches.
- Fingerprint extraction, media probing, clip cutting, labelling and judging: external programs and providers.
- Draw commitments, exclusion lists and evaluation clips of the lineage module: single expressions over the catalogue.
- TLS, HTTP, compression and the download time budget: transport around the modelled loop.
- The catalogue size check, secret salt and seed hash of a batch: inputs of the draw.
- Threads, prefetch and GPU budgets of the evaluator; telemetry and status projections: no state of the modelled protocols.
- `max_per_hotkey`, legacy rows and column upgrades of the queue: constant or start-up paths.
- ScheduledTriggers.ScheduledTriggers.RecoverInterrupted: does not return the list of recovered rows, which only feeds a log, and applies the statements row by row because they touch rows independently.
- Download.ModelFile.Fetch: models one file of the manifest; the outer loop repeats it and the final directory check compares the same hashes again.
- Sends.Validator.Step: takes the observations of one step (`World`) as given; the heartbeat, the ingest loop before it and the status files after it have no part in the decision to send, and an error of theirs is a step that does not happen.
- LedgerRuns.EveryoneGetsAPanel: asks that nobody new gets in before the candidate; an arrival does when the turn has already passed the candidate, or when an owner that comes first in the round-robin gets a further submission into the candidate's depth, and each such arrival may delay it.
- Ledger.Ledger.ResetAdmissions: archives the three indexes as one record instead of one record per row.
