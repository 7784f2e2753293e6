# Verified model of the wallet-tracing core

The system traces reported crypto wallets: it recognises an address, walks the outbound money flow
through a blockchain connector, writes what it finds into a graph, clusters addresses by owner,
assembles traces, ranks the services the money reached, scores them, and lets officers raise and
approve freeze requests. This project models the algorithms behind those steps in Dafny and proves
what they promise. `dafny verify dfyconfig.toml` checks everything.

Amounts, prices and scores are exact reals; strings are ASCII; `exp`, `log1p` and `0.5 ** x` are
parameters of which only a few stated facts are used (`Risk.Exponential`, `Risk.HalfPower`,
`Ranking.Analytic`). Clocks, the connector, the price feed, database keys and query results are
parameters.

Files, in reading order:

- `Options`, `Text`, `Chains`, `Orders`, `Rounding`: shared vocabulary (optional values, ASCII case
  and lexicographic order, the three chains, sorting and summing, rounding half to even).
- `Bech32`, `Regroup`, `Segwit`, `SegwitLimits`, `SegwitKinds`: the segwit address codec of BIP-173 and BIP-350.
  The checksum is a linear 30-bit register and, independently, a polynomial remainder over GF(32);
  the 5-to-8-bit regrouping is specified on bit streams; together they give one canonical string per
  witness, and rejection of every burst of six or fewer damaged places that does not take the version
  to or from 0. `SegwitLimits` gives the exact set of bursts that pass, `SegwitKinds` what
  acceptance says in the standards' own numbers.
- `Expansion`: the budgeted breadth-first walk, and what its flags and `complete` mean.
- `Transactions`, `Transfers`: the proportional split of outputs over inputs, and its conservation.
- `GraphState`, `WrittenGraph`: the graph as maps and sets, one transition per statement of the writer; any order
  and any repetition of the same records leaves the same graph, which is described from the records alone.
- `Ownership`, `Clustering`, `ChangeHistory`, `ClusterInvariant`, `ClusterRuns`, `ClusterLimits`,
  `Evidence`, `ChangeRule`: the clustering statements as transitions, their invariants over all runs
  of batches, refreshes and passes, what clusters and change outputs rest on, and exactly when two
  promises of the documentation hold.
- `GraphStore`: the imperative writer and clustering passes over a mutable store, each proved equal
  to its transition.
- `Trace`: node and link assembly; the result is a layered, acyclic graph of shortest distances.
- `Limiter`, `Lockout`, `GeneralLimit`: the in-process rate limiter against a per-key reference, the
  login lockout under interleaving, and the general limit over whole runs.
- `Frames`: the WebSocket frame loop (section 5.2 of RFC 6455), independent of how bytes arrive.
- `Exposure`, `Measurements`, `Ranking`, `Investigation`: measurements over arriving transfers, scoring, and the
  whole analysis from path rows to ranked services.
- `Freeze`: the approval workflow, its audit log and its replay.
- `Risk`: the saturating score, the labels, and how far the advisory classifier can move them.

Methods carry the imperative code; the functions they are proved equal to are the specifications the
lemmas speak about.

## Model

| member | source | states |
|---|---|---|
| Text.LessMeans | backend/app/services/clustering.py:49-50 | Strings compare by their first differing character, a proper prefix coming first |
| Chains.OneAddress | backend/app/services/chain_detect.py:323-334 | Two spellings have one stored form exactly if they are equal, or on Ethereum equal up to case, and a stored form is stored as it is |
| Bech32.Polymod | backend/app/services/chain_detect.py:83-91 | The nested loops compute the register machine `Run` started at 1, for input of any length |
| Bech32.StepXor | backend/app/services/chain_detect.py:86-90 | One register step is linear: stepping the exclusive-or of two registers and inputs is the exclusive-or of the two steps |
| Bech32.ZeroStepKernel | backend/app/services/chain_detect.py:86-90 | Fed a zero, no nonzero register becomes zero, so with linearity the zero-input step is injective |
| Bech32.RunXor | backend/app/services/chain_detect.py:87-91 | Linearity of the whole loop over two inputs of equal length |
| Bech32.MixIsGeneratorPolynomial | backend/app/services/chain_detect.py:84-90 | The five feedback constants are the coefficients of the BIP-173 generator polynomial times the symbol shifted out, with multiplication in GF(32) |
| Bech32.PolymodIsRemainder | backend/app/services/chain_detect.py:83-91 | The register after any symbols, cut into six, is the remainder of long division of the message polynomial by the generator polynomial, defined without the register |
| Bech32.ChecksumExistsUniquely | backend/app/services/chain_detect.py:83-91 | After any prefix and for any target constant exactly one six-symbol tail reaches the target |
| Bech32.BurstsChangeTheRegister | backend/app/services/chain_detect.py:83-91 | Two symbol lists of one length that differ, but only inside six consecutive places, leave different registers, at any length |
| Regroup.ConvertBits | backend/app/services/chain_detect.py:119-137 | The loop with its never-masked accumulator equals the bit-stream specification: complete groups, then padding or the two tail checks, and `None` for an out-of-range symbol |
| Regroup.PadThenUnpad | backend/app/services/chain_detect.py:119-137 | Narrowing with padding and widening back without it returns the data, at any two widths |
| Regroup.UnpadThenPad | backend/app/services/chain_detect.py:119-137 | Whenever widening without padding succeeds, narrowing with padding returns the original symbols |
| Segwit.AcceptedIsEncoding | backend/app/services/chain_detect.py:98-176 | Every accepted address, lower-cased, is the encoding of the version and program read out of it, and these are permitted |
| Segwit.EncodingIsAccepted | backend/app/services/chain_detect.py:140-176 | Every single-case spelling of an encoding is accepted with the right kind, chain and lower-case stored form |
| Segwit.AcceptedExactly | backend/app/services/chain_detect.py:140-176 | Acceptance if and only if the string is a single-case spelling of the encoding of some permitted witness |
| Segwit.OneCanonicalAddress | backend/app/services/chain_detect.py:140-176 | For each permitted version and program exactly one lower-case string is accepted with that witness |
| Segwit.NormIsTheWitness | backend/app/services/chain_detect.py:170-176 | Two accepted addresses have equal `address_norm` if and only if their version and program are equal |
| Segwit.CloseAddressesDifferInVersion | backend/app/services/chain_detect.py:153-156 | Two accepted addresses differing only inside six consecutive places have one version-0 and one later version: only the two checksum constants can make both pass |
| Segwit.BurstDamageIsRejected | backend/app/services/chain_detect.py:98-156 | A valid address damaged inside six consecutive places is always rejected, unless the damage takes the version symbol to or from the symbol of version 0 |
| SegwitLimits.BurstDamageExactly | backend/app/services/chain_detect.py:98-156 | An address damaged inside six consecutive places is accepted if and only if it is, in one case, the twin of the original: the string that differs by the one burst of its length, which exists for 42 and 62 characters only and exchanges version 0 and another |
| SegwitLimits.OnlyTheBurst | backend/app/services/chain_detect.py:83-91 | For each of the two lengths one difference within the first six symbols exchanges the two checksum constants, and no other does |
| SegwitLimits.VersionDamageCanPass | backend/app/services/chain_detect.py:153-156 | So the version condition is needed: every version-0 address has an accepted twin six consecutive places away |
| SegwitKinds.ChecksumOfVersion | backend/app/services/chain_detect.py:153-156 | An accepted version-0 address checks to the number 1, any later one to 0x2BC830A3 |
| SegwitKinds.PublishedAddress | backend/app/services/chain_detect.py:83-176 | The first example address of BIP-173 is accepted as a Bitcoin key-hash address stored as it is written |
| SegwitKinds.KindByText | backend/app/services/chain_detect.py:158-176 | Kind read off the text: key hash exactly for 42 characters with fourth character q, script hash for 62 and q, taproot for 62 and p, otherwise the version's place in the character set; chain, address and lower-case stored form |
| SegwitKinds.WitnessesWithAddress | backend/app/services/chain_detect.py:146-168 | Exactly these have an address: version 0 with 20 or 32 bytes, versions 1 to 16 with 2 to 40 bytes |
| SegwitKinds.MixedCaseIsRejected | backend/app/services/chain_detect.py:100-102 | A string with letters of both cases is never accepted |
| Expansion.Expand | backend/app/services/ingest.py:93-211 | Each address is fetched at most once and is the end of a walk of its depth; calls are within the budget and within 1 + (depth - 1) * 2 * breadth; `complete` implies that exactly the addresses at spend-distance below the depth were expanded, each at its shortest distance. Cut short or not, the calls are those of its levels in order: a level is given the first 2 * breadth outputs the level before queued, calls each new one once, and a level that ran out of budget a proper beginning of them; `frontier_truncated` says exactly whether a level was cut, `hops_discovered` how many queued anything, and an exhausted budget is spent and really missed an address |
| Expansion.ExpandLevel | backend/app/services/ingest.py:129-176 | One level: the new addresses of the frontier are called once each in order while the budget lasts, and what their spends lead to is queued in order or already seen |
| Expansion.Scan | backend/app/services/ingest.py:165-176 | The transaction loop keeps the first transaction per chain and txid and queues exactly the unseen outputs of those the address spent into |
| Expansion.ExactGrows | backend/app/services/ingest.py:126-198 | A level that was neither cut nor out of budget extends the exact shortest-distance set by one |
| Expansion.NothingBeyond | backend/app/services/ingest.py:126-128 | When a level adds no address no later level would, so stopping on an empty frontier is exact for every depth |
| Expansion.FirstOfEachMeans | backend/app/services/ingest.py:166 | The collected transactions: one per key, every key returned, each the first of its key |
| Expansion.EveryKeyIsKept | backend/app/services/ingest.py:166 | No chain and txid a call returned is missing from the collected transactions |
| Expansion.KeptAreCalled | backend/app/services/ingest.py:186-198 | Truncation drops only the end of a queue: unless the budget ran out there, each of the first 2 * breadth outputs a level queued has been called by the end of the next level |
| Expansion.QueuedMeans | backend/app/services/ingest.py:165-176 | What a level queues: exactly the addresses one of its calls spends to that had not been called by then |
| Expansion.UnseenMeans | backend/app/services/ingest.py:129-142 | Whom a level calls: exactly the frontier addresses not seen before it, none twice |
| Transfers.TransferPairs | backend/app/services/graph_writer.py:151-223 | The two dictionaries and the nested loop produce `Pairs`: nothing for a failed transaction, proportional shares, or even shares when the inputs carry no value |
| Transfers.PairsFacts | backend/app/services/graph_writer.py:198-223 | The pairs are exactly the combinations of an input address and a different output address, each once |
| Transfers.ShareRefinesUnits | backend/app/services/graph_writer.py:182-205 | Each emitted share equals the sum of the proportional shares of the individual inputs and outputs it collapses |
| Transfers.TransfersConserve | backend/app/services/graph_writer.py:161-167 | Emitted shares and skipped self-shares together are the total output, for any inputs, those without value included |
| Transfers.DisjointTransfersConserve | backend/app/services/graph_writer.py:161-167 | With no address on both sides the emitted shares sum to exactly the total output |
| Transfers.WithoutValue | backend/app/services/graph_writer.py:180-207 | A transaction that did not succeed has no pairs, and where the inputs carry no value all inputs are credited the same part of an output |
| GraphState.MergeTwice | backend/app/services/graph_writer.py:29-123 | Merging a record again changes nothing |
| GraphState.MergeCommutes | backend/app/services/graph_writer.py:29-123 | Records of different transactions can be merged in either order, shared addresses included |
| GraphState.WriteOrderDoesNotMatter | backend/app/services/graph_writer.py:275-310 | Two lists with the same records, in any order and with any repetition, leave the same graph, if records with one chain and txid are equal |
| GraphState.SameTransactionCommutesExactly | backend/app/services/graph_writer.py:29-123 | Two different records of one transaction commute if and only if what a merge always sets agrees and what it sets on creation only agrees or is already in the graph |
| GraphState.WrittenAddressSummary | backend/app/services/graph_writer.py:59-77 | For an address the writer created, `first_seen`, `last_seen` and the source set are the minimum, maximum and set over the records that mention it; it exists exactly if one does |
| GraphState.SeededStaysUnseen | backend/app/services/graph_writer.py:64-65 | An address created without `first_seen` never gets one |
| WrittenGraph.WrittenTransactions | backend/app/services/graph_writer.py:29-57 | After a write into an empty graph there is one transaction node for each record, with its own fields and the sizes of its two sides |
| WrittenGraph.WrittenInputs | backend/app/services/graph_writer.py:59-79 | There is a SENT edge exactly for every record, address and position among its inputs, with the first such amount |
| WrittenGraph.WrittenOutputs | backend/app/services/graph_writer.py:83-99 | There is a RECEIVED_BY edge exactly for every record, address and position among its outputs, with the first such amount and the last such change flag |
| WrittenGraph.WrittenTransfers | backend/app/services/graph_writer.py:102-122 | There is a TRANSFERRED edge exactly for every pair of every record, with the pair's raw and attributed amounts and the record's time, asset and source |
| WrittenGraph.WrittenCounts | backend/app/services/graph_writer.py:125-134 | A written address's count is its spends plus its receipts, where none at all still counts as one each |
| GraphStore.MoneyGraph.MergeTransaction | backend/app/services/graph_writer.py:29-123 | The statement's three subqueries on the mutable store have exactly the effect of the transition `MergeTx` |
| GraphStore.MoneyGraph.MergeTransfers | backend/app/services/graph_writer.py:106-122 | Both ends of every pair are found, so every pair is merged and counted |
| GraphStore.MoneyGraph.WriteTransactions | backend/app/services/graph_writer.py:275-310 | For every batch size the store afterwards is the same function of the records, and the edge count is the number of pairs |
| GraphStore.MoneyGraph.RefreshTxCount | backend/app/services/graph_writer.py:125-134 | Counting the edges of each address of the chain row by row, the unmatched row of an address without edges included, gives the refreshed counts, and nothing else changes |
| GraphStore.MoneyGraph.ApplyCommonInputOwnership | backend/app/services/clustering.py:47-67 | Merging an owner edge for each matching pair of SENT edges adds exactly the co-spend edges; other chains are untouched |
| GraphStore.MoneyGraph.ApplyChangeAddress | backend/app/services/clustering.py:76-122 | Going through the transactions one at a time, with flags already set on the way, flags exactly the outputs selected in the graph before the pass and links exactly their spenders |
| GraphStore.MoneyGraph.CollectOutputs | backend/app/services/clustering.py:79-90 | The optional match yields one row per output and spend of its address, or one row without a spend |
| GraphStore.MoneyGraph.ResolveClusters | backend/app/services/clustering.py:193-272 | Building rows, rewriting memberships and pruning yields the specification's clusters, whatever order the component stream has |
| GraphStore.MoneyGraph.ResolveAccounts | backend/app/services/clustering.py:201-225 | Merging a cluster and a membership for each active address creates the missing ones and changes no other |
| GraphStore.MoneyGraph.PruneEmptyClusters | backend/app/services/clustering.py:181-186 | Exactly the clusters of the chain without a member are deleted |
| GraphStore.MoneyGraph.RunClusteringPass | backend/app/services/clustering.py:275-283 | The three steps in order equal the transition `RunClustering` |
| GraphStore.ComponentKey | backend/app/services/clustering.py:153-154 | The first member of a sorted component names the key the specification defines as the smallest connected active member |
| ChangeHistory.SelectionIsStable | backend/app/services/clustering.py:76-105 | Whatever is written in between, two selections for one transaction select one output, because freshness can only be lost |
| ClusterInvariant.KeysAgree | backend/app/services/clustering.py:238-253 | Two active addresses get one key if and only if they are connected by SAME_OWNER edges |
| ClusterInvariant.ResolveUtxoKeepsInv | backend/app/services/clustering.py:153-186 | A UTXO pass keeps the cluster invariant |
| ClusterRuns.WriteIsARun | backend/app/services/graph_writer.py:294-308 | However records are cut into batches and in whatever order the chains are refreshed, an undisturbed write has the effect of merging all and refreshing the chains once |
| ClusterRuns.StepKeepsInv | backend/app/services/clustering.py:153-225 | Every batch, count refresh, tag seed, heuristic and resolver pass keeps the invariant: sound memberships, one cluster per address, true sizes |
| ClusterRuns.ClustersAreComponents | backend/app/services/clustering.py:142-186 | After any run ending in a UTXO pass each active Bitcoin address is in exactly one cluster, two share one if and only if connected, keys name the smallest member, sizes are true and no cluster is empty |
| ClusterRuns.ClusterMatesConnected | backend/app/services/clustering.py:155-176 | In every state, not only after a pass, addresses in one Bitcoin cluster are connected |
| ClusterRuns.ClustersOnlyCoarsen | backend/app/services/clustering.py:153-177 | Over any run, addresses once together stay together and an address's key never grows lexicographically |
| ClusterRuns.RunClusteringTwice | backend/app/services/clustering.py:275-283 | A second pass with no write between changes nothing |
| ClusterRuns.PassJoinsOwners | backend/app/services/clustering.py:47-105 | After a pass, co-spending addresses share a cluster, and so do a selected change output and the spenders of its transaction |
| ClusterRuns.OneChangeOutputEver | backend/app/services/clustering.py:76-105 | Over any interleaving of writes and passes at most one output of a transaction is ever selected as change |
| Evidence.OwnersAreJustified | backend/app/services/clustering.py:47-105 | Over any run two addresses are joined only if they were inputs of one Bitcoin transaction, or if one paid the other in one |
| Evidence.BitcoinLabels | backend/app/services/clustering.py:155-177 | After a Bitcoin pass a membership says common input exactly when its cluster has other members, and a cluster the pass creates says the same |
| Evidence.KeysInWords | backend/app/services/clustering.py:212-250 | In every sound state a Bitcoin member's cluster key is "btc:" and a connected address, an account's "eth:single:" or "tron:single:" and its own |
| Evidence.KeyIsSmallest | backend/app/services/clustering.py:153-154 | The key the specification gives an active Bitcoin address is "btc:" and the smallest active address connected to it |
| ChangeRule.ChangeRuleExactly | backend/app/services/clustering.py:76-105 | In a freshly written graph an output is taken for change if and only if its address is new with this transaction and does not fund it, while the other output's address funds it once, or does not and is not new; an address that funds it twice hides the change |
| ChangeRule.NoOtherChange | backend/app/services/clustering.py:77-80 | Nothing is selected on another chain or in a transaction that does not have two outputs |
| ClusterLimits.RewriteKeepsTheFlagExactly | backend/app/services/graph_writer.py:95-97 | After a change pass, writing a transaction again leaves the flag of a selected output set if and only if the connector sets it on that output too |
| ClusterLimits.RewriteIsIdempotentExactly | backend/app/services/graph_writer.py:275-282 | Rewriting a record already in the graph after a change pass changes nothing, as documented, if and only if the connector flags every output of it that the pass selected |
| ClusterLimits.FlagIsLostInARun | backend/app/services/graph_writer.py:95-97 | A concrete run, write, change pass, the same write, in which the flag is set and then lost |
| ClusterLimits.CountedExactly | backend/app/services/graph_writer.py:125-134 | Over any run, the count of an address is positive if and only if a refresh of its chain ran while the address existed, whether or not any transaction mentions it |
| ClusterLimits.ClusteredExactly | backend/app/services/clustering.py:203-218 | Over any run, a resolver pass leaves an address in a cluster if and only if it exists and has an edge or was counted by a refresh |
| ClusterLimits.SeededAddressIsClustered | backend/app/services/clustering.py:206-209 | Any seeded address no write mentions is clustered, without an edge, after one write of its chain and one pass, contrary to the comment |
| ClusterLimits.SeededIsNeverChange | backend/app/services/clustering.py:85-90 | An address the tag seed created never gets a first-seen time, whatever is written later, so it is never taken for change |
| Trace.TracePath | backend/app/services/tracing.py:79-111 | Every node's hop is its shortest distance whichever row inserted it; every link joins two nodes, from hop h to h + 1; nodes and links are exactly those on the rows' paths; a node with a row carries that row's entity and cluster; a node with a row carries that row's entity, cluster and role; each link shows transaction, amount and asset of the first step between its two addresses in its transaction |
| Trace.PrefixIsShortest | backend/app/services/tracing.py:98-101 | Along a shortest path the position of a node is its distance, which is why the index is the right hop |
| Trace.HopsCount | backend/app/services/tracing.py:98-111 | Walking along links raises the hop by one each step |
| Trace.LinksAreAcyclic | backend/app/services/tracing.py:98-111 | No walk along links returns to its start |
| Limiter.Counter.LocalHit | backend/app/middleware.py:178-189 | The dictionary update, window reset and pruning, and the count returned, as functions of the old dictionary |
| Limiter.TableIsFaithful | backend/app/middleware.py:178-189 | With nondecreasing time the dictionary agrees with one fixed window per key and forgets only windows that have ended |
| Limiter.CounterIsPerKey | backend/app/middleware.py:178-189 | The count any call returns is the one its own key's window gives, reads opening windows too: sharing and pruning are invisible |
| Limiter.TableIsBounded | backend/app/middleware.py:187-188 | Past 10,000 keys only windows still open are kept |
| Limiter.RateLimiter.Admit | backend/app/middleware.py:248-270 | The checks before the endpoint: lockout read first and without counting, then the general limit, which counts |
| Limiter.RateLimiter.Settle | backend/app/middleware.py:272-279 | Only a login answered 401 is counted as a failure |
| Lockout.LockoutBound | backend/app/middleware.py:256-277 | For a positive limit and over every interleaving with at most k logins of a client in flight, one window records at most auth_failures - 1 + k failures |
| Lockout.LockedOutAtLimit | backend/app/middleware.py:258-266 | With the limit reached and the window open no login gets through |
| Lockout.LockoutBoundIsAttained | backend/app/middleware.py:256-277 | The bound is met for every positive limit and every positive k, if the general limit admits the calls |
| Lockout.NoneInFlightNoneFail | backend/app/middleware.py:256-277 | With no login of a client ever in flight no failure of it is recorded |
| GeneralLimit.GeneralLimitBound | backend/app/middleware.py:268-270 | Over any run, in an open 60-second window of a client exactly the first `general` of the calls that reached the limit have got through |
| GeneralLimit.NextCallPassesExactly | backend/app/middleware.py:268-270 | After any run the next call of a client that is not locked out gets through if and only if fewer than `general` calls have asked since its window opened |
| GeneralLimit.LockedOutExactly | backend/app/middleware.py:256-266 | Only a login is ever locked out, and exactly when its open window holds the failures allowed |
| Frames.DecodeFrames | scripts/e2e_demo.py:151-174 | The loop terminates and equals the recursive decoder: the text payloads that parse, the rest of the buffer, whether a close frame was seen |
| Frames.Collect | scripts/e2e_demo.py:147-183 | The receive loop returns the messages among the payloads of all bytes received, those that are not JSON dropped and not counted, and reads chunks exactly until the first one after which there is a close frame or the limit is reached; with limit 0 it returns nothing |
| Frames.ChunksDoNotMatter | scripts/e2e_demo.py:151-174 | Decoding a + b is decoding a, then its remainder with b; after a close frame nothing more is read |
| Frames.HelloFrame | scripts/e2e_demo.py:151-174 | The unmasked example frame of section 5.7 of RFC 6455 decodes to its text |
| Frames.NetworkOrder | scripts/e2e_demo.py:154-161 | Extended lengths are read most significant byte first, at any width |
| Frames.ParsesBack | scripts/e2e_demo.py:152-166 | An encoded server frame parses back in all three length forms |
| Frames.DecodesFrames | scripts/e2e_demo.py:151-174 | Decoding an encoded frame list returns its text payloads up to the first close, with nothing left if there is none |
| Frames.AnyCutDecodes | scripts/e2e_demo.py:147-183 | Cutting such a stream anywhere, even inside a header, yields the same payloads |
| Exposure.TerminalTransfers | backend/app/services/exposure.py:378-410 | Arrivals if there are any, else the last step of each path, first transfer per key, in order |
| Exposure.FirstPerKeyMeans | backend/app/services/exposure.py:394-410 | What is kept: only transfers that landed, every key that landed, no key twice |
| Exposure.ExtractPathFeatures | backend/app/services/exposure.py:413-497 | All measurements equal their specification over the kept transfers and the paths: volume, largest transfer, counts, first and last arrival, median delay, continuity, labels, assets and an all-or-nothing rupee valuation; service type and route are those of the nearest row; no rows is an error |
| Exposure.QueriedAreConsistent | backend/app/services/exposure.py:175-234 | In rows read off the graph two landing transfers with one (txid, from, to) key are one edge, because the writer keeps one edge per transaction and pair |
| Exposure.FeaturesIgnoreRepeats | backend/app/services/exposure.py:378-497 | Duplicating or reordering the rows the queries return changes no measurement but the path count and the pooled delay |
| Exposure.FeaturesIgnoreOrder | backend/app/services/exposure.py:413-497 | Reordering them changes no measurement at all |
| Measurements.LandingMeans | backend/app/services/exposure.py:392-409 | If any row has arrivals exactly these landed, otherwise exactly the last step of each path that has one |
| Measurements.KeptMeans | backend/app/services/exposure.py:392-410 | One transfer is kept for each transaction, sender and receiver that landed, and none twice |
| Measurements.MedianMeans | backend/app/services/exposure.py:488 | The median of an odd number of delays has at most half of them on either side; of an even number it is the mean of the two such values; of none there is none |
| Measurements.DelayIsPooled | backend/app/services/exposure.py:461-488 | The median delay is that of the delays of all paths together, and missing exactly if no path has two stamps |
| Measurements.SeenMeans | backend/app/services/exposure.py:454-459 | First and last seen are the smallest and largest time of a kept transfer, and missing exactly if none has a time |
| Measurements.GapsMean | backend/app/services/exposure.py:464-469 | Between consecutive stamps the delay is their distance, whichever is later |
| Measurements.FeaturesMean | backend/app/services/exposure.py:475-497 | Hop is the least and label confidence the greatest of the rows, continuity holds exactly if no path runs backwards, sources are the nonempty ones, and the age is that of the last arrival |
| Measurements.MeasuresMean | backend/app/services/exposure.py:424-452 | Largest transfer, count, whether assets are mixed, and that a rupee valuation exists exactly if every transfer has a price |
| Measurements.MeasuresAdd | backend/app/services/exposure.py:424-452 | No transfer measures nothing, and one more adds its amount to the volume, its quote to the valuation and, if its sender is new, a counterparty |
| Measurements.FirstAssetMeans | backend/app/services/exposure.py:492 | The asset shown arrived and is alphabetically first |
| Ranking.SourceTrustIsBest | backend/app/services/exposure.py:572-575 | The trust used is attained by one of the sources and exceeded by none |
| Ranking.PricedPartFacts | backend/app/services/exposure.py:602-613 | The rupee scale is 0 below the dust floor, 1 from saturation on, and never falls |
| Ranking.TrustByRank | backend/app/services/exposure.py:533-575 | Which source decides, by name and in order, with 0.6 for unknown or no sources and 0.4 for the classifier alone |
| Ranking.ProximityHalves | backend/app/services/exposure.py:600 | One hop counts in full and every two hops further halve proximity |
| Ranking.RupeeScaleIsLogarithmic | backend/app/services/exposure.py:607-611 | Between dust and saturation, multiplying `1 + rupees / 1000` adds up the parts |
| Ranking.VolumeScale | backend/app/services/exposure.py:602-617 | Unpriced, a volume counts as its share of the largest; priced, rivals do not matter |
| Ranking.RecencyHalves | backend/app/services/exposure.py:619-623 | A transfer arriving now counts in full, each week halves it, and without a time it counts nothing |
| Ranking.FrequencyAndContinuity | backend/app/services/exposure.py:625-626 | A tenth for each transfer up to ten; 0.4 for a route that runs backwards in time |
| Ranking.LabelCounts | backend/app/services/exposure.py:627 | A label counts with its confidence, in full from a legal designation, by three fifths without a source, by two fifths from the classifier alone |
| Ranking.ScoreCandidates | backend/app/services/exposure.py:578-675 | Scoring, the displayed rows with raw values, the volume basis, sorting and rank assignment equal the specified ranked list, empty input included |
| Ranking.RankingIsSorted | backend/app/services/exposure.py:670-675 | The ranked list holds each candidate's score once, scores never rise, equal scores come nearest first and then by name, and ranks run 1, 2, 3 |
| Ranking.RankingIgnoresOrder | backend/app/services/exposure.py:670-675 | Any permutation of candidates with distinct services gives the same ranked list |
| Ranking.PricedScoreIgnoresRivals | backend/app/services/exposure.py:584-589 | A priced candidate has the same score and breakdown among any rivals |
| Ranking.StrongerNeverScoresLower | backend/app/services/exposure.py:600-646 | A priced candidate at least as strong in every feature never scores lower |
| Ranking.ScoreInUnit | backend/app/services/exposure.py:598-646 | Scores lie between 0 and 1 |
| Ranking.ContributionsAddUp | backend/app/services/exposure.py:646-657 | The displayed contributions, in their displayed order, sum to within 0.00035 of the displayed score |
| Ranking.RowsShown | backend/app/services/exposure.py:637-657 | The six rows, each with its measurement, normalised value, weight and contribution, shown by falling contribution |
| Ranking.BasisTellsThePrice | backend/app/services/exposure.py:613-617 | The volume basis is "INR" exactly for a priced candidate and otherwise starts with the asset |
| Investigation.GroupByService | backend/app/services/exposure.py:500-505 | Services in order of first appearance, each with exactly its own rows in order |
| Investigation.ServicesInOrder | backend/app/services/exposure.py:500-505 | Each service stands at the row where it first appears, and these rows rise |
| Investigation.RowsOfInOrder | backend/app/services/exposure.py:500-505 | The rows of a service are those at exactly its places, in rising order |
| Investigation.RowsOfCount | backend/app/services/exposure.py:500-505 | Grouping keeps every row, with its multiplicity, in the group of its service and nowhere else |
| Investigation.CandidatesAreDistinct | backend/app/services/exposure.py:740 | The candidates that reach the ranking have distinct service names |
| Investigation.RankServices | backend/app/services/exposure.py:740-741 | Grouping, measuring and ranking compose to the ranked list of the candidates |
| Investigation.AnalysisIgnoresRowOrder | backend/app/services/exposure.py:670-741 | For rows read off the graph the whole analysis gives the same ranked list in whatever order they are returned |
| Investigation.EveryScoreInUnit | backend/app/services/exposure.py:578-668 | Every ranked service scores between 0 and 1 when label confidences are fractions and amounts are not negative |
| Freeze.Workflow.Admit | backend/app/deps.py:29-68 | An unknown or inactive account gets 401, and where an approver is required any other role 403 |
| Freeze.Workflow.RecordAudit | backend/app/deps.py:90-110 | Exactly one entry is appended |
| Freeze.Workflow.Create | backend/app/api/v1/freeze.py:97-130 | A new request is a draft of the caller's, logged without an id; an unknown case is 404 |
| Freeze.Workflow.Submit | backend/app/api/v1/freeze.py:133-151 | Draft to pending, else 404 or 409 with nothing changed |
| Freeze.Workflow.Approve | backend/app/api/v1/freeze.py:154-195 | Pending to approved by an approver other than the requester; the refusals in the code's order (401, 403, 404, 409, 403) change nothing |
| Freeze.Workflow.Reject | backend/app/api/v1/freeze.py:198-220 | Pending or draft to rejected, recording the decider |
| Freeze.Workflow.Dispatch | backend/app/api/v1/freeze.py:223-253 | Approved to dispatched by an approver; 401, 403, 404 and 409 change nothing |
| Freeze.LegalWords | backend/app/api/v1/freeze.py:1-21 | A list of actions can be replayed if and only if it is a prefix of submit, approve, dispatch, or reject, or submit, reject |
| Freeze.LogReplays | backend/app/api/v1/freeze.py:97-253 | After any run with changing roles, every request's status and decider are the replay of its audit entries, and these spell a legal word |
| Freeze.ApprovedByAnotherOfficer | backend/app/api/v1/freeze.py:154-195 | An approved or dispatched request has on record an approver who, at the step of approval, was active, held an approving role and was not the requester |
| Freeze.ApprovedOnce | backend/app/api/v1/freeze.py:154-195 | A request is approved by at most one step of a run |
| Freeze.RequesterAloneNeverApproves | backend/app/api/v1/freeze.py:172-179 | While only the requester tries to approve it, a request is never approved, whatever roles the requester is given |
| Freeze.DecisionsByOfficers | backend/app/api/v1/freeze.py:133-253 | After any run every entry about a freeze request was written by a step whose actor was at that moment an active account, and for approvals, rejections and dispatches a supervisor or admin |
| Freeze.Outcomes | backend/app/api/v1/freeze.py:133-253 | For each step, exactly when a caller sees 401, 403, 404, 409 or success, and that a refusal changes nothing |
| Freeze.CreateOutcomes | backend/app/api/v1/freeze.py:97-130 | A draft is made exactly for an active account and a known case, with the given case and target and the caller as requester; 401 comes before 404, and either changes nothing |
| Freeze.DraftedByRequester | backend/app/api/v1/freeze.py:97-130 | After any run every request was drafted by its requester, active at that moment, for a case known then, as what it still asks for |
| Freeze.DecisionOnRecord | backend/app/api/v1/freeze.py:154-220 | After any run a draft or pending request carries no decision; any other carries who decided, when, and for a rejection why, as the deciding step of an active officer gave them |
| Freeze.RequestsKeepTheirFacts | backend/app/api/v1/freeze.py:97-253 | No request goes away, and case, target and requester never change |
| Risk.CurveStep | backend/app/services/risk.py:122-124 | The curve stays in 0 to 100, never falls, and m points use at most m / 60 of the room left above |
| Risk.SquashMonotone | backend/app/services/risk.py:122-124 | Displayed scores lie in 0 to 100 and more points never lower one, rounding included |
| Risk.Displacement | backend/app/services/risk.py:122-124 | m points move a displayed score by at most 100 * m / 60 + 0.01 |
| Risk.LowNeverTurnsHigh | backend/app/services/risk.py:107-124 | No amount up to 29 points turns a displayed low into a displayed high |
| Risk.SixPointsCanMoveALabel | backend/app/services/risk.py:293-297 | Six points do turn some low into medium and some medium into high |
| Risk.ContributionGrows | backend/app/services/illicit_model.py:195-217 | Classifier points are never negative and never fall with the flag count |
| Risk.CapHoldsExactly | backend/app/services/illicit_model.py:195-217 | The points stay within the artifact's cap for every count if and only if the cap is nonnegative and does not round up in its third decimal; a cap of 6 does not |
| Risk.ClassifierCannotDecide | backend/app/services/risk.py:36-44 | With any cap up to 28.5, however many transactions are flagged, the classifier alone never turns low into high |
| Risk.EachFlagHalvesTheRest | backend/app/services/illicit_model.py:195-217 | The first flagged transaction earns half the cap and each further one half of what is left, to three decimals; a model that did not load earns nothing |
| Risk.ScoreEntity | backend/app/services/risk.py:252-343 | Score, label, case ids, factors and the breakdown sorted by points, ties in case order, are those of the accumulated cases, bonuses and classifier points; it raises exactly when the classifier adds points and its precision is unknown |
| Risk.BreakdownIsComplete | backend/app/services/risk.py:319 | The sorted breakdown holds every counted case once, points never rise, and ties keep the order of the cases |
| Risk.NothingToShow | backend/app/services/risk.py:316-317 | The factor "no reported cases" stands alone if and only if no case, bonus or classifier point counted, and the score is then 0 |
| Risk.AccumulateCases | backend/app/services/risk.py:252-276 | The loop skips unknown and undated cases and otherwise adds the decayed points and one breakdown row |
| Risk.PointsIgnoreOrder | backend/app/services/risk.py:252-263 | The order in which cases are returned does not matter |
| Risk.MoreCasesNeverLower | backend/app/services/risk.py:252-313 | One more case never lowers the score |
| Risk.HitCounts | backend/app/services/risk.py:252-276 | A known and dated case adds its decayed points and one row: case, report time, age in days, weight to four places, points to three, terminal and amount |
| Risk.FreshCaseIsTenPoints | backend/app/services/risk.py:252-262 | A case reported less than a day ago, dated in the future, or without a half-life is worth ten points; an unknown or undated one nothing |
| Risk.CasesHalve | backend/app/services/risk.py:115-119 | One half-life later every case reported by now is worth half as much |
| Risk.AgeInDays | backend/app/services/risk.py:260 | Ages are whole days rounded down, and the future counts as today |
| Risk.WhatIsAdded | backend/app/services/risk.py:285-313 | A mixer adds 8 points, the sanctions list 40, the classifier what it contributes |
| Risk.SanctionedIsNeverLow | backend/app/services/risk.py:107-124 | A sanctioned destination is never labelled low, whatever else is known of it |
| Risk.FewPointsAreLow | backend/app/services/risk.py:107-124 | Fewer than 24 points are low, so a mixer with one reported case is |
| Risk.SixtyPoints | backend/app/services/risk.py:69 | At the saturation constant the score is at most 75, not about 81 as the comment says |
| Risk.FactorsMean | backend/app/services/risk.py:277-317 | Each factor is shown exactly for its reason |
| Risk.Reconstructable | backend/app/services/risk.py:20-25 | Recomputing from the displayed, rounded breakdown lands within 100 * 0.0005 * n / 60 + 0.01 of the displayed score of n rows |

## Left out

- Character sets: case mapping is ASCII; Unicode characters whose case mappings leave or enter ASCII are not modelled.
- Base58Check, EIP-55, URI prefixes and the dispatch between address families: uninterpreted digests and string surgery.
- TransferPairs: Decimal and float rounding is not modelled, shares are exact reals.
- WriteTransactions: takes records already paired with source and probability; display symbols are identified with asset keys, and token contract, transfer type, model version, the display spelling of an address (first writer wins) and creation and update times are not fields, and source lists are sets.
- WriteOrderDoesNotMatter: needs records with one chain and txid to be equal, which one TronGrid call can already violate, since it yields a record per token transfer; `SameTransactionCommutesExactly` says when such records commute.
- ResolveClusters: the graph-algorithms library is a parameter (`WccStream`: its sorted groups are the components of the active addresses in any order); the projection statements are part of it, and a pass is one atomic step.
- ApplyCommonInputOwnership: `txid` and `created_at` of an owner edge are not stored, and the returned counts are not modelled.
- ClusterRuns.StepKeepsInv: deleting the graph or test data is not a step; those operations break monotonicity on purpose. A cluster's `heuristic` is set on creation only, as in the code.
- docs/schema.md says the change heuristic compares script types and that account chains get transfer edges only; the code does neither, and the model follows the code.
- Expand: a connector failure counts as an address without successors, so exactness is relative to what the connector returned; per-call transaction limits are the connector's; `complete` is sufficient, not necessary, since the level cap may drop only addresses already seen.
- Risk: the module text multiplies a case's points by a severity and lists only the mixer bonus; the code has no severity and adds a sanctions bonus, and the model follows the code.
- TracePath: the rows are assumed to be shortest paths ordered by hop, as the query asks; time stamps, edge sources, the sorted node list and terminal and sink queries are not modelled.
- LockoutBound: with a limit of 0 the code admits no login at all, and the formula does not apply.
- LocalHit: the Redis path, forwarded-for parsing and response headers are not modelled; the client key is a parameter.
- Collect: the handshake, the deadline and socket errors are not modelled; which payloads are JSON is a parameter, and a payload that is not UTF-8, on which the source raises, counts as not JSON.
- ExtractPathFeatures: the price feed is a function of the arrival, and a missing txid is not distinguished from an empty one.
- ScoreCandidates: scores are exact reals rounded half to even.
- RankServices: the direct-exposure branch is a single sorted query and is left out.
- Freeze.Workflow.Approve: each endpoint call is one atomic step; two calls overlapping between check and commit, request validation, entity look-up, token decoding, payload and address columns of the audit log and cascading deletes are not modelled.
- ScoreEntity: the reachability query, persistence and the wording of factors and explanation are not modelled.
- AccumulateCases: ages are whole days of second-resolution time stamps.
- HTTP clients, indexer payloads, price feeds, streams, PDF and report text, the frontend, model training and inference, authentication libraries and migrations: input, output and library code.
