# Verified core of the ledger's shared libraries

A Dafny model of the stateful logic behind six components: channel configuration updates,
signature policies, tree permutations for discovery, the discovery authorisation cache, the sparse
organisation chains of the orderer, and two small state machines (block delivery and logger
levels). Code that changes things step by step is a class or a method with loops, proved against a
specification function; what the code promises is then proved of that function for all inputs, or
of a step system for every run.

| files | what they hold |
|---|---|
| `ConfigTree`, `ConfigMap`, `ConfigUpdate`, `ConfigPolicies` | config trees, flattening and rebuilding, the checks on an update, whose policy is asked |
| `ConfigGuarantees`, `ConfigAcceptance` | accepted updates: closure, authorisation of every change, which updates are accepted and what comes of them, over the trees alone |
| `ConfigHistory`, `ConfigReach` | replay, whole histories, which trees can be reached |
| `SignaturePolicies`, `SignedIdentities`, `MoreSigners`, `PolicyConversion` | the evaluator, de-duplication of signers, when a further signer cannot hurt, merging of sub-policies |
| `Combinations`, `TreePermutations`, `TreeEnumeration` | k-of-n choice and the enumeration, on values |
| `TreeHeap`, `TreePruning`, `TreePermuter` | the same on a heap of shared, mutated vertices |
| `AuthCache` | the access cache and its interleavings |
| `SparseRouting`, `SparseChain`, `SparseRuns` | routing, extending and storing the chains, what every reachable state keeps |
| `SparseServing`, `SparseSwitch`, `SparseConservation`, `SparseConfig`, `SparseFilters` | what is served, when nothing is served twice, that nothing routed is lost, the last-config metadata and the filters |
| `SparseGenerator`, `SparseCatchUp`, `SparseReader` | the generator, its main loop, the reading side |
| `Deliver` | the delivery loop with its access control |
| `LoggerLevels`, `LoggerTexts` | logger levels; which texts are specifications, what they mean and how they print |
| `Common`, `Texts` | shared datatypes; splitting and joining texts |

Conventions. Marshalling is the identity on datatypes. Hashes, signatures, principal matching,
envelope decoding and policy lookup are arbitrary functions handed in. A Go panic or error return
is `None`, `Err` or a false `ok`. Ghost parameters and results (such as the `Node` describing which
vertices a tree occupies) carry proofs only.

Where the code does not do what one would expect, the model follows the code:

- An update whose delta has only new keys is accepted without a signature, can be replayed any
  number of times and changes nothing (`ConfigReach.UnsignedUpdateIsAccepted`,
  `ConfigHistory.ReplayedForEver`), except that the first time it can set off the mod_policy upgrade
  (`ConfigHistory.OnlyNewKeysUnchangedWhen`).
- Adding a valid signer can turn an accepting policy into a rejecting one
  (`MoreSigners.AddingASignerCanReject`). It cannot where a gate that asks for two or more only
  stands last among its siblings, or all siblings are asked for (`MoreSigners.SignerNeverHurts`,
  with the shape made precise by `Orderly`). Steady policies, those whose gates ask for at most one,
  are exactly the ones that may stand before other rules (`MoreSigners.SteadyExactlyWhen`).
- Signers are told apart by MSP and id run together. With ids of one length that loses nobody
  (`SignedIdentities.ListedUnderOneHash`); with ids from two hash functions the second of two
  signers can be dropped (`SignedIdentities.TwoHashesCanCollide`).
- The access cache is bounded exactly when a purge evicts something
  (`AuthCache.SizeBoundedExactlyWhen`); with a retention ratio that rounds to everything it grows
  without limit.
- A fat block stops the generator exactly if one of its envelopes does not decode, or it is not a
  config block and involves an organisation without a chain (`SparseRuns.PanicsExactlyWhen`). The
  switch to sparse chains serves envelopes twice exactly if the fat ledger has moved past a block
  that is still to be cut into something (`SparseSwitch.SwitchIsClean`).
- The printed form of a logging specification activates the same specification exactly if it holds
  no payload level, for which the logging library has no name (`LoggerTexts.PrintingRoundTrip`).
- Access control remembers that it has asked, not what the answer was: after a failed check the
  next look is granted (`Deliver.FailureIsNotRepeated`). The delivery loop is safe because it ends
  at the first failure (`Deliver.DeliveryIsSecured`).

## Model

| member | source | states |
|---|---|---|
| ConfigTree.AddressesAreLookups | common/configtx/configmap.go:74-102 | the finite set of addresses of a tree holds exactly those under which something is found |
| ConfigTree.ValidConfigIDs | common/configtx/validator.go:48-68 | an id passes exactly when it is 1 to 249 allowed characters and neither `.` nor `..`, although the code compares a regular-expression match with the whole |
| ConfigTree.SlashedInjective | common/configtx/configmap.go:44-71 | joining names that hold no separator loses nothing |
| ConfigTree.KeysAreDistinct | common/configtx/configmap.go:43-71 | two elements, of one tree with legal keys or of two, share a flattened path only if they are at the same address |
| ConfigMap.FlattenAt | common/configtx/configmap.go:74-102 | every element of a legal tree is stored under its key, with its own content and path |
| ConfigMap.FlattenFrom | common/configtx/configmap.go:74-102 | every key of the map belongs to an element of the tree; nothing else is stored |
| ConfigMap.Flattener.AddToMap | common/configtx/configmap.go:44-71 | an element is stored under prefix and path if its key is legal, and otherwise nothing changes |
| ConfigMap.Flattener.RecurseConfig | common/configtx/configmap.go:74-102 | the recursion into the shared map succeeds exactly for legal keys, adds only elements of the tree and, when it succeeds, all of them |
| ConfigMap.ComputeMapConfig | common/configtx/configmap.go:32-41 | the shared-map recursion yields exactly the flattened tree, or an error exactly if a key is illegal |
| ConfigMap.RecurseConfigMap | common/configtx/configmap.go:112-157 | the in-place rebuilding terminates on every map, also a cyclic-looking one, and computes the rebuilt tree or the error |
| ConfigMap.Upgrade | common/configtx/configmap.go:166-187 | only empty mod_policies of the group, its values and its policies change, and they become Admins |
| ConfigMap.RebuildExtension | common/configtx/configmap.go:112-190 | from any map that extends a flattened legal tree, that tree comes back, up to the mod_policy upgrade |
| ConfigMap.UpgradeApplies | common/configtx/configmap.go:159-166 | the upgrade test on the flat map holds exactly for a tree rooted at Channel with the orderer's capabilities value |
| ConfigMap.RoundTrip | common/configtx/configmap.go:32-190 | flattening and rebuilding a legal tree gives the same tree, with empty mod_policies set to Admins exactly when the capabilities value is present |
| ConfigMap.SettlingNothing | common/configtx/configmap.go:166-187 | without the upgrade the rebuilt tree is the tree itself |
| ConfigUpdate.ComputeDeltaSet | common/configtx/update.go:32-46 | the loop keeps exactly the write-set items that are not read at the same version |
| ConfigUpdate.ComputeUpdateResult | common/configtx/update.go:193-203 | the two loops build the overlay of the delta on the current map |
| ConfigUpdate.ComputeProposal | common/configtx/validator.go:136-159 | the loops composed give the specified proposal, errors included |
| ConfigUpdate.ValidChannelIDs | common/configtx/validator.go:82-99 | a channel id passes exactly when it is 1 to 249 lower-case letters, digits, dots and dashes and starts with a letter, although the code compares a regular-expression match with the whole |
| ConfigPolicies.AsksTheNamedPolicy | common/configtx/update.go:161-190 | for every element, the policy asked is the one its address and mod_policy name: a relative name in the manager reached by walking down the names of the element's own group, an absolute one in the root's |
| ConfigPolicies.ModPolicyForms | common/configtx/update.go:48-65 | a mod_policy is legal exactly if it is a path of one or more legal names, with or without a leading slash |
| ConfigGuarantees.RebuildClosed | common/configtx/configmap.go:112-157 | rebuilding cannot fail on a map in which every listed member is present with its kind |
| ConfigGuarantees.AcceptedExactlyWhenChecksPass | common/configtx/update.go:104-158 | an update is accepted exactly when its read-set, delta and policy checks pass: the full-proposal check and the rebuilding never fail after them; the sequence moves on by one |
| ConfigAcceptance.AcceptedExactlyWhen | common/configtx/update.go:18-158 | for any trees read and written: an update is accepted exactly if it is for this channel with legal keys, everything read is there at the version read, something is written, and whatever is written is new at version zero or moves to the next version with its old mod_policy satisfied, under a legal mod_policy |
| ConfigAcceptance.StaleReadIsRejected | common/configtx/update.go:18-30 | a read set with any element that has moved on or is not there is rejected |
| ConfigAcceptance.ResultExactly | common/configtx/configmap.go:112-157 | after an accepted update a path exists exactly if every group on the way, as written or else as it was, lists the next name, and then it says what was written or else what was there, up to the mod_policy upgrade |
| ConfigAcceptance.UpgradedExactlyWhen | common/configtx/configmap.go:159-166 | the mod_policy upgrade is set off exactly on a tree rooted at Channel whose capabilities value was there or is written, even if no group lists it |
| ConfigGuarantees.NewValidatorIsValid | common/configtx/validator.go:102-129 | a validator is made exactly for a present config with a legal channel id and legal keys, and then its map is the flattened tree |
| ConfigGuarantees.ValidateMatchesPropose | common/configtx/validator.go:162-196 | validation accepts an envelope exactly when its config is what proposing its last update yields |
| ConfigGuarantees.Descend | common/configtx/configmap.go:112-157 | at every path the rebuilt tree says what the old one said, or some element on the way down was in the delta and moved one version on |
| ConfigGuarantees.ChangesAreAuthorised | common/configtx/update.go:67-190 | if anything changes, appears or vanishes at a path under an accepted update, the element or a group above it existed, moved to exactly the next version and had its old mod_policy, as its address names it, satisfied by the signatures, apart from the mod_policy upgrade |
| ConfigHistory.UpdatedIsLegal | common/configtx/configmap.go:112-157 | the tree of an accepted update again has legal keys, so the next validator can be made |
| ConfigHistory.OnlyNewKeysChangeNothing | common/configtx/configmap.go:112-157 | a delta of only new keys leaves the tree as it was, up to the mod_policy upgrade: keys no group lists are dropped |
| ConfigHistory.OnlyNewKeysUnchangedWhen | common/configtx/configmap.go:159-187 | such an update leaves the tree literally unchanged exactly when the overlay has no capabilities value or no mod_policy is empty |
| ConfigHistory.StillReachable | common/configtx/configmap.go:112-157 | an element that was both written and there before is in the rebuilt tree, at the version of the overlay |
| ConfigHistory.BumpedIsReachable | common/configtx/update.go:67-102 | every existing element in an accepted delta is reachable in the new tree at its new version |
| ConfigHistory.Replay | common/configtx/update.go:18-102 | submitting an accepted update again on its own result is rejected exactly when it bumped an existing element |
| ConfigHistory.ReplayedForEver | common/configtx/update.go:18-102 | an accepted update of only new keys is accepted any number of times in a row on its own results, still names only new keys, and leaves the tree alone after the first time |
| ConfigHistory.HistoryIsAuthorised | common/configtx/validator.go:136-159 | over any number of accepted updates the sequence counts them, and every path says what it first said unless some update on the way made an authorised bump on it or above it |
| ConfigReach.RebuildTold | common/configtx/configmap.go:112-157 | a map that gives every element of a tree its own content is rebuilt to that tree, whatever other keys it holds and whatever its group entries say of nested members |
| ConfigReach.WholeTreeIsReached | common/configtx/validator.go:136-159 | writing a whole legal tree that bumps what it changes is accepted exactly if every bump is to the next version, every new element is at zero and the old mod_policies accept the signatures, and then the new config is that tree, up to the mod_policy upgrade |
| ConfigReach.NewValueIsAccepted | common/configtx/update.go:67-158 | on every configuration and with any signatures, writing a new value under the root without a new root version is accepted and names only new keys |
| ConfigReach.UnsignedUpdateIsAccepted | common/configtx/update.go:67-158 | an instance: a validator and an unsigned update that is accepted and leaves its tree as it was |
| SignaturePolicies.CompilePolicy | common/cauthdsl/cauthdsl.go:24-92 | the recursive loop compiles every rule in order and fails exactly if one of them does, on a nil policy, an unknown type or an index outside the principals |
| SignaturePolicies.EvaluateInPlace | common/cauthdsl/cauthdsl.go:40-60 | the closures, with their copy and rollback of the flag array, give the specified verdict and leave the specified flags |
| SignaturePolicies.EvaluateLeaf | common/cauthdsl/cauthdsl.go:66-88 | a leaf takes the first unused identity that satisfies its principal and sets just its flag |
| SignaturePolicies.AcceptanceIsWitnessed | common/cauthdsl/cauthdsl.go:40-88 | acceptance gives a satisfied part of the tree whose leaves are held by different, previously unused identities, and the newly set flags are exactly theirs, whatever failed and was rolled back |
| SignaturePolicies.RulesAreWitnessed | common/cauthdsl/cauthdsl.go:43-51 | the same for the rules of a gate, also when the gate fails: as many are held as were counted |
| SignaturePolicies.GreedyIsPlain | common/cauthdsl/cauthdsl.go:40-88 | where no identity satisfies two leaf occurrences, the verdict is the plain threshold value of the tree, for any nesting and order |
| SignaturePolicies.GreedyIsSound | common/cauthdsl/cauthdsl.go:40-88 | without that condition, it still never accepts what the plain value rejects |
| SignaturePolicies.CompilesExactlyWhen | common/cauthdsl/cauthdsl.go:24-92 | a policy compiles exactly if all its rules are of a known type and all its indices name a principal |
| SignaturePolicies.CompiledAsksTheSame | common/cauthdsl/cauthdsl.go:24-92 | the compiled policy asks for what the policy as written does: the principal each index names, and at least n of the rules of each gate |
| SignedIdentities.SignatureSetToValidIdentities | common/policies/policy.go:363-395 | the loop keeps exactly the first verified signature of every key, in order |
| SignedIdentities.IdentifiersAreDistinct | common/policies/policy.go:374-381 | no two identities kept have the same MSP and id |
| SignedIdentities.EveryVerifiedKeyIsListed | common/policies/policy.go:367-392 | no verified signer is lost: a bad signature under the same key, before or after, does not hide it |
| SignedIdentities.KeysOfOneLength | msp/identities.go:69-82 | ids of one length, as one hash function makes them, share a key exactly with their own MSP and id |
| SignedIdentities.ListedExactlyWhen | common/policies/policy.go:363-395 | a verified signer is listed under its own identifier exactly if, where it first signs, no verified signature before it has its key under another identifier |
| SignedIdentities.ListedUnderOneHash | common/policies/policy.go:363-395 | with ids of one length every verified signer is listed |
| SignedIdentities.TwoHashesCanCollide | common/policies/policy.go:363-395 | with ids of 96 and of 64 digits, in MSPs whose names make up for the difference, the second of two verified signers is dropped |
| SignedIdentities.EvaluateIdentities | common/cauthdsl/policy.go:98-108 | evaluation starts from unset flags; a nil policy rejects |
| SignedIdentities.EvaluateSignedData | common/cauthdsl/policy.go:86-94 | de-duplication then evaluation |
| SignedIdentities.AcceptedSetIsWitnessed | common/cauthdsl/policy.go:86-108 | an accepted signature set has, for some satisfied part of the policy, a different signer with a different identifier for every leaf, whose signature over its data the membership service verifies |
| SignedIdentities.AcceptanceIsPlain | common/cauthdsl/policy.go:98-108 | end to end, the verdict is the plain threshold value where no identity holds two leaves |
| SignedIdentities.AcceptanceIsMet | common/cauthdsl/policy.go:86-108 | an accepted signature set meets the policy as it was written, and where no identity holds two leaves it is accepted exactly if it does |
| MoreSigners.UsedIsAbsent | common/cauthdsl/cauthdsl.go:40-88 | for any policy, an identity flagged as used from the start makes no difference to one that is not in the list |
| MoreSigners.SteadyRulesFreed | common/cauthdsl/cauthdsl.go:43-51 | over leaves and gates that ask for at most one, freeing identities never lowers the count and never leaves fewer of them unused |
| MoreSigners.OrderlyFreed | common/cauthdsl/cauthdsl.go:40-88 | freeing identities never makes an orderly policy reject: one whose gates have only steady rules before the last, or only firm ones where all are asked for, or ask for at most one |
| MoreSigners.SignerNeverHurts | common/cauthdsl/cauthdsl.go:40-88 | an orderly policy, for any membership service, stays satisfied when a signer is inserted anywhere in the list |
| MoreSigners.SignerNeverHurtsOneLeaf | common/cauthdsl/cauthdsl.go:40-88 | any policy does, if with the new signer no identity satisfies two leaves |
| MoreSigners.SignatureNeverHurts | common/cauthdsl/policy.go:86-108 | the same end to end: an accepted set of signatures stays accepted when one is added, valid or not, new or not |
| MoreSigners.NotSteadyHurts | common/cauthdsl/cauthdsl.go:40-88 | for every proper policy with different principals that is not steady, signers exist for which a gate that tries it first stops accepting when one more signs |
| MoreSigners.SteadyExactlyWhen | common/cauthdsl/cauthdsl.go:40-88 | so exactly the steady policies may stand before another rule without any membership service and signer list being hurt by a further signer |
| MoreSigners.AddingASignerCanReject | common/cauthdsl/policy.go:86-108 | an instance at the entry point, for any three identities with different keys: two signatures are accepted, the same two and a third are not |
| PolicyConversion.KeysDetermineMeaning | common/policies/convert.go:64-86 | equal merge keys mean equal principals, except among classifications without a name |
| PolicyConversion.UnnamedKeysCollide | common/policies/convert.go:64-86 | two different principals without a classification name and one key |
| PolicyConversion.AbsorbPlaces | common/policies/convert.go:61-88 | merging only appends principals, and sends every new one to a position holding its key |
| PolicyConversion.Conversion.MergeIn | common/policies/convert.go:61-94 | the two loops and the renumbering change the envelope in place as specified, or fail where the code panics |
| PolicyConversion.ConvertPolicy | common/policies/convert.go:98-129 | the loop over sub-policies yields the specified conversion, errors included |
| PolicyConversion.SimilarEvaluate | common/cauthdsl/cauthdsl.go:40-88 | policies equal up to principals no membership service accepts give the same verdict and flags |
| PolicyConversion.CompileExtended | common/cauthdsl/cauthdsl.go:61-65 | appending principals never changes what a rule compiles to |
| PolicyConversion.RemapCompiles | common/policies/convert.go:21-56 | a renumbered rule compiles over the merged principals, to a tree of the same meaning |
| PolicyConversion.MergeKeepsMeaning | common/policies/convert.go:61-129 | merging any list of compilable policies never panics, and every rule keeps its meaning under all later merges |
| PolicyConversion.ConversionSucceeds | common/policies/convert.go:98-129 | conversion succeeds exactly if every policy reached can be converted, and its result compiles |
| PolicyConversion.MergedPrincipals | common/policies/convert.go:61-88 | the principals of merged policies are those of the policies, each key once |
| PolicyConversion.ConversionKeepsMeaning | common/policies/convert.go:98-129 | a converted policy is, up to principals no membership service accepts, the tree of its signature policies as they are under the thresholds of its meta policies |
| PolicyConversion.ConvertedEvaluates | common/policies/convert.go:98-129 | so it gives the verdict and the flags of that tree, from any flags |
| PolicyConversion.ConvertedIsMet | common/policies/convert.go:98-129 | it accepts only where at least threshold many sub-policies are met at every level, and where no identity holds two leaves exactly there |
| PolicyConversion.ConvertedRuleEvaluates | common/policies/convert.go:98-129 | every rule of a converted policy gives the verdict and flags of what its own sub-policy stands for, from any flags |
| PolicyConversion.ConvertedAcceptance | common/policies/convert.go:98-129 | an accepting converted policy has at least threshold many satisfied sub-policies, each read as it stands before conversion, and no signer serves two of them |
| Combinations.Choose | common/graph/choose.go:50-65 | the recursion appends to the shared set exactly the completions of the current subgroup, in order |
| Combinations.ComputeChooseKOutOfN | common/graph/choose.go:40-48 | the listed choices are the specified ones |
| Combinations.ChooseKOutOfNIsExact | common/graph/choose.go:40-65 | exactly the increasing k-lists of indices below n are listed, each once |
| Combinations.ChooseFromCount | common/graph/choose.go:29-65 | the binomial coefficient the bound is compared with is the number of choices listed |
| Combinations.BinomialAll | common/graph/choose.go:29-38 | as many elements as are chosen give one combination, so a bound of one stops the pruning in time |
| Combinations.ExceedExactlyWhen | common/graph/choose.go:29-38 | the test fires exactly if there are enough elements and more choices would be listed than the bound |
| Combinations.Prune | common/graph/perm.go:114-119 | for every bound, random pruning keeps order, drops nothing if the choices listed are within the bound and no more than is needed otherwise: one element more would list too many; with a bound of at least one it never goes below the threshold, with a smaller one it ends exactly one below, and it fails exactly if the bound is smaller and the threshold zero |
| TreeEnumeration.StepIsExact | common/graph/perm.go:57-89 | one turn at a vertex takes the exact list of partly expanded trees to the exact list with that vertex expanded, without repetitions |
| TreeEnumeration.FrontierStep | common/graph/tree.go:135-144 | the breadth-first queue always holds, once each, the vertices that come next |
| TreeEnumeration.PermuteIsExact | common/graph/perm.go:43-97 | for unique ids, exactly the trees that pick threshold many descendants, in order, at every kept non-leaf vertex are listed, each once |
| TreeEnumeration.EnoughMeansSome | common/graph/perm.go:43-97 | enough descendants everywhere give at least one permutation |
| TreeHeap.TreeVertex.Find | common/graph/tree.go:55-65 | a vertex of the tree with the id is found exactly if there is one |
| TreeHeap.TreeVertex.Exists | common/graph/tree.go:69-71 | true exactly if some vertex of the tree has the id |
| TreeHeap.TreeVertex.Clone | common/graph/tree.go:74-85 | a copy of the same shape made of new vertices only, the original untouched |
| TreeHeap.TreeVertex.ReplaceAt | common/graph/tree.go:89-97 | in place, the vertex with the id gets the descendants of the other vertex; nothing outside the tree is written |
| TreePruning.ThinsUnique | common/graph/perm.go:114-119 | pruning keeps ids unique |
| TreePruning.ThinsEnough | common/graph/perm.go:114-119 | pruning leaves enough descendants everywhere if there were |
| TreePruning.ThinsNothing | common/graph/perm.go:114-119 | a tree whose every vertex lists at most as many choices as the bound is not pruned at all |
| TreePruning.UniqueIsSeparate | common/graph/tree.go:17-23 | unique ids mean that no vertex is reached in two ways, which is what replacing in place needs |
| TreePermuter.BfsIterator.Next | common/graph/tree.go:135-144 | the queue gives its first vertex and takes its descendants |
| TreePermuter.ExpandPermutation | common/graph/perm.go:72-89 | a permutation becomes one new tree per selection, with that selection at the vertex; the permutation is not written |
| TreePermuter.Partition | common/graph/perm.go:57-70 | permutations are split by whether they still hold the vertex |
| TreePermuter.TreePermutationsState.ComputeDescendantPermutations | common/graph/perm.go:101-127 | over the shared heap, for every bound, each vertex is pruned as far as needed and no further and given exactly the selections of its remaining descendants, or it fails exactly if some vertex cannot be pruned |
| TreePermuter.TreePermutationsState.Permute | common/graph/perm.go:43-97 | the loop over the heap lists the specified permutations and leaves the pruned original as it was |
| TreePermuter.PermuteTree | common/graph/tree.go:111-113 | end to end on the heap, for every bound: a tree within the bound is left whole and otherwise pruned only as needed, the result is exactly the picked trees of what is left, each once, and with a bound of at least one not empty if every vertex had enough descendants |
| AuthCache.AccessCache.PurgeEntries | discovery/authcache.go:145-164 | the deleting loop evicts the configured number of entries, whichever the map iteration gives, so that a full cache keeps as many as are retained; a retained share above the size leaves none |
| AuthCache.AccessCache.PurgeEntriesIfNeeded | discovery/authcache.go:145-164 | nothing is lost while there is room for one more entry, and where not everything is retained there is room afterwards |
| AuthCache.AccessCache.ConfigChange | discovery/authcache.go:172-178 | the cache is emptied and takes the given sequence, also an older one |
| AuthCache.AccessCache.EligibleForService | discovery/authcache.go:100-137 | the sections composed, undisturbed: a hit changes nothing; a miss answers what was computed and stores it only if the sequence still stands, keeping every entry of the same sequence while there is room and as many as are retained once full; the size bound is kept |
| AuthCache.RunFresh | discovery/authcache.go:100-137 | what every critical section of every request keeps, over every interleaving |
| AuthCache.AnswersAreFresh | discovery/authcache.go:100-137 | under every interleaving, an answer given to a request that read sequence s, cached or not, is the verdict for its own key at a sequence of at least s, even after a slow request has put an older sequence back |
| AuthCache.LossHasACause | discovery/authcache.go:139-178 | under every interleaving, an entry is lost only to a request that takes over with another sequence or to a purge |
| AuthCache.PurgesExactlyWhenFull | discovery/authcache.go:139-150 | a request goes on to purge exactly if it finds the maximal number of entries or more |
| AuthCache.PurgeLeaves | discovery/authcache.go:145-164 | a purge of a full cache leaves as many entries as are retained |
| AuthCache.CachedIsServed | discovery/authcache.go:100-137 | a request alone, for a key cached at the current sequence, is answered from the cache in two sections and leaves no trace |
| AuthCache.OthersAreComputed | discovery/authcache.go:100-137 | a request alone, for any other key, is answered what is computed, and then finds it in the cache |
| AuthCache.RunBounded | discovery/authcache.go:116-164 | entries and requests about to store one stay within the bound together |
| AuthCache.SizeBoundedExactlyWhen | discovery/authcache.go:116-164 | for every maximal size, the cache never exceeds it by more than the number of requests less one, in all runs, exactly when not all of it is retained by a purge |
| SparseRouting.AggregateOrgEnvelope | common/sparseblocks/sparseblockgenerator.go:405-560 | the loops fail exactly if an envelope does not decode, and otherwise give every organisation exactly the envelopes routed to it, with a filter that agrees position by position, and list no organisation without any |
| SparseRouting.RoutedExactly | common/sparseblocks/sparseblockgenerator.go:414-556 | an organisation's envelopes are in fat-block order, and each is there as often as is due: a config or lifecycle transaction once for the channel and once for the light peers, an endorser transaction as often as it names the organisation, or once for the channel if it names none, anything else never |
| SparseRouting.RoutedCarries | common/sparseblocks/sparseblockgenerator.go:414-556 | each entry carries its envelope from its place in the fat block, and the verdict on conflicts unless it is a config transaction |
| SparseRouting.IndexListIncreasing | common/sparseblocks/sparseblockgenerator.go:688-710 | its index list is strictly increasing exactly when no envelope names it twice |
| SparseRouting.PayloadsAreRetrieved | common/sparseblocks/sparseblockgenerator.go:645-651 | reading the fat block by the index list gives back the block's data |
| SparseChain.RoutedExactlyWhen | common/sparseblocks/sparseblockgenerator.go:368-387 | an organisation gets a block exactly when something was routed to it |
| SparseChain.NewBlockStored | common/sparseblocks/sparseblockgenerator.go:586-685 | what is stored with a new block suffices to rebuild its header, data, last-config and signature metadata |
| SparseChain.OldBlockStored | common/sparseblocks/sparseblockgenerator.go:160-221 | storing a later fat block does not disturb what earlier blocks are rebuilt from |
| SparseChain.ChainContinues | common/sparseblocks/sparseblockgenerator.go:368-387 | a block with the next number and the head's hash keeps a chain gapless, linked and described by its head |
| SparseChain.ProcessedInv | common/sparseblocks/sparseblockgenerator.go:258-403 | processing a fat block in order keeps every chain gapless, hash-linked, described by its head, correctly cached and rebuildable |
| SparseRuns.RunInv | common/sparseblocks/sparseblockgenerator.go:258-403 | all of that in every state reached by appending to the fat ledger, processing blocks and losing cached blocks, in any order |
| SparseRuns.RunContinues | common/sparseblocks/sparseblockgenerator.go:368-403 | a later state only adds blocks to every chain |
| SparseRuns.RebuiltIsOriginal | common/sparseblocks/sparseblockgenerator.go:657-685 | above the save point a block reads the same from the cache and rebuilt |
| SparseRuns.BlocksAreForGood | common/sparseblocks/sparseblockchain.go:218-257 | a block made at any point of a run is what is read at every later point, whatever has been evicted |
| SparseRuns.GenesisStarts | common/sparseblocks/sparseblockgenerator.go:323-329 | a genesis config block always starts both chains, at height one and without a save point |
| SparseRuns.PanicsExactlyWhen | common/sparseblocks/sparseblockgenerator.go:433-612 | in every reachable state, a fat block stops the generator exactly if an envelope does not decode, or it is no config block and names an organisation without a chain |
| SparseRuns.UndecodableStops | common/sparseblocks/sparseblockgenerator.go:433-493 | an instance: the run that starts with a genesis block ends at any next block with an undecodable envelope |
| SparseServing.ServedExactlyWhen | common/sparseblocks/sparseblockchain.go:218-257 | in every state of every run, each number below a chain's height is served a block with that number and the hash of its data, linked to the block served before it exactly unless the two come from different chains that do not join |
| SparseServing.ServedFromStart | common/sparseblocks/sparseblockchain.go:218-257 | any chain that starts right after the save point, or with the genesis header, is served unbroken from zero to its height, in every state that keeps the invariant |
| SparseServing.GenesisHeader | common/sparseblocks/sparseblockchain.go:243-246 | the fat genesis block served for an evicted block zero has the right header exactly if the channel is not named like the light peers' chain, or the data hash does not tell the doubled genesis data apart |
| SparseServing.RunSettled | common/sparseblocks/sparseblockgenerator.go:263-329 | in every run either no chain or exactly the two config chains exist, starting right after the save point or with the block cut from the genesis block |
| SparseServing.ServedChain | common/sparseblocks/sparseblockchain.go:218-257 | in every reachable state, whatever has been evicted, each organisation is served one unbroken chain from zero to its height: fat blocks up to the save point, then its own; on a channel named like the light peers' chain, exactly except after an evicted first block |
| SparseSwitch.RunIndexOk | common/sparseblocks/sparseblockgenerator.go:160-221 | in every run an index entry points to a processed block that routes something, and every such block has one; without chains the index is empty |
| SparseSwitch.RepeatsExactlyWhen | common/sparseblocks/sparseblockchain.go:218-257 | in every reachable state no envelope of a served fat block is served again exactly when no processed block up to the save point routes anything |
| SparseSwitch.SwitchIsClean | common/sparseblocks/sparseblockgenerator.go:263-329 | after a switch nothing is served twice, however the run goes on, exactly when none of the fat blocks from the one processed to the one before the newest can be cut into anything |
| SparseConservation.NothingIsLost | common/sparseblocks/sparseblockgenerator.go:338-402 | in every run, the data of an organisation's blocks one after the other is what the processed fat blocks route to it, in the order they were processed |
| SparseConservation.NothingIsLostFromGenesis | common/sparseblocks/sparseblockgenerator.go:52-155 | a run that takes the first m fat blocks once each and in order gives every organisation exactly what they route to it, nothing lost and nothing repeated |
| SparseConservation.EveryEnvelopeIsServed | common/sparseblocks/sparseblockgenerator.go:338-556 | in every run, every config, lifecycle and endorser envelope of a processed block is in the chain of everybody it is meant for, and it is meant for somebody |
| SparseConservation.NothingElseIsServed | common/sparseblocks/sparseblockgenerator.go:338-556 | whatever is in an organisation's chain is an envelope of a processed block that is meant for it |
| SparseConfig.LastConfigIsLatest | common/sparseblocks/sparseblockgenerator.go:263-618 | in every run, each block above the save point, cached or rebuilt, names the latest config block of its chain or, before the first, what was taken over at the switch from the save point, and is signed over that and its header; a chain from the genesis block always has a config block |
| SparseFilters.FiltersDescribe | common/sparseblocks/sparseblockgenerator.go:586-634 | in every run, each block above the save point, cached or rebuilt, carries a filter that names the fat block it was cut from and, envelope by envelope, the place there and the verdict on conflicts |
| SparseGenerator.CreateNextBlock | common/sparseblocks/sparseblockgenerator.go:688-710 | the loop fills data and index list position by position, with the data's hash in the header |
| SparseGenerator.StoreOrgBlockSkeleton | common/sparseblocks/sparseblockgenerator.go:586-634 | in any iteration order, every block gets its metadata, every head its new position and other heads stay, or it fails exactly for a missing head |
| SparseGenerator.CutFatBlock | common/sparseblocks/sparseblockgenerator.go:338-402 | the loops together give the specified blocks, details and heads, and fail exactly where the code panics: an undecodable envelope or a missing head |
| SparseGenerator.Generator.constructor | common/sparseblocks/sparseblockgenerator.go:225-242 | a restart takes up the stored head and an empty cache |
| SparseGenerator.Generator.StartHeads | common/sparseblocks/sparseblockgenerator.go:263-329 | without heads, the save point is written and two chains start from it, or none at genesis |
| SparseGenerator.Generator.StoreBlockData | common/sparseblocks/sparseblockgenerator.go:160-221 | index, cache, details and head are updated for exactly the new blocks, in any order |
| SparseGenerator.Generator.ProcessOne | common/sparseblocks/sparseblockgenerator.go:122-130 | one fat block takes the whole stored state to the specified one, and the stored head names it, or it fails exactly where the code panics |
| SparseGenerator.Generator.SyncOrderer | common/sparseblocks/sparseblockgenerator.go:137-155 | catching up takes every missing block once, in order |
| SparseGenerator.Generator.TakeTurn | common/sparseblocks/sparseblockgenerator.go:101-130 | a turn catches up if there is a gap and then takes the block |
| SparseGenerator.Generator.ProcessFatBlocks | common/sparseblocks/sparseblockgenerator.go:52-132 | for any arrivals and a growing ledger, which blocks the loop takes, in which order, what it stores, where it fails, and that the stored head names the last one |
| SparseCatchUp.TakesEveryBlockOnce | common/sparseblocks/sparseblockgenerator.go:52-155 | the blocks the whole loop takes, its start included, are all from where it begins to the last one incoming, once each and in order, exactly when the incoming numbers increase from there |
| SparseCatchUp.TurnMayGrow | common/sparseblocks/sparseblockgenerator.go:101-155 | a turn gives the same if the ledger grows at any point while it lasts |
| SparseCatchUp.LoopReaches | common/sparseblocks/sparseblockgenerator.go:52-155 | over increasing numbers the whole loop, with or without chains at the start, is a run of the step system, so all its invariants hold of the loop |
| SparseReader.RetrieveOrgBlock | common/sparseblocks/sparseblockchain.go:193-257 | cache, fat chain up to the save point, or rebuilding: the specified block |
| SparseReader.RetrieveTxnList | common/sparseblocks/sparseblockgenerator.go:645-651 | the envelopes at the listed positions, in list order |
| SparseReader.OrgCacheIterator.constructor | common/sparseblocks/sparseblockchain.go:72-77 | the highest number taken as available has a block exactly if the organisation has a chain |
| SparseReader.OrgCacheIterator.Next | common/sparseblocks/sparseblockchain.go:167-191 | gives the block of the current number and moves on only if there is one; on a chain, never past its height |
| SparseReader.HeadersAreStable | common/sparseblocks/sparseblockchain.go:218-257 | on a chain that starts cleanly, what is served under a number keeps its header for the rest of a run |
| SparseReader.ReaderSeesOneChain | common/sparseblocks/sparseblockchain.go:167-191 | on a chain that starts cleanly, two blocks read one after the other are hash-linked, however the chain, the ledger and the cache changed in between |
| SparseReader.RunStartsCleanly | common/sparseblocks/sparseblockgenerator.go:263-329 | every chain of every run starts cleanly, unless the channel is named like the light peers' chain |
| Deliver.SessionAccessControl.Evaluate | common/deliver/acl.go:58-76 | verdict, remembered sequence and the checks made, as specified |
| Deliver.FailureIsNotRepeated | common/deliver/acl.go:63-75 | after a failed check, which is on record, exactly which next look is granted, and that one at no newer sequence always is |
| Deliver.TakeTurn | common/deliver/deliver.go:319-375 | one turn ends with the specified status, or sends the block after a granted look |
| Deliver.DeliverBlocks | common/deliver/deliver.go:264-380 | the whole request has the specified outcome and event trace |
| Deliver.DeliveryIsSecured | common/deliver/deliver.go:283-379 | in every delivery, whatever the sequences read, each block sent is preceded by a policy check that passed at a sequence no older than the one just read, and by none that failed |
| Deliver.SuccessIsStop | common/deliver/deliver.go:295-379 | whatever the cursor gives, the blocks sent are those it gave, in order, and the delivery succeeds exactly if the stop block is the last of them, for the first time |
| Deliver.SuccessIsWhole | common/deliver/deliver.go:295-379 | with a cursor that reads in sequence, success exactly if the blocks from the start to the stop were sent, once each and in order; in every other outcome consecutive blocks from the start, fewer than that when the stop is ahead |
| Deliver.RefusedWith | common/deliver/deliver.go:264-318 | a request with a consenter error that matters, without a grant, without a position or with a stop before its start is answered at once with the status for that, and nothing is sent |
| Deliver.SuccessByRequest | common/deliver/deliver.go:295-379 | with a cursor that reads in sequence: a request up to the newest block succeeds exactly if all blocks below the height were sent, one up to a given block exactly if all up to it were, one for the oldest or only the newest block exactly if the first one was, one with a stop of no kind exactly if it was block zero alone |
| Deliver.LoopEnds | common/deliver/deliver.go:319-375 | the loop goes on exactly as long as every turn is clean and the stop block was not sent, and otherwise ends with a status its last turn is the cause of; the policy is asked exactly at a config sequence newer than all seen before |
| Deliver.DeliveryEnds | common/deliver/deliver.go:264-380 | the same for whole requests, counting from the sequence the first look read |
| Deliver.SmoothLoop | common/deliver/deliver.go:319-375 | if nothing goes wrong the loop succeeds as soon as it has had a turn for every block, and never if the stop lies before the start |
| LoggerLevels.LevelIsMostSpecific | common/flogging/loggerlevels.go:128-141 | the computed level is that of the exact entry, else of the longest entry cut at a dot, else the default |
| LoggerLevels.MostSpecificIsUnique | common/flogging/loggerlevels.go:128-141 | that description fits at most one level |
| LoggerLevels.LoggerLevels.CalculateLevel | common/flogging/loggerlevels.go:128-141 | the loop that cuts the name back finds the most specific entry |
| LoggerLevels.LoggerLevels.GetLevel | common/flogging/loggerlevels.go:113-124 | the level is the most specific one whether or not it was cached, and the cache stays right |
| LoggerLevels.LoggerLevels.ActivateSpec | common/flogging/loggerlevels.go:43-97 | a well-formed text replaces the specification, empties the cache and sets the minimum; a malformed one changes nothing |
| LoggerLevels.LastNamingWins | common/flogging/loggerlevels.go:49-82 | a logger's entry is the level of the last field that names it |
| LoggerLevels.LastBareLevelWins | common/flogging/loggerlevels.go:52-56 | the default is the last field without a logger, or info |
| LoggerLevels.MinimumIsReached | common/flogging/loggerlevels.go:84-89 | the minimum lets a level pass exactly if some logger name would emit at it |
| LoggerLevels.LoggerLevels.Enabled | common/flogging/loggerlevels.go:170-175 | the fast check passes exactly the levels at which some logger emits, so it rejects none of them |
| LoggerLevels.LoggerLevels.SpecText | common/flogging/loggerlevels.go:153-166 | the loop prints every entry once, then the default |
| LoggerTexts.LevelNames | common/flogging/levels.go:28-63 | which texts mean which level |
| LoggerTexts.LegalNameForms | common/flogging/loggerlevels.go:99-108 | a name passes exactly if it is one or more parts of legal characters separated by single dots |
| LoggerTexts.AcceptedTexts | common/flogging/loggerlevels.go:43-82 | the texts that can be activated are exactly those of the documented form, fields separated by colons, each a level that may be left out, or loggers separated by commas, an equals sign and a level |
| LoggerTexts.EntriesMean | common/flogging/loggerlevels.go:49-82 | every logger some field is for has the level of the last such field, and no other logger has an entry |
| LoggerTexts.DefaultMeans | common/flogging/loggerlevels.go:48-56 | the default is the last level alone, or info if it is left out or there is none |
| LoggerTexts.PrintingRoundTrip | common/flogging/loggerlevels.go:153-166 | printing an activated specification, in any order, and activating the text gives the same specification exactly if it has no payload level, and is rejected otherwise |

## Left out

- MVCC validation of read and write sets in the sparse generator: the status of a transaction is an arbitrary value.
- Signatures, consenter metadata and Merkle fields of organisation blocks: opaque bytes.
- BlockType and the wrapping of the sparse filter: a rebuilt block differs from the original in both; `SparseChain.SameContent` compares everything else, the filter's contents included.
- PrevFatblockNumber: the stored value does not follow its name and is left out.
- Metadata store failures, and a crash between two of its writes: storing a fat block is one step of a run.
- SparseServing.ServedChain, like SparseServing.RunSettled and SparseReader.RunStartsCleanly: assumes that an envelope of a config block is not typed as an endorser transaction outside its payload; `SparseServing.ServedExactlyWhen`, `SparseServing.ServedFromStart`, `SparseReader.HeadersAreStable` and `SparseReader.ReaderSeesOneChain` do without.
- MoreSigners.SteadyExactlyWhen: exact for the place before another rule, not for whole policies. A whole policy can be harmless although it is not orderly: two of (two of A and C), B and E makes up, with the point its first gate scores, for the one signer that gate can newly take from B or E. An exact condition would have to count, over all membership services, which signers each gate can take away from which.
- SparseReader.OrgCacheIterator.Next: waiting on the condition variable is the precondition that the block has come.
- Iterator seek positions of the organisation chain: the start number is a parameter.
- Envelope parsing, channel lookup, timestamps, TLS binding and metrics of delivery; identity expiry is an arbitrary input.
- Deliver.DeliverBlocks: block numbers do not wrap; the subtraction from a height of zero does.
- Versions, sequences and block numbers are unbounded; uint64 overflow is modelled only where heights are decremented.
- Creation of per-channel caches, the disabled cache and failures to compute a cache key: they only pass the request on.
- Combinations: negative thresholds, on which the original recursion does not end, are excluded by type.
- Slices that share a backing array with a vertex's descendants: descendants are sequence values; sharing of vertices themselves is modelled.
- TreePermuter.PermuteTree: requires unique ids, which the replacement by id presupposes.
- ConfigUpdate: the policy manager is an arbitrary lookup; an absolute mod_policy equal to the path of its own group, on which the original slices out of range, is a failed lookup.
- PolicyConversion.SimilarEvaluate: assumes that a membership service rejects principals without a known classification, as msp/mspimpl.go:569-570 does.
- Implicit meta policy evaluation, the policy language parser, config comparison helpers beyond version and mod_policy, and the rest of the repository: wrappers, parsing, I/O or cryptography.
- LoggerLevels: the order of the fields in a printed specification, and of concurrent calls; every lock section keeps the class invariant.
