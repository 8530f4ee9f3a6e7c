# Models as a Service: a verified model

A Dafny model of the parts of Models as a Service whose correctness spans several operations,
tenants or runs, with proofs. Each module models one component and states its guarantees over all
inputs, all reachable states or all interleavings.

| module | component |
|---|---|
| GatewayClaims | create-once gateway claims between AITenants |
| GatewayLabels | reference-counted labels on the infrastructure namespace |
| TenantDeletion | the deletion of an AITenant, from key revocation to the finalizer |
| SpecMatch | deciding whether a stored policy already says what is wanted |
| ModelIdentity | incremental detection of models sharing an alias |
| Cutover | the upgrade from per-model to gateway policies |
| Debounce | lock-free throttling of last-used writes |
| KeyFormat | base 62 encoding, API key text and hashing |
| KeyStore, KeyService | the life of an API key, from minting to validation |
| KeySearch | the WHERE clause builder, the in-memory filter, pages |
| Selection | choosing a subscription |
| Aggregation | merging probe results into one model list |
| AdminCache | the cache in front of the admin check |
| Ordering, Sequences, Text, Wrappers | shared definitions |

Protocols are state machines: a `World`, a `Step` per API call or atomic map operation, `Enabled`
and `Apply`, and an invariant kept by every step. Code that updates fields in place is a class
whose methods say what they make of the state; the functions they are specified by are what the
theorems are about.

Assumptions:

- In the main theorems on claims, the lists a claim release or clean-up works from show the present
  store; deletes go by name. For lists that show any other store GatewayClaims proves exactly when
  exclusion holds all the same, and what is left over.
- Label requests for any gateway may come at any time, from any AITenant naming it.
- SHA-256 is an injective function with non-empty results. Random bytes, new ids and the
  answers of the subscription selector and the authorization policies are inputs.
- Clocks do not go back. Times are whole numbers, and no two calls for one key read the same one.
- Nobody but the controller hands objects to an AITenant that is being deleted, or creates legacy
  per-model policies.
- In KeyStore, ids and hashes of added keys are fresh, as KeyFormat shows for different random bytes.

Where the code does less than its comments promise or its purpose asks, the model follows the code:

- The comment at `maas-api/internal/api_keys/keygen.go:36` guarantees key ids of at least 12
  characters; twelve zero bytes give one character. The exact bound is 62^11.
- The comment at `maas-api/internal/api_keys/service.go:373-375` says that sweeping is safe; a slot
  refreshed between the sweep's test and its delete is lost and the next write comes too early.
- The comment at `maas-controller/pkg/controller/maas/maasauthpolicy_controller.go:286-290` says that
  legacy policies remain in place until the replacement is ready. References added after the list
  was read, and policies being deleted, are exceptions. The promise is kept exactly when the pass that
  deletes had found a legacy policy in use.
- An AITenant gives its claim up before its labels, and another one has labels accepted before its claim
  is. So an AITenant can go while its gateway owns labels again, and a late clean-up can take the
  labels of the next claimant until that one reconciles again.
- A stale list makes a tenant delete, by name, a claim that another has taken since.
- A reconcile that stops before the conflict check can leave its model's identity condition wrong
  until something else enqueues the model; other models are not affected.
- A nil specification and an empty one are told apart although nothing differs.
- The in-memory and the database store disagree on labels wanted with the empty value, and on bulk
  revocation at the very instant a key expires.
- A user without groups and a user with one nameless group share an admin cache entry.

## Model

| member | source | states |
|---|---|---|
| GatewayClaims.Exclusive | maas-controller/pkg/controller/maas/aitenant_controller.go:1592-1731 | After any interleaving of Create, Get, Update, List and Delete calls of any number of tenants, each tenant whose last ensure succeeded has the claim for its gateway under its own uid with matching data, owns no other claim, and no two such tenants share a gateway. No assumption is made on how claim names are derived. |
| GatewayClaims.KeepsUntilItGivesUp | maas-controller/pkg/controller/maas/aitenant_controller.go:1592-1731 | Such a tenant keeps its claim over any further run until it itself retargets, releases or goes away; nobody else's step can take it. |
| GatewayClaims.OthersKeepTheirClaims | maas-controller/pkg/controller/maas/aitenant_controller.go:1566-1583 | A step taken by one tenant, or by the garbage collector, leaves the set of claims another tenant owns, and their contents, exactly as they were. |
| GatewayClaims.StepKeepsInv | maas-controller/pkg/controller/maas/aitenant_controller.go:1592-1731 | The protocol invariant (what each half-finished reconcile has read still holds of the store) is kept by every API call. |
| GatewayClaims.UndisturbedEnsure | maas-controller/pkg/controller/maas/aitenant_controller.go:1592-1677 | From an idle tenant that may have the claim, the interleaved steps alone lead to the tenant holding it and nothing else: the protocol can always finish. |
| GatewayClaims.ExclusiveWhateverIsListed | maas-controller/pkg/controller/maas/aitenant_controller.go:1592-1731 | Exclusion does not need current lists: with lists answered from any store at all, after every run in which no delete hits a claim another tenant counts on, each tenant whose last ensure succeeded has its claim and shares its gateway with no other such tenant. |
| GatewayClaims.SafeThroughoutExactly | maas-controller/pkg/controller/maas/aitenant_controller.go:1592-1731 | With lists answered from any store at all, a run keeps the claims of all who count on them, at every moment, if and only if none of its deletes hits such a claim of another tenant. |
| GatewayClaims.DeleteIsSafeExactly | maas-controller/pkg/controller/maas/aitenant_controller.go:1708-1731 | A delete by name keeps exclusion if and only if no other tenant counts on the claim of that name when it is carried out; a name that is free, or left over, does no harm. |
| GatewayClaims.ListSparesOthersExactly | maas-controller/pkg/controller/maas/aitenant_controller.go:1708-1731 | Whatever the list says, every other tenant keeps what it counts on if and only if no listed name is such a claim; apart from that the tenant is left owning, besides its current claim, exactly the claims it owned and the list left out. |
| GatewayClaims.CurrentListHitsNoOne | maas-controller/pkg/controller/maas/aitenant_controller.go:1708-1731 | A list of the present claims names no claim that another tenant counts on. |
| GatewayClaims.StaleListTakesAnothersClaim | maas-controller/pkg/controller/maas/aitenant_controller.go:1708-1731 | A concrete run in which a list answered from an older store makes one tenant delete a claim another tenant holds, since deletes go by name. |
| GatewayClaims.ClaimStore.EnsureGatewayClaim | maas-controller/pkg/controller/maas/aitenant_controller.go:1592-1677 | Succeeds exactly when the name is free or already this tenant's for that gateway; then the tenant owns that one claim and every claim of others is untouched; each refusal names its cause and changes nothing. |
| GatewayClaims.ClaimStore.CleanupStaleClaims | maas-controller/pkg/controller/maas/aitenant_controller.go:1708-1731 | Removes precisely the tenant's claims other than the current one. |
| GatewayClaims.ClaimStore.DeleteGatewayClaim | maas-controller/pkg/controller/maas/aitenant_controller.go:1684-1702 | Removes precisely the tenant's claims. |
| GatewayLabels.GatewayDesiredLabels | maas-controller/pkg/controller/maas/aitenant_controller.go:436-460 | The labels asked for are exactly the union of the selector listeners' labels, and there is none exactly when two listeners ask for different values. |
| GatewayLabels.InfraNamespace.EnsureGatewayLabels | maas-controller/pkg/controller/maas/aitenant_controller.go:462-583 | Applies the union in one optimistically locked write or refuses without a trace, and says which label is taken, which listeners disagree, or that the annotation or the namespace is unusable. |
| GatewayLabels.InfraNamespace.CleanupGatewayLabels | maas-controller/pkg/controller/maas/aitenant_controller.go:600-671 | Drops the gateway from every owner list and removes the keys it alone owned; an unreadable annotation or a missing namespace leaves everything as it is. |
| GatewayLabels.OwnershipIsExact | maas-controller/pkg/controller/maas/aitenant_controller.go:462-671 | After any run of ensures and cleanups by any number of gateways, with outside edits only to keys nobody owns: every owned key has a non-empty duplicate-free owner list, is present, has the value every owner last asked for; and a gateway is an owner exactly if its last successful ensure asked for the key. |
| GatewayLabels.EnsureOwnsExactlyDesired | maas-controller/pkg/controller/maas/aitenant_controller.go:462-583 | After a successful ensure a gateway owns its desired keys and no others, and each has the desired value. |
| GatewayLabels.RefusedExactlyWhenAnotherHoldsTheValue | maas-controller/pkg/controller/maas/aitenant_controller.go:481-502 | An ensure is refused if and only if some wanted label has another value that some other gateway, or no gateway, stands behind. |
| GatewayLabels.OthersKeepTheirLabels | maas-controller/pkg/controller/maas/aitenant_controller.go:543-671 | No ensure or cleanup changes, removes or disowns a label that another gateway owns. |
| GatewayLabels.GoneExactlyWithLastOwner | maas-controller/pkg/controller/maas/aitenant_controller.go:543-671 | An owned label disappears exactly when its only owner cleans up or successfully ensures without it. |
| TenantDeletion.LetGoOnlyWhenCleanedUp | maas-controller/pkg/controller/maas/aitenant_controller.go:975-1059 | In every interleaving of restarted passes, cached reads, lost status writes, Job progress, label requests by any AITenant and foreign edits, short of the timeout: the finalizer is gone only when revocation is on record (or was waived by annotation), the owned config is gone, owned roles, claims and gateway policy are gone or terminating, the namespace is released, and the gateway whose labels the pass gave up is one the AITenant named. Labels may be owned again: see the next rows. |
| TenantDeletion.LabelsWhenLetGo | maas-controller/pkg/controller/maas/aitenant_controller.go:1036-1048 | In every run in which a pass comes to its last call: that call lets the AITenant go with its gateway owning no label if and only if, the last accepted word on that gateway since the pass gave the labels up was no request for labels: there was no accepted request, or the last one asked for nothing, or another clean-up or the loss of the namespace followed it; in particular if every request since then asked for nothing. |
| TenantDeletion.LastWordIsTrue | maas-controller/pkg/controller/maas/aitenant_controller.go:462-671 | Over any run from any state, a gateway owns no label if and only if the last accepted word on it (a request, a clean-up, the loss of the namespace) asked for none, or there was no word and it owned none. |
| TenantDeletion.RequestBeforeTheLastCallSurvives | maas-controller/pkg/controller/maas/aitenant_controller.go:228-242 | Labels are ensured before the claim is, so another AITenant naming the same gateway can have labels accepted between the two last calls; whenever it does, the AITenant goes while its gateway owns labels. |
| TenantDeletion.LetGoWithALabel | maas-controller/pkg/controller/maas/aitenant_controller.go:1036-1048 | A whole concrete run, from the beginning of a deletion, that ends so. |
| TenantDeletion.LateUnlabellingTakesAClaimantsLabels | maas-controller/pkg/controller/maas/aitenant_controller.go:600-671 | A pass that gives the labels up after another AITenant has had labels accepted for the same gateway takes them from it: the gateway owns nothing, and of the labels asked for exactly those stay that some other gateway owns too. |
| TenantDeletion.RevocationIsProved | maas-controller/pkg/controller/maas/aitenant_controller.go:1228-1300 | The revoked condition is set only after a Job carrying this AITenant's uid has completed, and the config's deletion is never requested before revocation is on record, waived, or overtaken by the timeout. |
| TenantDeletion.RevocationStays | maas-controller/pkg/controller/maas/aitenant_controller.go:1286-1300 | Once set the revoked condition is never unset, although passes write whole statuses computed from copies that may be old. |
| TenantDeletion.StepKeepsInv | maas-controller/pkg/controller/maas/aitenant_controller.go:975-1312 | What each stage of a pass relies on is kept by every API call of the pass and by everything that may happen besides. |
| TenantDeletion.PastGrows | maas-controller/pkg/controller/maas/aitenant_controller.go:1044-1048 | Only the last call of a pass, or the timeout, removes the finalizer. |
| TenantDeletion.EarlierGatewayKeepsItsLabels | maas-controller/pkg/controller/maas/aitenant_controller.go:600-671 | Cleanup gives up the labels of the gateway named now and leaves those of any other gateway, such as the one before an edit, exactly as owned as before. |
| TenantDeletion.DeletionPass.EnsureTenantAPIKeysRevoked | maas-controller/pkg/controller/maas/aitenant_controller.go:1228-1269 | Reports revocation exactly when it was on record or the tenant's own Job has completed, and an error exactly when neither holds and that Job has failed; a missing Job is created, a stranger's or failed one deleted, a running one awaited. |
| TenantDeletion.DeletionPass.DeleteTenantConfig | maas-controller/pkg/controller/maas/aitenant_controller.go:1110-1139 | Done exactly when there is no config the tenant owns; an unguarded config is first guarded with the cleanup finalizer and only a guarded one is deleted. |
| TenantDeletion.DeletionPass.DeleteScopedChildren | maas-controller/pkg/controller/maas/aitenant_controller.go:1141-1156 | Every owned role and role binding is gone or terminating; those of others are untouched. |
| TenantDeletion.DeletionPass.ReleaseTenantNamespace | maas-controller/pkg/controller/maas/aitenant_controller.go:1162-1192 | The namespace survives, no longer owned, unless it is missing, terminating or someone else's. |
| TenantDeletion.DeletionPass.DeleteGatewayClaim | maas-controller/pkg/controller/maas/aitenant_controller.go:1684-1702 | Every owned claim is gone or terminating; those of others are untouched. |
| TenantDeletion.DeletionPass.ReconcileAITenantDelete | maas-controller/pkg/controller/maas/aitenant_controller.go:975-1059 | An undisturbed pass lets the AITenant go if and only if revocation is on record or proved by its Job and no owned config is left; otherwise nothing beyond the blocking step is touched. |
| SpecMatch.SpecMatchesDesired | maas-controller/pkg/controller/maas/maasauthpolicy_controller.go:1214-1233 | The strip-and-compare loops, which visit map keys in any order, decide the recursive relation: through maps a wanted key matches or is absent and wanted nothing; inside slices lengths agree and nothing may be missing. |
| SpecMatch.StripExtraFields | maas-controller/pkg/controller/maas/maasauthpolicy_controller.go:1237-1255 | The loop removes exactly the map keys not mentioned in the desired tree, at every depth. |
| SpecMatch.StripExtraFieldsSlice | maas-controller/pkg/controller/maas/maasauthpolicy_controller.go:1257-1270 | The same through the common prefix of two slices. |
| SpecMatch.StripEmptyDesiredFields | maas-controller/pkg/controller/maas/maasauthpolicy_controller.go:1276-1297 | The loop removes exactly the wanted keys that the current tree lacks and that come down to an empty collection. |
| SpecMatch.StripDecides | maas-controller/pkg/controller/maas/maasauthpolicy_controller.go:1214-1297 | Stripping both trees and comparing them is equivalent to the relation, for all trees. |
| SpecMatch.NoSecondUpdate | maas-controller/pkg/controller/maas/maasauthpolicy_controller.go:1395-1403 | After one reconcile, any further mixture of reconciles and server edits that add fresh keys anywhere or drop empty collections on map paths causes no further update. |
| SpecMatch.AddKeepsMatch | maas-controller/pkg/controller/maas/maasauthpolicy_controller.go:1237-1270 | A key the server adds to any map, within slices too, that the desired tree does not mention there never breaks a match. |
| SpecMatch.DropKeepsMatch | maas-controller/pkg/controller/maas/maasauthpolicy_controller.go:1276-1286 | An empty collection the server drops along a path of maps never breaks a match. |
| SpecMatch.MatchFindsEveryScalar | maas-controller/pkg/controller/maas/maasauthpolicy_controller.go:1214-1233 | When the answer is yes, every desired scalar sits at the same path in the current tree with the same value. |
| SpecMatch.AbsentIsNotEmpty | maas-controller/pkg/controller/maas/maasauthpolicy_controller.go:1214-1233 | Treating a nil map like an empty one would change the answer if and only if exactly one side is nil and nothing but empty collections is desired. |
| Debounce.ProtocolHolds | maas-api/internal/api_keys/service.go:378-444 | In every interleaving of callers and sweep, with the sweep's test and delete apart: grants of a key with no removal between are at least a TTL apart, no slot is superseded twice, and a failing writer removes only the slot of its own latest grant. |
| Debounce.SpacingSurvivesSweeps | maas-api/internal/api_keys/service.go:378-444 | With clock reads apart from LoadOrStore and the sweep's test apart from its delete, in any interleaving: grants stay a TTL apart even across sweeps as long as each slot a sweep removes is a TTL old by the clock and by what callers about to load it have read. |
| Debounce.SpacingWhenNoneBetween | maas-api/internal/api_keys/service.go:378-444 | So they do, with clock reads apart from LoadOrStore, in every run whose sweeps test and delete in one step and never come between a caller's clock read for a key and its load of it. |
| Debounce.RemovalIsSafeExactlyWhenItSpares | maas-api/internal/api_keys/service.go:392-398 | A removal by the sweep, whenever it was tested, keeps the invariant behind that spacing if and only if the slot it finds is a TTL old by the clock and for every caller about to load it, or there is none. |
| Debounce.LoadAfterSweepExactly | maas-api/internal/api_keys/service.go:410-420 | If a sweep takes the slot from a caller that has read the clock, the grant it then gets keeps the spacing if and only if its reading was a TTL past that slot. |
| Debounce.ReadAfterSweepExactly | maas-api/internal/api_keys/service.go:392-420 | A caller that reads the clock only after a slot was swept keeps the spacing if and only if the slot was a TTL old by then. |
| Debounce.SplitSweepBreaksSpacing | maas-api/internal/api_keys/service.go:373-398 | A concrete run of the sweep as written in which a refreshed slot is deleted and the next write comes too early, against the comment that sweeping has no effect on correctness. |
| Debounce.EarlyReadBreaksSpacing | maas-api/internal/api_keys/service.go:410-420 | A concrete run in which a clock read long before LoadOrStore stores a time older than the last grant. |
| Debounce.UndisturbedCallDecides | maas-api/internal/api_keys/service.go:410-432 | The interleaved steps taken in a row decide as the sequential method does. |
| Debounce.DebounceMap.ShouldUpdateLastUsed | maas-api/internal/api_keys/service.go:410-432 | A write goes ahead exactly when debouncing is off, the key has no slot, or its slot is a TTL old; the slot then holds this call's time. |
| Debounce.DebounceMap.ClearDebounceSlot | maas-api/internal/api_keys/service.go:439-444 | Removes the slot only if it is still the one given. |
| Debounce.DebounceMap.SweepExpired | maas-api/internal/api_keys/service.go:391-399 | Removes exactly the entries older than the cutoff, in whatever order they are visited. |
| ModelIdentity.NothingIsForgotten | maas-controller/pkg/controller/maas/maasmodelref_controller.go:562-580 | However changes, deliveries in any order and reconciles interleave, and however often reconciles of other models stop early: a model whose own reconcile never stops before the check, that has an alias and is not being deleted, is queued, covered by an undelivered event, or has the verdict a full recomputation would give; with queue and events empty it has that verdict. |
| ModelIdentity.StepKeepsInvAt | maas-controller/pkg/controller/maas/maasmodelref_controller.go:562-708 | That guarantee for one model is kept from any state by every step but one, its own reconcile stopping early. |
| ModelIdentity.AgreesWhenQuiet | maas-controller/pkg/controller/maas/maasmodelref_controller.go:216-236 | From any state at all, and whatever went before: once queue and events are empty, a model's condition equals the true set of models sharing its alias unless its own reconcile stopped early after the last one that reached the check. |
| ModelIdentity.VerdictIsRightExactly | maas-controller/pkg/controller/maas/maasmodelref_controller.go:162-236 | Whatever happens after a model's last reconcile that reached the check, its own early returns included, its verdict is right if and only if its alias is empty or the models sharing it are those that shared it at that check. |
| ModelIdentity.EarlyReturnLeavesStaleVerdict | maas-controller/pkg/controller/maas/maasmodelref_controller.go:162-206 | A concrete run in which a rival is deleted while this model's reconcile stops early, and the condition still names the rival when queue and events have run dry. |
| ModelIdentity.ModelController.FindModelAliasConflicts | maas-controller/pkg/controller/maas/model_identity_conflict.go:50-72 | Sorted, duplicate-free, and exactly the other models of the namespace with the same alias; none while the alias is unresolved. |
| ModelIdentity.ModelController.CheckModelIdentityConflict | maas-controller/pkg/controller/maas/model_identity_conflict.go:79-169 | Sets this model's condition to what a recomputation would give and touches nothing else. |
| ModelIdentity.ModelController.EnqueueSiblingsWithAlias | maas-controller/pkg/controller/maas/maasmodelref_controller.go:686-708 | Adds to the queue exactly the siblings whose alias is the new one or the old one, empty aliases aside. |
| Cutover.ReplacementSeenExactly | maas-controller/pkg/controller/maas/maasauthpolicy_controller.go:557-608 | In every run, a step that takes the legacy policy of a model some policy refers to comes after the acting pass saw a ready endpoint and the gateway policy in force if and only if it is a deletion by a pass whose scan found a legacy policy in use; such a pass without a find had not listed the model; the clean-up of a policy being deleted never waits. |
| Cutover.PassSawReplacementExactly | maas-controller/pkg/controller/maas/maasauthpolicy_controller.go:557-608 | In every run, a pass about to delete anything has seen the replacement if and only if its scan found a legacy policy, which it did if any model it listed still has one. |
| Cutover.FoundMeansSeen | maas-controller/pkg/controller/maas/maasauthpolicy_controller.go:328-356 | A scan reports a find only on seeing the legacy policy of a model it had listed. |
| Cutover.NoCutoverWithoutReplacement | maas-controller/pkg/controller/maas/maasauthpolicy_controller.go:557-608 | So, in every interleaving of passes, a pass deletes the legacy policy of a model referenced when it listed the policies only after having seen a ready endpoint and the gateway policy accepted and enforced at its current generation. |
| Cutover.EvidenceIsGenuine | maas-controller/pkg/controller/maas/maasauthpolicy_controller.go:557-604 | What a pass carries as evidence is the cluster as it was when the pass asked, and nothing else ever changes it. |
| Cutover.StepKeepsInv | maas-controller/pkg/controller/maas/maasauthpolicy_controller.go:472-661 | Kept by every step; the set of legacy policies only shrinks. |
| Cutover.LateReferenceIsMissed | maas-controller/pkg/controller/maas/maasauthpolicy_controller.go:1478-1521 | A concrete run: a reference added after the list was read is not protected from the stale cleanup of another policy. |
| Cutover.FinalizerDoesNotWait | maas-controller/pkg/controller/maas/maasauthpolicy_controller.go:1558-1575 | The cleanup of a policy being deleted removes the legacy policy of a model that another policy still references, with nothing ready. |
| Cutover.TargetMaaSAPIReady | maas-controller/pkg/controller/maas/maasauthpolicy_controller.go:291-322 | True exactly when some slice has the TLS port and an endpoint that is ready or does not say. |
| Cutover.AcceptedAndEnforced | maas-controller/pkg/controller/maas/maasauthpolicy_controller.go:1789-1828 | True exactly when the last Accepted and the last Enforced condition are both True. |
| Cutover.GatewayAuthPolicyReady | maas-controller/pkg/controller/maas/maasauthpolicy_controller.go:1167-1204 | True exactly when the policy exists, is managed, has been observed at its current generation, and is accepted and enforced. |
| Cutover.CutoverReconciler.HasLegacyModelAuthPolicy | maas-controller/pkg/controller/maas/maasauthpolicy_controller.go:328-356 | True exactly when a model referenced by a policy that is not being deleted has a legacy policy. |
| Cutover.CutoverReconciler.ReconcileModelAuthPolicies | maas-controller/pkg/controller/maas/maasauthpolicy_controller.go:1416-1457 | Removes exactly the managed legacy policies of the models referenced, where their routes are, and those this policy once contributed to and no longer references. |
| Cutover.CutoverReconciler.CleanupStaleAuthPolicies | maas-controller/pkg/controller/maas/maasauthpolicy_controller.go:1478-1521 | Removes exactly the managed policies this policy contributed to for models it no longer references. |
| Cutover.CutoverReconciler.Reconcile | maas-controller/pkg/controller/maas/maasauthpolicy_controller.go:557-608 | Waits for the endpoint exactly when legacy policies are in use and none is ready; deletes nothing while waiting; and having legacy policies in use, a changed gateway policy or a policy not yet active, finishes only with the gateway policy in force. |
| KeyFormat.EncodeBase62 | maas-api/internal/api_keys/keygen.go:178-198 | The prepending loop returns the base 62 numeral of the big-endian value. |
| KeyFormat.EncodedDenotes | maas-api/internal/api_keys/keygen.go:178-198 | That numeral has exactly the value, uses only the alphabet, and has no leading zero unless the value is zero. |
| KeyFormat.CanonicalUnique | maas-api/internal/api_keys/keygen.go:178-198 | No other canonical string has that value. |
| KeyFormat.EncodingIsInjective | maas-api/internal/api_keys/keygen.go:178-198 | Encodings agree exactly when the values do; for inputs of equal length, exactly when the inputs do. |
| KeyFormat.LengthAtMost | maas-api/internal/api_keys/keygen.go:28-39 | 12 bytes give at most 17 characters and 32 bytes at most 43. |
| KeyFormat.AtLeastExactly | maas-api/internal/api_keys/keygen.go:178-198 | A numeral has at least a given length exactly from the corresponding power of 62 on. |
| KeyFormat.KeyIdHasTwelveCharactersExactly | maas-api/internal/api_keys/keygen.go:36-42 | The documented guarantee of at least 12 characters holds if and only if the random value is at least 62^11. |
| KeyFormat.ZeroBytesMakeShortKeyIds | maas-api/internal/api_keys/keygen.go:36-42 | Zero bytes, however many, give a key id of one character. |
| KeyFormat.ParseUndoesAssemble | maas-api/internal/api_keys/keygen.go:89-108 | A key parses into an id and a secret if and only if it is put together from them, both are non-empty and the id has no separator. |
| KeyFormat.ValidExactly | maas-api/internal/api_keys/keygen.go:135-174 | A key is well formed if and only if two non-empty base 62 strings make it up, and then it parses into them. |
| KeyFormat.HashIdentifiesKey | maas-api/internal/api_keys/keygen.go:81-131 | Well-formed keys have one hash exactly when they are one key, and never the empty one. |
| KeyFormat.PreimageInjective | maas-api/internal/api_keys/keygen.go:77-84 | The NUL-separated text determines both parts when neither id has a NUL. |
| KeyFormat.SharesHashExactly | maas-api/internal/api_keys/keygen.go:77-131 | A key that merely parses shares its hash with another such key if and only if a NUL inside its id, or inside its secret before any separator, lets the hashed text be cut elsewhere; the format check shuts all such keys out. |
| KeyFormat.UncheckedKeysCanCollide | maas-api/internal/api_keys/keygen.go:77-131 | Such keys exist. |
| KeyFormat.MintedKeysDiffer | maas-api/internal/api_keys/keygen.go:45-75 | Different random bytes give different keys and different hashes. |
| KeyFormat.GenerateAPIKey | maas-api/internal/api_keys/keygen.go:45-75 | The generated key is well formed, at most 68 characters, its hash is the one HashAPIKey and ValidateAPIKeyHash compute, and the display prefix shows at most twelve characters of the id. |
| KeyStore.StatusIsOneWay | maas-api/internal/api_keys/types.go:3-11 | Over any sequence of store operations a stored status changes at most once, and only from active. |
| KeyStore.RejectionIsForEver | maas-api/internal/api_keys/store_mock.go:443-604 | With fresh ids and hashes, a hash once turned away is turned away for ever, whether revoked, expired or disposed of. |
| KeyStore.AcceptedExactly | maas-api/internal/api_keys/store_mock.go:443-604 | A key added active is accepted after any run if and only if it has not expired and no operation of the run was aimed at it. |
| KeyStore.BulkRevokesExactly | maas-api/internal/api_keys/store_mock.go:477-522 | After a bulk revocation a repeat matches nothing, every matched key is rejected from then on, and keys outside the tenant, user or subscription are unchanged. |
| KeyStore.DisposalUnnoticed | maas-api/internal/api_keys/store_mock.go:582-604 | Deleting expired ephemeral keys changes no hash's acceptance, then or later. |
| KeyStore.DisposableExactly | maas-api/internal/api_keys/store_postgres.go:638-656 | The in-memory condition for disposal is equivalent to the database's. |
| KeyStore.KeyTable.AddKey | maas-api/internal/api_keys/store_mock.go:47-104 | Stores the key as active or reports the first empty field and changes nothing. |
| KeyStore.KeyTable.GetByHash | maas-api/internal/api_keys/store_mock.go:443-472 | Accepts exactly the hash of an effectively active key, reports a missing one apart, and ages the key it found and no other. |
| KeyStore.KeyTable.Revoke | maas-api/internal/api_keys/store_mock.go:539-555 | Revokes an active key and nothing else; fails exactly when there is none. |
| KeyStore.KeyTable.BulkRevoke | maas-api/internal/api_keys/store_mock.go:493-522 | The dry-run count, the real count and the set revoked are those of the same matching keys; an empty scope is an error. |
| KeyStore.KeyTable.InvalidateTenant | maas-api/internal/api_keys/store_mock.go:524-537 | Revokes and counts exactly the tenant's active keys. |
| KeyStore.KeyTable.UpdateLastUsed | maas-api/internal/api_keys/store_mock.go:557-570 | Stamps the key, or fails when it is missing; nothing else changes. |
| KeyStore.KeyTable.DeleteExpiredEphemeral | maas-api/internal/api_keys/store_mock.go:582-604 | Deletes and counts exactly the ephemeral keys expired for more than the grace period. |
| KeyService.MintedKeyValidates | maas-api/internal/api_keys/service.go:110-328 | A key minted under a fresh id and fresh bytes validates, after any run of other operations, to the minting user, groups, subscription and tenant if and only if it has not expired, nothing was aimed at it, its subscription is not blank and its id is a UUID; otherwise it is rejected for the right reason. |
| KeyService.Service.CreateAPIKey | maas-api/internal/api_keys/service.go:110-211 | Succeeds exactly for acceptable requests with a selected subscription and stores exactly the one minted record; otherwise changes nothing. |
| KeyService.Service.CheckRequest | maas-api/internal/api_keys/service.go:118-151 | The lifetime granted is the one asked for, or the longest allowed, and is refused exactly for a bad group name, a lifetime not positive, or one too long. |
| KeyService.Service.ValidateAPIKey | maas-api/internal/api_keys/service.go:223-328 | The verdict follows format, hash look-up, status, subscription and id in that order; a blank subscription fails closed. |
| KeySearch.SearchQuery | maas-api/internal/api_keys/store_postgres.go:239-338 | For every combination of filters each placeholder number points at the argument appended for it, limit and offset take the last two, and the clauses select exactly the rows asked for. |
| KeySearch.AppendClause | maas-api/internal/api_keys/store_postgres.go:239-291 | Appending a clause with its own arguments narrows the meaning by that clause and disturbs no other placeholder. |
| KeySearch.FilterRows | maas-api/internal/api_keys/store_mock.go:189-242 | The in-memory pass and the two in-place compactions keep exactly the rows asked for, in their order. |
| KeySearch.KeepMatching | maas-api/internal/api_keys/store_mock.go:362-382 | The in-place compaction is a filter. |
| KeySearch.StoresAgree | maas-api/internal/api_keys/store_postgres.go:239-338 | Both stores return the same rows whenever no wanted label value is empty. |
| KeySearch.StoresDisagreeExactly | maas-api/internal/api_keys/store_mock.go:401-414 | The database never selects more, and selects less exactly on rows with labels that lack one wanted with the empty value. |
| KeySearch.StoresCanDisagree | maas-api/internal/api_keys/store_mock.go:401-414 | Such a row exists. |
| KeySearch.BulkRevokeWhereClause | maas-api/internal/api_keys/store_postgres.go:515-531 | The bulk clause is numbered without a gap and selects the tenant's active keys without expiry or expiring later, narrowed by user and subscription when given. |
| KeySearch.BulkScopesDifferExactly | maas-api/internal/api_keys/store_postgres.go:515-531 | The two stores would revoke different keys exactly at the instant a key expires. |
| KeySearch.ApplyPagination | maas-api/internal/api_keys/store_mock.go:318-334 | Returns the page of the rows at that offset and whether rows follow. |
| KeySearch.FetchPage | maas-api/internal/api_keys/store_postgres.go:306-410 | Fetching one row more than the limit and cutting it off gives the same page and the same answer whether rows follow. |
| KeySearch.WalkShowsEachRowOnce | maas-api/internal/api_keys/store_mock.go:318-334 | Asking on page by page shows every row once and in order, in full pages, and hasMore is false exactly at the last. |
| Selection.SelectForgetsOrder | maas-api/internal/subscription/selector.go:184-285 | With unique subscription names, model keys and aliases, any reordering of the two informer lists leaves every result and error of Select the same. |
| Selection.HighestForgetsOrder | maas-api/internal/subscription/selector.go:289-316 | The same for SelectHighestPriority. |
| Selection.AllAccessibleForgetsOrder | maas-api/internal/subscription/selector.go:120-169 | The same for GetAllAccessible, order of the list included. |
| Selection.SelectIsSound | maas-api/internal/subscription/selector.go:184-285 | A selected subscription is loaded, the caller's, includes the resolved model, is healthy for it, bears the requested name, and reports access exactly as the policies grant it. |
| Selection.SelectIsUnambiguous | maas-api/internal/subscription/selector.go:254-285 | Without a name, the selected subscription is the only candidate. |
| Selection.HighestIsFirst | maas-api/internal/subscription/selector.go:289-316 | The highest is the caller's and comes first among all accessible ones by priority, then token limit, then name. |
| Selection.HighestCanBeSelected | maas-api/internal/subscription/selector.go:184-316 | Asking by bare or qualified name for the highest, without a model, gives it or says it is unhealthy, the latter exactly when it is failed or unreconciled; it is never denied or unknown. |
| Selection.ListIsExact | maas-api/internal/subscription/selector.go:120-169 | The list shows exactly the caller's active or degraded subscriptions not being deleted, narrowed to authorized models and without those left with none, sorted by name. |
| Selection.Select | maas-api/internal/subscription/selector.go:184-285 | The loops with their early returns compute the specified choice. |
| Selection.SelectHighestPriority | maas-api/internal/subscription/selector.go:289-316 | Computes the specified choice. |
| Selection.GetAllAccessible | maas-api/internal/subscription/selector.go:120-169 | Computes the specified list. |
| Selection.NarrowInPlace | maas-api/internal/subscription/selector.go:151-161 | Narrowing and compacting in place is a map followed by a filter. |
| Selection.EnrichModelRefs | maas-api/internal/subscription/selector.go:347-370 | Every reference is overwritten in place with what the model it names says, and no other. |
| Selection.BuildModelIndex | maas-api/internal/subscription/selector.go:62-77 | The index maps each key to its last model, and is absent with the list. |
| Aggregation.Confluent | maas-api/internal/handlers/models.go:252-360 | When keys are unique in the list probed and names among the subscriptions, then in whatever two orders the probes arrive the list has the same models in the same places; only the order inside a model's subscriptions can differ. |
| Aggregation.ListedExactly | maas-api/internal/handlers/models.go:252-360 | A subscription's name stands under a model exactly when that subscription's own filtered list contains the model's key. |
| Aggregation.NothingIsLost | maas-api/internal/handlers/models.go:252-360 | A key is listed exactly when some subscription's filtered list contains it. |
| Aggregation.MergedSubscriptions | maas-api/internal/handlers/models.go:311-338 | Under each key are exactly the subscriptions that list it, each name once. |
| Aggregation.Aggregate | maas-api/internal/handlers/models.go:311-360 | The returned list holds every merged model once, by strictly rising id, url and owner. |
| Aggregation.MergeResults | maas-api/internal/handlers/models.go:311-338 | The nested loops compute the merge of all listings in arrival order. |
| Aggregation.AddSubscriptionIfNew | maas-api/internal/handlers/models.go:166-173 | Appends the subscription unless one of that name is there. |
| Aggregation.Probe | maas-api/internal/handlers/models.go:272-308 | A probe returns the servable ones among the models the subscription refers to. |
| Aggregation.FilterModelsBySubscription | maas-api/internal/handlers/models.go:464-487 | Keeps exactly the models whose owner is referenced, or all when there are no references. |
| Aggregation.FilterModelsByAccess | maas-api/internal/models/discovery.go:165-199 | Keeps exactly the ready models of a known kind. |
| AdminCache.HitAgreesWithDelegate | maas-api/internal/auth/cached_admin_checker.go:78-127 | In every interleaving, a hit returns an answer the delegate gave for the same key, and so for the same user name and groups when groups have names, that was stored less than its time to live before the lookup's clock reading. |
| AdminCache.NeverTooLarge | maas-api/internal/auth/cached_admin_checker.go:78-140 | However lookups interleave, the cache never exceeds its size. |
| AdminCache.KeysAgreeExactly | maas-api/internal/auth/cached_admin_checker.go:159-164 | For NUL-free names, keys are equal if and only if user name and group multiset are, or the users differ only in having no group and one group with the empty name. |
| AdminCache.KeyIdentifiesUser | maas-api/internal/auth/cached_admin_checker.go:159-164 | For NUL-free names and non-empty group names, keys are equal exactly for equal user name and group multiset. |
| AdminCache.ExpiringEntryLingers | maas-api/internal/auth/cached_admin_checker.go:93-140 | At the instant of its expiry an entry is neither served nor evicted. |
| AdminCache.CachedAdminChecker.IsAdmin | maas-api/internal/auth/cached_admin_checker.go:78-127 | A fresh entry answers unchanged; otherwise the delegate's answer is returned and, when definite, stored after eviction if it fits. |
| AdminCache.CachedAdminChecker.EvictExpired | maas-api/internal/auth/cached_admin_checker.go:134-140 | Removes exactly the entries expired before the given time. |

## Left out

- HTTP handlers, middleware, metrics, logging, TLS, configuration loading, webhooks and generated code: plumbing without properties of its own.
- The CEL and Rego text of the gateway policy: it runs in systems that are not part of this model.
- Postgres itself, transactions and migrations: only the clauses built and their meaning on a row.
- Sorting of search results, and where missing timestamps sort: the two stores differ there by design, so rows come in one agreed order.
- Failing API calls in the sequential classes: there calls succeed; the state machines let a pass stop after any call.
- Updating JSON trees in place: after a round trip no two trees share a part, so stripping a map is modelled as handing back the stripped map, with the source's loops.
- Failures of JSON encoding, and an ownership annotation that is the JSON text `null`: encoding is abstract.
- Truncation of condition messages to 1024 characters: the condition is modelled by the set of names it reports.
- Best-effort cleanup before forced finalizer removal: the timeout is a separate transition after which nothing is promised.
- Finalizers on roles, claims and gateway policies: deletion is modelled as gone or terminating.
- A controller without configured namespaces: label and policy clean-up then do nothing.
- Failing list and status calls of the conflict check: a reconcile that reaches the check succeeds.
- Objects that do not parse as subscriptions: the loader skips them before the modelled code runs.
- Description, display and billing fields that are only copied.
- Cancelled probes: every subscription's result arrives.
- Regular expressions, RFC 3339 text and UUID syntax: a character test, whole numbers and a parameter.
- TenantDeletion.EarlierGatewayKeepsItsLabels: covers the gateway of the pass's own copy of the AITenant only, because that is the one the code cleans up.
- Cutover.NoCutoverWithoutReplacement: protects models referenced when the pass listed the policies, because the code looks no further; Cutover.LateReferenceIsMissed shows that later references are not protected.
