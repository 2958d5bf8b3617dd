# A verified model of the SUNET/vc credential issuer

SUNET/vc issues and verifies digital credentials. This project models its most intricate
logic in Dafny and proves what that logic is for. It is split along the program's own
seams, one module per concern, and every module verifies together with the others:
`dafny verify dfyconfig.toml`.

**The claims pipeline.** `ClaimValues`, `ClaimMerging`, `SharedClaims` and `Derivations` model the
derivation chain over nested claims, the maps that its two documents share included,
`DerivationSteps` says what each derivation does and when a run fails, `CopiedClaims` which copies
are lost, `AttributeMapping` is the mapping of source attributes and defaults and `MappedClaims`
what the mapped document holds, `VctmFilter` and `VctmFilterProperties` the filter that keeps only what the credential type
metadata (VCTM) declares, and `OpeningClaims` the startup check that an opening secret never
reaches a credential. The main results are that one batch merge equals the step-by-step
working document whenever no object lands on a scalar, and for two fixed outputs exactly then,
that the filter keeps all and only what is declared and the check refuses exactly what it would
show, that the mapping does not depend on map
iteration order, and that two holders who differ only in the secret get the same document
unless a default lies beneath it, without derivations exactly then.

**The same chain over mutable maps.** The program merges in place, into maps that the outputs and
the working claims come to share. `ClaimsHeap` labels every map with the document it holds and
makes copies, `ClaimsSharing` says on snapshots which maps a merge writes and which it takes over,
`ClaimsInPlace` and `ClaimsClearing` merge and clear in place, `ClaimsReach` follows paths through
shared maps, `ClaimsSteps` finds what a step does to both documents, `ClaimsCommon` which maps the
two share after it, and `ClaimsPipeline` and `ClaimsRuns` run the whole. No map that existed before
is written, pins go back in as deep copies, and every run holds the documents of the run in
`Derivations`, lost copies included, and shares exactly the maps that this run says are shared. So
what is proved about that run is proved about the maps.

**The authorization-context store.** `AuthDocuments` and `AuthStore` give the in-memory store as
a state machine with delayed eviction callbacks, `StoreEffects` says of every operation what reads
find afterwards, `MemoryStore` is the class that implements it in place, and `IndexTables` and `AuthStoreIndex` prove that following an index equals scanning,
exactly as long as callers keep a stated discipline. `OneShotHandles` proves that a handle is
claimed at most once, and exactly which operations can take the last handle of a prepared issuance.
`MongoReplicas` interleaves the atomic steps of any number of replicas over one collection, claims,
resumes and whole-document writes included. `ReplicaBudgets` proves the redemption, attempt and
deadline budgets over every interleaving, `ReplicaLockouts` that lockouts are earned, and
`ReplicaHandles` the one-shot handles. `MemoryBudgets` carries them over to the in-memory store by
simulation, `BackendAgreement` says on which queries and operations the two backends agree, and
`ResumeBackends` when a resumed document reads back alike from both.

**Index migration.** `TtlIndexes` is one replica's startup code and `TtlMigration` any number of
replicas racing through it: expiry is never silently lost. `TtlStartup` ties the two: a replica
alone succeeds exactly when the startup code does.

**Request templates.** `Templates` is the template language and its evaluator, `TemplateAnalysis`
the startup analysis, `TemplateReads` says over the occurrences in a template exactly what it
reports, `TemplateSoundness` its soundness, and `TemplateSubstitution` the proof that
an accepted template only fills holes. `ClaimsText`, `ClaimsLexer`, `ClaimsJson`, `ClaimsDocuments`
and `ClaimsIsolation` carry that through JSON escaping, lexing, parsing and decoding to the
claims request itself (OIDC Core section 5.5). `ClaimsVariation` proves which claims vary with the
caller, and `ClaimsLimits` that what these theorems ask of a template is needed.

**Encodings and limits.** `Octets`, `Cbor` and `CborItems` support `DeviceAuthentication` (ISO 18013-5, section
9.1.3.4), `EcdsaSignatures` is section 3.4 of RFC 7518, `NameOrder`, `DistinguishedNames`,
`NameEquivalence` and `NameStability` are the canonical form of client names, and `RateLimit` is the
sliding window. `Wrappers` and `StringOrder` are shared.

## Where the code and its description differ

The model follows the code in each of these, and a lemma pins the difference down.

- A re-save that drops a handle leaves it resolving, and so does a rotation made through a
  handed-out pointer (`DroppedHandleStillResolves`, `RotationThroughPointerStillResolves`).
- The two backends try the one-shot handles in opposite orders, and a forfeit follows the code
  first in memory but the session, then the request URI, in MongoDB (`SameTargetExactly`,
  `AmbiguousReadsDiffer`, `SameForfeitExactly`).
- A resume in MongoDB writes one copy of the DCQL query while reading prefers the other, so an
  older query comes back (`ResumeAgreesExactly`, `OldQueryComesBack`).
- A copy whose output has three segments or more can be lost: when an earlier output made the map
  at its first segment, the outputs and the working claims share that map, and clearing the path
  for the second merge removes the value just copied (`LosesNestedCopy`). It is lost exactly when
  the working claims have no object right below a shared one on the way to its parent
  (`CopyLandsExactly`), and with one or two segments never (`NeverLostExactly`).
- A save without a creation time keeps that of the session in memory, as its comment says of both
  backends, but sets it to now in MongoDB, which restarts the retention (`SavesAgreeExactly`).
- The analysis does not look into chains such as `(.).name` (`ChainsEscapeTheAnalysis`).
- The structural check accepts templates in which the caller names a requested claim that is not
  reported: through a chain, through the whole map `{{.}}`, and through a placeholder after the
  second or third digit of a `\u` escape (`ChainsNameClaims`, `WholeMapNamesClaims`,
  `LateEscapesNameClaims`, `EveryCallerLexesExactly`).
- A claim that holds the sentinel as it is gets reported and never varies (`ReportedExactly`).
- A DER signature that happens to be as long as the fixed-width form is passed on unconverted
  (`DerNormalisesExactly`). Which ones are shows in the octets of their numbers, and there is one
  for each algorithm (`CoincidesExactly`, `SomePairIsUnconverted`).
- A default configured beneath the secret would show it (`DefaultBeneathShowsSecret`).
- A resume overwrites the deadline and may move it in (`ResumeSetsDeadline`).
- Names that differ can share a canonical form when a value ends inside an escape
  (`OpenCollides`, `NamesCollide`), and such a form can change when it is canonicalised again
  (`StableExactly`, `NameChangesAgain`).

## Model

| member | source | states |
|---|---|---|
| `ClaimValues.DottedPrefixIsSegmentPrefix` | pkg/configuration/opening_claims.go:150-152 | the textual test "equal, or a prefix followed by a dot" is the prefix order on path segments |
| `ClaimMerging.StepCommutesExactly` | pkg/credential/derivations.go:150-188 | merging a step commutes with the batch merge for every document if and only if the step never puts an object on an accumulated non-object |
| `ClaimMerging.SameShapeAbsorbs` | pkg/credential/derivations.go:172-223 | outputs that agree on which paths are objects meet that condition |
| `Derivations.MergeNestedClaims` | pkg/credential/derivations.go:209-223 | the loop over keys computes the deep merge in any iteration order |
| `Derivations.WalkPath` | pkg/credential/derivations.go:191-203 | the cursor walk finds the value at a path, or that there is none |
| `Derivations.ApplyDerivationsReplacing` | pkg/credential/derivations.go:57-101 | the loop over derivations, with clearing, merging, pins and copies that are lost in shared maps, computes the run of the list, and fails when one step fails |
| `Derivations.BatchEqualsIncremental` | pkg/credential/derivations.go:57-101 | without pins, one batch merge of outputs and replaced paths gives the working claims built step by step, whether copies land or are lost |
| `Derivations.SameShapeSteps` | pkg/credential/derivations.go:150-188 | that holds whenever no path is written as an object by one derivation and as a scalar by another |
| `Derivations.PinsStayAuthoritative` | pkg/credential/derivations.go:57-101 | after any list of steps the working claims hold exactly the pinned value of every pinned name |
| `Derivations.BatchOfTwoExactly` | pkg/credential/derivations.go:57-101 | for a list of two derivations with fixed outputs, batch and step-by-step agree for all claims if and only if no object of the second lands on a scalar of the first |
| `DerivationSteps.RunFailsExactly` | pkg/credential/derivations.go:74-91 | a run fails if and only if one of its derivations does after those before it: its own function fails on the claim it reads, a copy found its claim and has no output, or a random value has no output or a non-object on the way to it |
| `DerivationSteps.IdleChangesNothing` | pkg/credential/primitives/copy.go:14-26 | a copy of an absent claim, a random value for a claim that is there and not blank, and a hash commitment leave outputs, replaced paths and working claims alone, and the run goes on |
| `DerivationSteps.ComputedIsMerged` | pkg/credential/primitives/strings.go:107-128 | a primitive reads its claim, the literal key before the dotted path, and what it computes is merged into both documents |
| `DerivationSteps.RandomIsWritten` | pkg/credential/primitives/random.go:98-135 | a random value that is wanted goes to its path in both documents, and paths apart from it read as before |
| `DerivationSteps.CopyIsWritten` | pkg/credential/primitives/copy.go:14-26 | a copy that is not lost puts the value it read at its path |
| `CopiedClaims.CopyLandsExactly` | pkg/credential/derivations.go:86-95 | after the step of a copy the outputs have its value at its path if and only if the copy is not lost, and else nothing; the path counts as replaced either way |
| `CopiedClaims.NeverLostExactly` | pkg/credential/derivations.go:172-188 | a copy survives whatever list ran before it if and only if its path has at most two segments |
| `CopiedClaims.LosesNestedCopy` | pkg/credential/derivations.go:172-188 | for every path of three segments or more, runs of two derivations that lose what they copy there |
| `ClaimsHeap.CloneNestedClaims` | pkg/credential/derivations.go:250-260 | the copy holds the same document in new maps, at every depth, and shares only arrays |
| `ClaimsHeap.CloneValue` | pkg/credential/derivations.go:228-245 | a deep copy holds the same value and every map in it is new, in arrays too |
| `ClaimsInPlace.MergeNestedClaims` | pkg/credential/derivations.go:209-223 | merging in place leaves the destination holding the deep merge and the source as it was; it writes exactly the maps both nest at the same path, and every other map that shares them would merge to the same |
| `ClaimsClearing.ClearPath` | pkg/credential/derivations.go:180-188 | clearing in place leaves the document without the claim, removing one entry of the parent map or nothing, and from exactly the maps that nest that parent |
| `ClaimsClearing.ReachedIsHeld` | pkg/credential/derivations.go:191-203 | a path leads to a map if and only if the document has an object there, and that object is what the map holds |
| `ClaimsSteps.CopiesExactly` | pkg/credential/derivations.go:86-95 | a copy does to outputs and working claims what clearing and merging the documents do, if and only if the working claims' maps along its path do not stop short of the parent at a map the outputs have too |
| `ClaimsSteps.CopyIsLost` | pkg/credential/derivations.go:172-188 | otherwise it does what merging the output without the copied claim does |
| `ClaimsSteps.ComputedWorks` | pkg/credential/derivations.go:172-177 | an output that is no copy does to both what merging the documents does, shared maps or not |
| `ClaimsCommon.MapOrigin` | pkg/credential/derivations.go:86-95 | once an output is merged into both, the map at a path is the one the document had, if clearing left it one, and else the output's own |
| `ClaimsCommon.CommonAfter` | pkg/credential/derivations.go:86-95 | so the two have the same map at a path if and only if both have an object there and had the same map or neither had one |
| `ClaimsCommon.EntangledIsLost` | pkg/credential/derivations.go:172-188 | a copy meets the condition on maps under which it is lost if and only if it meets the one on documents and shared paths |
| `ClaimsPipeline.Step` | pkg/credential/derivations.go:79-96 | one derivation's output, in maps of its own, is merged into both, and what both hold and share afterwards is what the documents say |
| `ClaimsRuns.Restore` | pkg/credential/derivations.go:68-73 | every pin goes back in as a deep copy made of new maps, arrays included, and no other claim changes |
| `ClaimsRuns.PutPinsBack` | pkg/credential/derivations.go:68-73 | afterwards the two documents share what they shared, except beneath pinned names |
| `ClaimsRuns.ApplyDerivationsReplacing` | pkg/credential/derivations.go:57-101 | for every run: no map that existed before is written, every pin is in the working claims as a new deep copy, the run fails if and only if the run on documents does, and else the maps hold exactly its outputs and working claims, lost copies included, and share exactly the paths it says |
| `ClaimsRuns.ReplayIsRun` | pkg/credential/derivations.go:57-101 | the run on documents, shared paths included, is the run of the derivations that the outcomes come from |
| `VctmFilter.InsertAddsOnePath` | pkg/credential/vctm_filter.go:57-78 | inserting a path declares that path and no other |
| `VctmFilter.BuildAllowTree` | pkg/credential/vctm_filter.go:43-78 | the tree built in place holds exactly the declared paths |
| `VctmFilter.OneTreePerPathSet` | pkg/credential/vctm_filter.go:43-78 | there is one tree per set of paths, so the order of the metadata does not matter |
| `VctmFilter.FilterAgainstVctm` | pkg/credential/vctm_filter.go:18-41 | a document is filtered by the tree of its metadata, and to nothing without metadata |
| `VctmFilterProperties.KeptIsJustified` | pkg/credential/vctm_filter.go:80-155 | whatever is kept is unchanged input that lies at a declared path |
| `VctmFilterProperties.DeclaredIsKept` | pkg/credential/vctm_filter.go:80-155 | every declared path that resolves is kept with its value, arrays declared both ways and empty objects with declared descendants apart |
| `VctmFilterProperties.KeptWholeForEveryValue` | pkg/credential/vctm_filter.go:107-155 | a declared value is kept whole whatever it is if and only if nothing is declared beneath it |
| `VctmFilterProperties.KeptExactly` | pkg/credential/vctm_filter.go:107-155 | something of a value is kept if and only if a declared path resolves in it; nothing stays behind empty |
| `VctmFilterProperties.MemberKeptExactly` | pkg/credential/vctm_filter.go:80-105 | a claim of a document stays if and only if a declared path resolves in it |
| `VctmFilterProperties.ItemsKeptExactly` | pkg/credential/vctm_filter.go:142-155 | the elements of an array that are kept stay in order, each as often as it occurs |
| `VctmFilterProperties.FilterTwice` | pkg/credential/vctm_filter.go:107-155 | filtering a kept value again changes nothing |
| `VctmFilterProperties.FilterMapTwice` | pkg/credential/vctm_filter.go:80-105 | filtering a document twice equals filtering it once |
| `AttributeMapping.SetSucceedsExactly` | pkg/credential/attribute_mapping.go:121-153 | a nested set succeeds if and only if no parent of the path is a non-object |
| `AttributeMapping.SetReadsBack` | pkg/credential/attribute_mapping.go:121-185 | a path that was set reads back |
| `AttributeMapping.SetLeavesOthers` | pkg/credential/attribute_mapping.go:121-153 | paths apart from it read as before |
| `AttributeMapping.SetsCommute` | pkg/credential/attribute_mapping.go:121-153 | two sets at paths apart commute |
| `AttributeMapping.Apply` | pkg/credential/attribute_mapping.go:32-76 | the mapping loop performs the effects of its attributes in the order visited, and with claim paths apart gives what any other order would |
| `AttributeMapping.MappingIsConfluent` | pkg/credential/attribute_mapping.go:32-76 | with claim paths pairwise apart the document, or the failure, is the same for every iteration order |
| `MappedClaims.MappingExactly` | pkg/credential/attribute_mapping.go:32-87 | with claim paths apart, mapping fails if and only if a required attribute is absent or a value has no claim; otherwise each attribute is at its claim, with default, first value and array forms, and nothing else is in the document |
| `AttributeMapping.FindOverlap` | pkg/credential/attribute_mapping.go:93-118 | the loop over sorted paths, which looks at later ones only, finds an overlap of defaults if and only if there is one |
| `AttributeMapping.MergeDefaults` | pkg/credential/attribute_mapping.go:93-118 | it fails if and only if defaults overlap or one is blocked; otherwise absent defaults are filled in, one after the other in sorted order, and what the document held stays |
| `AttributeMapping.FillExactly` | pkg/credential/attribute_mapping.go:93-118 | filling fails if and only if a default is blocked; otherwise absent defaults are set, present claims keep their value, and every path apart from the defaults reads as before |
| `OpeningClaims.SecretStaysOut` | pkg/configuration/opening_claims.go:61-152 | if the check accepts a claim, two documents that differ only there give the same issued document through derivations, lost copies included, merge, defaults and filter |
| `OpeningClaims.DefaultBeneathShowsSecret` | pkg/credential/attribute_mapping.go:93-118 | a default beneath the secret path makes the outcome depend on the secret, for every path and every such default |
| `OpeningClaims.StaysOutExactly` | pkg/configuration/opening_claims.go:61-152 | with no derivations configured, an accepted claim stays out for every pair of holders if and only if no default lies beneath it |
| `OpeningClaims.CheckRefusesExactly` | pkg/configuration/opening_claims.go:61-152 | the check refuses a claim if and only if a configured input is the claim, holds it or lies in it, or a declared path, with any segment for a null, holds one of its two paths or lies in it |
| `OpeningClaims.DeclaredExactly` | pkg/configuration/opening_claims.go:106-135 | for metadata without null segments, the check sees a claim declared if and only if the filter tells apart two documents that differ only there |
| `OpeningClaims.WorkingClaimsAreIssued` | pkg/credential/derivations.go:147-155 | while no object lands on a scalar, what is issued is the working claims of the run, with defaults filled in, filtered |
| `AuthDocuments.KeyTextInjective` | pkg/cache/authcontext.go:598-632 | handles of different kind or value never share an index key |
| `AuthDocuments.CarriesExactly` | pkg/cache/authcontext.go:598-632 | a document is indexed under a handle if and only if that field is set to it |
| `IndexTables.PutExactly` | pkg/cache/authcontext.go:92-128 | writing a document and its index entries keeps lookups equal to scans if and only if its handles are free and none is left behind |
| `IndexTables.OverwriteExactly` | pkg/cache/authcontext.go:598-632 | a write that leaves the index alone keeps lookups right if and only if it changes no handle |
| `AuthStoreIndex.LookupIsScan` | pkg/cache/authcontext.go:1028-1059 | a lookup by one handle gives the one document that carries it, or none carries it |
| `AuthStoreIndex.StepExactly` | pkg/cache/authcontext.go:67-131 | every operation, eviction callbacks included, keeps lookups equal to scans if and only if its caller is disciplined |
| `AuthStoreIndex.ReachableStatesRefine` | pkg/cache/authcontext.go:53-1090 | in every state of every disciplined run lookups equal scans |
| `AuthStoreIndex.EmptyStoreRefines` | pkg/cache/authcontext.go:42-64 | the new store is such a state |
| `AuthStoreIndex.DroppedHandleStillResolves` | pkg/cache/authcontext.go:67-131 | a save that drops a handle leaves it resolving to a session that no longer has it |
| `AuthStoreIndex.RotationThroughPointerStillResolves` | pkg/cache/authcontext.go:698-731 | so does an update after writing through the stored pointer, while the update alone removes it |
| `MemoryStore.MemoryStore.UpdateIndices` | pkg/cache/authcontext.go:598-632 | the ten conditional writes add exactly the document's handles |
| `MemoryStore.MemoryStore.DeleteIndices` | pkg/cache/authcontext.go:757-791 | the deletes remove exactly the document's handles |
| `MemoryStore.MemoryStore.ResolveSessionID` | pkg/cache/authcontext.go:1028-1059 | the cascade of tests follows the first field that is set |
| `MemoryStore.MemoryStore.Get` | pkg/cache/authcontext.go:134-163 | a read answers by session, or by the first handle set, with its error cases |
| `MemoryStore.MemoryStore.GetByHandle` | pkg/cache/authcontext.go:474-494 | a read by one handle, empty and unknown ones included |
| `MemoryStore.MemoryStore.Save` | pkg/cache/authcontext.go:67-131 | stores the document under its session, anchors its creation time, adds its handles and drops none; an invalid one changes nothing |
| `MemoryStore.MemoryStore.Update` | pkg/cache/authcontext.go:698-731 | replaces a live document and trades its old handles for the new ones; an unknown session is an error |
| `MemoryStore.MemoryStore.Delete` | pkg/cache/authcontext.go:734-754 | removes the document and its handles and schedules its callback; an unknown session is no error |
| `MemoryStore.MemoryStore.RotateRefreshToken` | pkg/cache/authcontext.go:498-539 | replaces the document only when the old token is its current one and the session is the same |
| `MemoryStore.MemoryStore.ForfeitAuthorizationCode` | pkg/cache/authcontext.go:219-265 | marks the document found by code, or else by request URI, once; a second time is an error |
| `MemoryStore.MemoryStore.MarkCodeAsForfeited` | pkg/cache/authcontext.go:794-817 | the same by session, without reindexing |
| `MemoryStore.MemoryStore.RedeemPreAuthorizedCode` | pkg/cache/authcontext.go:272-322 | adds a thumbprint that is new, on a code that is not forfeited and has fewer than ten; each other case has its own error |
| `MemoryStore.MemoryStore.ConsumeTXCodeAttempt` | pkg/cache/authcontext.go:328-363 | counts an attempt up to five, and forfeits the code on the one after |
| `MemoryStore.MemoryStore.Consent` | pkg/cache/authcontext.go:366-395 | sets consent on the document of a request URI and nothing else |
| `MemoryStore.MemoryStore.ExtendExpiry` | pkg/cache/authcontext.go:399-439 | moves the deadline out and never in |
| `MemoryStore.MemoryStore.AddToken` | pkg/cache/authcontext.go:442-471 | puts the token on the document of a code and indexes it |
| `MemoryStore.MemoryStore.SetAuthenticSource` | pkg/cache/authcontext.go:542-566 | sets that field by session and nothing else |
| `MemoryStore.MemoryStore.SetIdentifier` | pkg/cache/authcontext.go:569-595 | sets that field by session and nothing else |
| `MemoryStore.MemoryStore.SetAuthProvider` | pkg/cache/authcontext.go:1063-1090 | sets the provider fields by session and nothing else |
| `MemoryStore.MemoryStore.ClaimAuthSession` | pkg/cache/authcontext.go:826-839 | takes the handle off the one document that holds it; a dangling index entry is dropped |
| `MemoryStore.MemoryStore.ClaimIssuerState` | pkg/cache/authcontext.go:847-913 | replaces the whole document of the same session that holds the handle, without the handle |
| `MemoryStore.MemoryStore.ResumeIssuerState` | pkg/cache/authcontext.go:918-960 | trades the issuer_state for the resume's fields, auth_session among them |
| `MemoryStore.MemoryStore.OnEviction` | pkg/cache/authcontext.go:53-57 | a callback drops the index entries of the document it was scheduled for |
| `StoreEffects.DeleteRemoves` | pkg/cache/authcontext.go:734-754 | after a deletion the session is gone and every other as it was, no handle of its document leads anywhere, and one callback for it is pending; an unknown session changes nothing |
| `StoreEffects.ExpiryRemoves` | pkg/cache/authcontext.go:42-64 | an expired document is gone, its handles lead nowhere, and one callback for it is pending |
| `StoreEffects.CallbackDrops` | pkg/cache/authcontext.go:53-57 | a pending callback runs once and takes the handles of its document away; no document changes |
| `StoreEffects.SaveStores` | pkg/cache/authcontext.go:67-131 | a save stores the document under its session with its own creation time, that of the session or the present one, and its handles lead to it |
| `StoreEffects.UpdateReplaces` | pkg/cache/authcontext.go:698-731 | after an update the handles of the new document lead to it and those only the old one had lead nowhere |
| `StoreEffects.RotationReplaces` | pkg/cache/authcontext.go:498-539 | the same for a rotation, with each of its refusals |
| `StoreEffects.ForfeitSpends` | pkg/cache/authcontext.go:219-265 | by code before request URI, once |
| `StoreEffects.MarkSpends` | pkg/cache/authcontext.go:794-817 | by session, once, with no change to lookups |
| `StoreEffects.RedeemAdds` | pkg/cache/authcontext.go:272-322 | a code takes ten clients, each once, with thumbprints of at most 128 characters; each refusal has its condition |
| `StoreEffects.AttemptCounts` | pkg/cache/authcontext.go:328-363 | a code takes five attempts, and the next forfeits it |
| `StoreEffects.ConsentSets` | pkg/cache/authcontext.go:366-395 | exactly the consent of the document of a request URI changes |
| `StoreEffects.ReadFinds` | pkg/cache/authcontext.go:134-163 | a read finds the document of the session it names, or of the first handle it sets, in the order of the fields |
| `StoreEffects.ExtensionMovesOut` | pkg/cache/authcontext.go:399-439 | the deadline of that document moves out and never in |
| `StoreEffects.TokenIsAdded` | pkg/cache/authcontext.go:442-471 | exactly the token of the document of a code changes, and its handle leads there |
| `StoreEffects.SourceIsSet` | pkg/cache/authcontext.go:542-566 | exactly the authentic source of a session changes |
| `StoreEffects.IdentifierIsSet` | pkg/cache/authcontext.go:569-595 | exactly the identifier of a session changes |
| `StoreEffects.ProviderIsSet` | pkg/cache/authcontext.go:1063-1090 | exactly the four provider fields of a session change, each to its own value |
| `StoreEffects.AuthSessionIsClaimed` | pkg/cache/authcontext.go:826-839 | a claim takes the handle off the document that has it, and only that handle stops leading there |
| `StoreEffects.IssuerStateIsClaimed` | pkg/cache/authcontext.go:847-913 | a claim puts the claimant, without the handle, in the place of the document of the same session that has it |
| `StoreEffects.IssuerStateIsResumed` | pkg/cache/authcontext.go:918-960 | a resume puts its ten fields in the place of the handle and leaves every other field |
| `OneShotHandles.ClaimedOnce` | pkg/cache/authcontext.go:826-1024 | between two successful claims of one handle some operation put it back: before it no document held the handle, and after it one did |
| `OneShotHandles.ClaimSucceedsExactly` | pkg/cache/authcontext.go:918-1024 | a claim succeeds if and only if a live document holds the handle |
| `OneShotHandles.ClaimWithDocumentExactly` | pkg/cache/authcontext.go:847-913 | a claim with a document succeeds if and only if the document is valid and its session holds the handle |
| `OneShotHandles.FailedClaimCostsNothing` | pkg/cache/authcontext.go:973-1024 | a failed claim changes no document |
| `OneShotHandles.ResumeKeepsReachableExactly` | pkg/cache/authcontext.go:918-960 | a resume keeps the document reachable if and only if it brings an auth_session |
| `OneShotHandles.NeverLosesBothHandles` | pkg/cache/authcontext.go:826-1024 | a live prepared issuance is found through one of its two handles over every run in which each operation on that session leaves it one, whatever is done to other sessions |
| `OneShotHandles.StepSparesExactly` | pkg/cache/authcontext.go:826-1024 | a session with a handle that an operation does not remove keeps one if and only if the operation spares it, which its arguments and the stored document decide |
| `ReplicaBudgets.BudgetsHold` | pkg/cache/mongo_store.go:100-792 | over every interleaving of any number of replicas, claims, resumes and whole writes included, and since a document was last written whole: one forfeit at most and nothing after it, at most ten distinct redeemers, at most five attempts, and the budgets, deadline and one-shot handles stored are the initial ones with exactly the reported changes |
| `ReplicaBudgets.NothingAfterForfeit` | pkg/cache/mongo_store.go:337-449 | after a forfeit nothing redeems, tries or forfeits the code |
| `ReplicaBudgets.LatestIsMaximum` | pkg/cache/mongo_store.go:481-503 | the stored deadline is the maximum of what the last resume set and the extensions since |
| `ReplicaBudgets.ResumeSetsDeadline` | pkg/cache/mongo_store.go:754-792 | a resume stores its own deadline, and so may move it in |
| `ReplicaLockouts.LockoutsAreEarned` | pkg/cache/mongo_store.go:398-449 | over every interleaving without whole writes a lockout follows five attempts, and a code reported as exceeded is forfeited |
| `ReplicaLockouts.NextAttemptLocksOut` | pkg/cache/mongo_store.go:398-449 | the attempt after the budget is used up locks the code out |
| `ReplicaHandles.ClaimedOnce` | pkg/cache/mongo_store.go:680-792 | over every interleaving, between two successful claims of one handle a resume or whole write installed it again |
| `ReplicaHandles.FreshKeepsUnique` | pkg/cache/mongo_store.go:680-792 | every step that installs a fresh handle only keeps each handle on one document |
| `ReplicaHandles.ClaimFailsExactly` | pkg/cache/mongo_store.go:680-792 | a claim fails if and only if no document holds the handle, and then changes nothing |
| `ReplicaHandles.NeverLosesBothHandles` | pkg/cache/mongo_store.go:680-792 | over every interleaving a prepared issuance keeps one of its two handles unless its auth_session is claimed or it is written without one |
| `MemoryBudgets.RunIsReplicaRun` | pkg/cache/authcontext.go:67-960 | every disciplined run of the memory store is a run of the replicas that reports the same events |
| `MemoryBudgets.MemoryBudgetsHold` | pkg/cache/authcontext.go:67-960 | so the memory store keeps the same budgets over every run, and holds what it reported |
| `MemoryBudgets.MemoryLockoutsAreEarned` | pkg/cache/authcontext.go:328-363 | and without whole writes its lockouts follow five attempts |
| `BackendAgreement.SameTargetExactly` | pkg/cache/mongo_store.go:623-652 | both backends follow the same field of a query if and only if it is not ambiguous between the one-shot handles |
| `BackendAgreement.ReadsAgree` | pkg/cache/mongo_store.go:135-155 | on every other query the memory store's answer is the only one MongoDB can give |
| `BackendAgreement.AmbiguousReadsDiffer` | pkg/cache/mongo_store.go:623-652 | for every ambiguous query some store makes them differ |
| `BackendAgreement.AttemptsAgree` | pkg/cache/mongo_store.go:398-449 | an uninterrupted attempt leaves the same documents and gives the same reply in both |
| `BackendAgreement.RedeemsAgree` | pkg/cache/mongo_store.go:337-391 | a redemption leaves the same documents and gives the same reply, the reason of a refusal included |
| `BackendAgreement.MarksAgree` | pkg/cache/mongo_store.go:307-330 | so does marking a code by session, replies included |
| `BackendAgreement.SavesAgreeExactly` | pkg/cache/mongo_store.go:100-127 | a save leaves the same documents in both if and only if it does not give a session with a creation time a new one |
| `BackendAgreement.RotationsAgree` | pkg/cache/mongo_store.go:547-571 | a rotation leaves the same documents in both and succeeds in both or in neither |
| `BackendAgreement.ExtensionsAgree` | pkg/cache/mongo_store.go:481-503 | so does an extension by an unambiguous query, replies included |
| `BackendAgreement.SameForfeitExactly` | pkg/cache/mongo_store.go:262-304 | a forfeit follows the same field in both if and only if the query names no session and not both a code and a request URI |
| `BackendAgreement.ForfeitsAgree` | pkg/cache/mongo_store.go:262-304 | then an uninterrupted forfeit does the same in both and gives the same reply |
| `ResumeBackends.MarshalBson` | pkg/cache/authcontext_bson.go:19-80 | encoding with its retry fails if and only if something besides the query cannot be stored; what it stores reads back as it was, and an older build reads the query as BSON rounds it or none |
| `ResumeBackends.RoundsExactly` | pkg/cache/authcontext_bson.go:19-80 | a query survives BSON if and only if each of its numbers does |
| `ResumeBackends.RoundTrip` | pkg/cache/authcontext_bson.go:19-110 | a document written and read back is itself, but for sub-millisecond creation time |
| `ResumeBackends.ResumeAgreesExactly` | pkg/cache/mongo_store.go:754-792 | a resume in MongoDB read back equals the in-memory resume on every field if and only if the creation time has no part below a millisecond, no other exact query was stored and the new one is BSON-exact |
| `ResumeBackends.OldQueryComesBack` | pkg/cache/authcontext_bson.go:82-110 | over a document that held another query the old one is read back |
| `TtlIndexes.ReadState` | pkg/cache/ttl_index.go:313-412 | the loop over a listing finds the state of the index in any order of the listing |
| `TtlIndexes.ReadingMeans` | pkg/cache/ttl_index.go:313-412 | an index that is read is plain on the key, and has the generated name or is the only candidate and already expires |
| `TtlIndexes.ReadingExactly` | pkg/cache/ttl_index.go:313-412 | from the indexes alone: the one plain index that expires, whatever its name, is read as matching or changed by its expiry; a plain one with the generated name and no expiry as not expiring; and nothing is read if and only if there is neither |
| `TtlIndexes.Collection.RebuildTtlIndex` | pkg/cache/ttl_index.go:468-512 | dropping and recreating touches no foreign index, and success means the wanted expiry is in force |
| `TtlIndexes.Collection.EnsureIndexes` | pkg/cache/ttl_index.go:56-194 | one replica's startup succeeds if and only if no other index conflicts, no foreign index has the generated name, and the plain index, if there is one, can be brought to the new expiry; then the indexes are the old ones with the wanted index under the name the plain one had, and otherwise unchanged; no foreign index is touched |
| `TtlMigration.RunKeeps` | pkg/cache/ttl_index.go:56-194 | the invariant of the migration holds over every interleaving of replicas |
| `TtlMigration.NeverSilentlyUnexpired` | pkg/cache/ttl_index.go:56-194 | if the collection expired documents at the start, then it does, or some replica stands between its drop and its recreation; once one succeeded every index has the new expiry |
| `TtlMigration.OthersUntouched` | pkg/cache/ttl_index.go:313-412 | no foreign index, nor a non-expiring one under another name, is ever dropped or modified |
| `TtlMigration.ChangesAreDeliberate` | pkg/cache/ttl_index.go:56-194 | an index that a call removes or changes is plain on the key and had been read; a failing call changes nothing |
| `TtlMigration.FailedRecreationUnexpires` | pkg/cache/ttl_index.go:468-512 | a reachable state from which one failed recreation leaves the collection without expiry, so the assumption on recreation is needed |
| `TtlStartup.AloneExactly` | pkg/cache/ttl_index.go:56-194 | a replica that migrates alone, call by call, succeeds if and only if that startup code does, and leaves the same indexes |
| `TemplateAnalysis.TemplateAccess.WalkList` | pkg/configuration/policy_claim_isolation.go:320-343 | walking a list adds exactly its accesses to what was found before |
| `TemplateAnalysis.TemplateAccess.WalkNode` | pkg/configuration/policy_claim_isolation.go:320-352 | the same for each kind of node, branches, loops and named templates included |
| `TemplateAnalysis.TemplateAccess.WalkControlFlow` | pkg/configuration/policy_claim_isolation.go:354-367 | the same for a branch, whose condition's reads count as control flow |
| `TemplateAnalysis.TemplateAccess.WalkPipe` | pkg/configuration/policy_claim_isolation.go:370-388 | the same for a pipe, reads in a pipe of several commands counting as transformed, and it tells whether the pipe reads the caller |
| `TemplateAnalysis.TemplateAccess.WalkCommand` | pkg/configuration/policy_claim_isolation.go:390-438 | the same for a command: named reads, unattributed ones, and those that go through a function |
| `TemplateReads.AccessExactly` | pkg/configuration/policy_claim_isolation.go:294-438 | over the occurrences in a template: a key is reported if and only if a command names it as a field or through index; an unattributed read if and only if there is a named template or, outside the form index . "name", a dot, a variable or a field path that is not one name; a transform if and only if a printed pipe of several commands reads or a call other than that form takes a read; control flow if and only if the pipe of a branch or loop reads |
| `TemplateSoundness.AnalysisIsSound` | pkg/configuration/policy_claim_isolation.go:294-438 | a chain-free template that is not opaque renders alike, or fails alike, for callers that agree on the reported keys, through branches, loops, rebinding, pipes and calls |
| `TemplateSoundness.ChainsEscapeTheAnalysis` | pkg/configuration/policy_claim_isolation.go:390-438 | with chains that fails, for every key |
| `TemplateSubstitution.AcceptedIsSubstitution` | pkg/configuration/policy_claim_isolation.go:369-438 | an accepted template renders, for every caller, as one fixed text with the caller's parameters put verbatim in its holes |
| `TemplateSubstitution.ListHoles` | pkg/configuration/policy_claim_isolation.go:369-438 | every hole takes a reported key |
| `ClaimsText.EscapedIsContent` | internal/apigw/auth_providers/oidcrp/service.go:870-890 | an escaped value neither ends its string nor leaves an escape open |
| `ClaimsText.EscapedKeepsOut` | internal/apigw/auth_providers/oidcrp/service.go:870-890 | no control character, angle bracket, ampersand or JavaScript line separator is in an escaped value |
| `ClaimsJson.EscapeDecodes` | internal/apigw/auth_providers/oidcrp/service.go:870-890 | decoding undoes escaping |
| `ClaimsLexer.LexPut` | pkg/configuration/policy_claim_isolation.go:152-205 | every caller's text has the tokens of the template with the strings filled in |
| `ClaimsLexer.SentinelIsMarker` | pkg/configuration/policy_claim_isolation.go:233-236 | the repository's sentinel is a marker as the theorems ask |
| `ClaimsLexer.EveryCallerLexesExactly` | pkg/configuration/policy_claim_isolation.go:189-205 | when the sentinel rendering lexes, every caller's does if and only if no hole stands after the second or third digit of a \u escape |
| `ClaimsJson.ParsePut` | pkg/configuration/policy_claim_isolation.go:189-205 | the document of a filled text is the filled document |
| `ClaimsJson.MarkedExactly` | pkg/configuration/policy_claim_isolation.go:519-533 | a decoded string shows the sentinel if and only if it has a hole, or holds the sentinel as it is |
| `ClaimsDocuments.EveryCallerAgrees` | pkg/configuration/policy_claim_isolation.go:152-252 | if no key of the sentinel rendering shows it, every caller's request is JSON that differs from it only in marked strings |
| `ClaimsDocuments.UnmarkedIsFixed` | pkg/configuration/policy_claim_isolation.go:519-533 | an unmarked part is equal for all of them |
| `ClaimsIsolation.FilledUnder` | pkg/configuration/policy_claim_isolation.go:480-512 | the loop over one token's claims collects exactly those that are filled |
| `ClaimsIsolation.ClaimsFilledByCaller` | pkg/configuration/policy_claim_isolation.go:449-515 | it reports exactly the claims that carry a sentinel, all of them when the analysis cannot tell, and acr by its own template; it fails exactly when the rendering is no object |
| `ClaimsIsolation.FilledExactly` | pkg/configuration/policy_claim_isolation.go:449-515 | over the occurrences in the template: a claim is reported if and only if the template reads the caller, the sentinel rendering requests the claim under either token, and it shows the sentinel or the template reads without a name, in a condition or through a function |
| `ClaimsIsolation.RequestsHaveOneShape` | pkg/configuration/policy_claim_isolation.go:152-252 | a template that the structural check accepts asks for the same members for all callers |
| `ClaimsIsolation.PlaceholderIsAccepted` | pkg/configuration/policy_claim_isolation.go:132-205 | the documented forms, {{.key}} and {{index . "key"}} inside a string, pass the check and meet what the theorems ask, for every key |
| `ClaimsIsolation.UnfilledClaimIsFixed` | pkg/configuration/policy_claim_isolation.go:449-533 | a claim that is not reported carries the same constraint for all callers |
| `ClaimsVariation.StringVariesExactly` | pkg/configuration/policy_claim_isolation.go:519-533 | a string differs between two callers if and only if it has a hole |
| `ClaimsVariation.ClaimVariesExactly` | pkg/configuration/policy_claim_isolation.go:449-533 | the constraint on a claim differs between two callers if and only if a string of it that counts has a hole |
| `ClaimsVariation.ReportedExactly` | pkg/configuration/policy_claim_isolation.go:449-533 | a claim is reported if and only if it varies or holds the sentinel as it is |
| `ClaimsLimits.ChainsNameClaims` | pkg/configuration/policy_claim_isolation.go:152-205 | for every key a template with a chain passes the check, while callers who differ ask for different claims that are not reported |
| `ClaimsLimits.WholeMapNamesClaims` | pkg/configuration/policy_claim_isolation.go:152-205 | so does one that prints the whole map |
| `ClaimsLimits.LateEscapesNameClaims` | pkg/configuration/policy_claim_isolation.go:189-252 | so does one with a placeholder after the second digit of a \u escape |
| `ClaimsIsolation.UnfilledAcrIsFixed` | pkg/configuration/policy_claim_isolation.go:449-462 | an unreported acr_values template renders alike for all callers |
| `Cbor.SkipExtends` | pkg/mdoc/device_auth_bytes.go:71-74 | a well-formed item ends where it ends, whatever follows it |
| `Cbor.HeadReads` | pkg/mdoc/device_auth_bytes.go:76-95 | a head read back gives its type and argument |
| `Cbor.HeadExactly` | pkg/mdoc/device_auth_bytes.go:76-95 | the octets of a head, as few as hold its argument |
| `CborItems.IsItemExactly` | pkg/mdoc/device_auth_bytes.go:71-74 | octets are accepted as one item if and only if they are those of a well-formed one, of any type and either length form |
| `DeviceAuthentication.BuildReads` | pkg/mdoc/device_auth_bytes.go:55-97 | transcript, document type and namespaces can be decoded back |
| `DeviceAuthentication.LayoutExactly` | pkg/mdoc/device_auth_bytes.go:55-97 | the octets that are signed, head by head: tag 24, a byte string, an array of four, and its parts |
| `DeviceAuthentication.ContextIsText` | pkg/mdoc/device_auth_bytes.go:76-80 | the context is the text DeviceAuthentication |
| `DeviceAuthentication.BuildIsInjective` | pkg/mdoc/device_auth_bytes.go:55-97 | two inputs give the same bytes if and only if they are the same after normalising namespaces |
| `DeviceAuthentication.NormalisedExactly` | pkg/mdoc/device_auth_bytes.go:138-151 | absent namespaces coincide with the encoded empty map and nothing else |
| `DeviceAuthentication.BuildRefusesExactly` | pkg/mdoc/device_auth_bytes.go:55-97 | exactly present-but-empty namespaces and a transcript that is not one item are refused |
| `DeviceAuthentication.NeverLegacy` | pkg/mdoc/device_auth_bytes.go:106-121 | no output equals one of the older shape |
| `EcdsaSignatures.EncodeFixedSize` | pkg/jose/jws_signature.go:64-77 | the buffer holds both numbers in k octets each, or the pair is refused if and only if one needs more |
| `EcdsaSignatures.EnsureJwsSignature` | pkg/jose/jws_signature.go:32-60 | the branches compute the normalised signature |
| `EcdsaSignatures.DerReads` | pkg/jose/jws_signature.go:46-56 | the DER form of a pair reads back |
| `EcdsaSignatures.ReadDerExactly` | pkg/jose/jws_signature.go:46-60 | octets read as a pair of numbers if and only if they are its DER form with shortest lengths and integers, with nothing after it |
| `EcdsaSignatures.SmallPair` | pkg/jose/jws_signature.go:46-60 | the DER form of a pair of small numbers, octet by octet |
| `EcdsaSignatures.SizesExactly` | pkg/jose/jws_signature.go:17-36 | numbers take 32, 48 and 66 octets for ES256, ES384 and ES512, and no other algorithm is converted |
| `EcdsaSignatures.DerNormalisesExactly` | pkg/jose/jws_signature.go:32-77 | the DER form of (r, s) becomes 2k octets that decode back to (r, s) if and only if it is not 2k octets long itself |
| `EcdsaSignatures.CoincidesExactly` | pkg/jose/jws_signature.go:32-60 | the DER form of a pair that fits is 2k octets long if and only if its two numbers take 58, 90 or 125 octets, by algorithm |
| `EcdsaSignatures.SomePairIsUnconverted` | pkg/jose/jws_signature.go:32-60 | for each algorithm a pair that fits and whose DER form is passed on as it is and reads as another pair |
| `EcdsaSignatures.OverlongIsRefused` | pkg/jose/jws_signature.go:64-70 | the DER form of a pair is refused if and only if it is not 2k octets long and a number needs more than k |
| `EcdsaSignatures.AlwaysFixedWidth` | pkg/jose/jws_signature.go:32-60 | every accepted signature has 2k octets, and normalising it again changes nothing |
| `DistinguishedNames.SplitUnescaped` | pkg/grpchelpers/server.go:314-374 | the loop with its escape flag computes the pieces between unescaped separators, for both separator sets |
| `DistinguishedNames.ParseDnString` | pkg/grpchelpers/server.go:281-311 | the nested loops collect the attributes of all parts and skip malformed ones |
| `DistinguishedNames.ShortNameIsStable` | pkg/grpchelpers/server.go:169-202 | a canonical type name is its own canonical name |
| `DistinguishedNames.ShortNameExactly` | pkg/grpchelpers/server.go:169-202 | a type name, alias or OID has the short name of exactly the type it spells |
| `DistinguishedNames.CanonicalFromAttrs` | pkg/grpchelpers/server.go:393-410 | sorting in place and joining prints the sorted attributes |
| `DistinguishedNames.CanonicalizeDn` | pkg/grpchelpers/server.go:214-222 | the whole computes the canonical form |
| `NameOrder.SortInPlace` | pkg/grpchelpers/server.go:398-403 | the array ends up sorted by type and value |
| `NameOrder.SortForgetsOrder` | pkg/grpchelpers/server.go:398-403 | two lists sort alike if and only if they hold the same attributes |
| `NameOrder.SortedExactly` | pkg/grpchelpers/server.go:398-403 | in order means by type, and within one type by value |
| `StringOrder.StringLeqExactly` | pkg/grpchelpers/server.go:398-403 | and strings by the first character in which they differ, a beginning before the whole |
| `NameEquivalence.CanonicalIsFlat` | pkg/grpchelpers/server.go:214-311 | for every name, splitting into components and then parts finds the attributes that splitting on all unescaped separators finds |
| `NameEquivalence.PrintReadsBackExactly` | pkg/grpchelpers/server.go:393-410 | printed attributes read back if and only if all but the last end outside an escape |
| `NameEquivalence.CanonicalIsStable` | pkg/grpchelpers/server.go:214-222 | for such names canonicalising twice equals once |
| `NameEquivalence.SameCanonicalExactly` | pkg/grpchelpers/server.go:204-222 | two such names share a canonical form if and only if they hold the same attributes |
| `NameEquivalence.OpenCollides` | pkg/grpchelpers/server.go:214-222 | every attribute that ends inside an escape and sorts before another gives two names with one canonical form and different attributes |
| `NameEquivalence.NamesCollide` | pkg/grpchelpers/server.go:214-222 | for instance o=b,cn=a\ and cn=a\,o=b |
| `NameStability.SameFormExactly` | pkg/grpchelpers/server.go:204-222 | any two names share a canonical form if and only if their sorted attributes are the same once each that ends inside an escape has taken in the next |
| `NameStability.StableExactly` | pkg/grpchelpers/server.go:214-222 | canonicalising any name twice equals once if and only if these attributes are still in order |
| `NameStability.NameChangesAgain` | pkg/grpchelpers/server.go:214-222 | for instance cn=a\+,cn=a\+,cn=a\ changes again |
| `NameEquivalence.SpellingMakesNoDifference` | pkg/grpchelpers/server.go:204-222 | names written with any escapes that are complete share one if and only if their entries mean the same, in any order |
| `NameEquivalence.RewritingMakesNoDifference` | pkg/grpchelpers/server.go:204-222 | respelling each entry and reordering, with any separators, leaves the canonical form alone |
| `NameEquivalence.PaddingAndCaseAreAlike` | pkg/grpchelpers/server.go:281-390 | case and padding are such respellings |
| `NameEquivalence.MalformedIsSkipped` | pkg/grpchelpers/server.go:281-311 | a part without an equals sign makes no difference to the canonical form |
| `RateLimit.MemoryRateLimitCounter.IncrementWithTTL` | pkg/cache/ratelimit.go:62-103 | the entry of the key is rotated and counted, others stay, and the estimate is returned |
| `RateLimit.MemoryRateLimitCounter.Cleanup` | pkg/cache/ratelimit.go:106-120 | exactly the stale entries are removed |
| `RateLimit.CountersAreExact` | pkg/cache/ratelimit.go:62-103 | on every run in order of time the two counters are the exact counts of the current window and the one before |
| `RateLimit.CountersCoverTrailingWindow` | pkg/cache/ratelimit.go:62-103 | together they cover the trailing window, and the estimate lies between the current counter and their sum |
| `RateLimit.EstimateExactly` | pkg/cache/ratelimit.go:93-103 | the estimate is what came in the current window and, rounded up, the share of the one before that the rest of the current window makes |
| `RateLimit.IntervalsAreBounded` | pkg/httphelpers/middleware.go:427-450 | no interval of one window's length lets more through than the limit, or twice the limit less two where that is more |
| `RateLimit.BoundIsAttained` | pkg/httphelpers/middleware.go:427-450 | a run that lets exactly that many through |
| `RateLimit.SweepingIsUnobservedExactly` | pkg/cache/ratelimit.go:106-120 | the cleanup is never noticed if and only if two windows fit in its five minutes |

## Left out

- The bodies of the derivation primitives: a computing primitive is an arbitrary function of its one input claim; only copy and random are written out.
- recordProvenance and copyProvenance, which choose between two error messages: they would only add easy members.
- The mdoc branch of checkClaimWithheld, and the hash-commitment openings themselves.
- ClaimsRuns.ApplyDerivationsReplacing: what each derivation computes is given, as documents; ReplayIsRun says that the run is then that of the derivations.
- Derivations.ApplyDerivationsReplacing: works on documents and keeps the shared paths beside them; ClaimsRuns.ApplyDerivationsReplacing works on the maps and gives the same.
- OpeningClaims.SecretStaysOut: asks that no configured default lies beneath the secret path; StaysOutExactly shows that this is the exact condition when no derivations are configured. With a list that writes at the secret path itself a default there may be harmless.
- OpeningClaims.StaysOutExactly: is for an empty list of derivations.
- OpeningClaims.DeclaredExactly: is for metadata whose paths have at least one segment and neither nulls nor the wildcard text; with a null the check is the more careful one, since it takes any segment for it while the filter takes array elements only.
- MappedClaims.MappingExactly: asks for claim paths apart, as MappingIsConfluent does; with others the document depends on the order of a map.
- DerivationSteps.RandomIsWritten: without pins, which would put their own values back.
- TtlStartup.AloneExactly: leaves out the answer that the index is gone, which a replica alone does not get.
- Nil arguments of the store methods, and contexts and locks: every method is atomic.
- Aliasing of stored documents: a caller that writes through a handed-out pointer is one operation of the machine (CallerWrites).
- The cache library's timing: expiry is a step that can happen at any time, and its callback a later one.
- ReplicaLockouts.LockoutsAreEarned: asks for no whole-document write, which may store any count of attempts.
- ReplicaHandles.ClaimedOnce: asks that no two documents hold the handle at once, which FreshKeepsUnique keeps as long as handles are fresh.
- Session touching, GetWithAccessToken and GetSnapshot, which are reads like Get.
- Template variables that are reassigned, break and continue, and the parser of templates: trees are given.
- TemplateSoundness.AnalysisIsSound: chains are outside it; ChainsEscapeTheAnalysis shows that it fails with them.
- ClaimsIsolation.RequestsHaveOneShape: chains, reads that cannot be put down to a name, and holes late in a \u escape are outside it; ClaimsLimits shows that it fails with each of them.
- ClaimsIsolation.UnfilledClaimIsFixed: the same.
- ClaimsDocuments.EveryCallerAgrees: holes late in a \u escape are outside it; LateEscapesNameClaims shows that it fails with them.
- Numbers in a request are kept as text, so the range check on floating point is not modelled; strings are sequences of Unicode scalar values.
- DeviceAuthentication.BuildRefusesExactly: the CBOR library's limits on nesting and size, which refuse more, are not modelled; lengths are those a 64-bit head can hold.
- EcdsaSignatures.OverlongIsRefused: numbers of 2^28 octets and more are not considered.
- Negative DER integers lose their sign in the fixed-width form; the model does the same and says no more about them.
- NameEquivalence.CanonicalIsStable: asks that no attribute but the last ends inside an escape; NameStability.StableExactly has the exact condition for every name.
- NameEquivalence.SameCanonicalExactly: asks the same of both names; NameStability.SameFormExactly is for every pair.
- RateLimit.BoundIsAttained: for limits of two and more, in windows of at least twice as many nanoseconds.
- Case mapping and white space are a parameter with the properties of the Unicode tables that the proofs use.
- certCanonicalDN, the interceptors and the allowlists, which only look the canonical form up.
- Rounding of the rate estimate: weights are real numbers, so the ceiling may differ by one from the floating-point one. The MongoDB and Redis counters are not part of this model.
- Everything else in the repository: configuration loading, HTTP, key handling, the verifier's protocols and the user interfaces.
