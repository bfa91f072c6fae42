# Swarmy: what its decision code promises

Swarmy runs containers on a fleet of machines. Most of its repository moves bytes between a
browser, a controller, agents and Docker. A few parts decide something on their own, and those are
modelled here as Dafny functions and classes, with proofs of what they promise.

- **The tiered certificate store.** Each edge keeps its certificates on its own disk and mirrors
  them to a shared replica that may fail at any moment. Proved: no write is lost, a sync makes the
  tiers agree exactly when the mtimes let it, the next sync moves nothing, deleted keys stay deleted,
  a dead replica costs one call a backoff, and no two edges hold one lock unless one of them was let
  through without the replica.
- **The Content Security Policy rewriter.** Before a script tag is put into a page, the policies of
  the response are rewritten to admit it. Proved against the reading of a browser (Content Security
  Policy Level 3: sections 2.3.1, 6.7.2, 6.7.3.2 and 6.8.3): what the new policies admit, and that
  nothing else changes.
- **The HTML injector.** A response writer that inserts that tag into a document as it streams by.
  Proved: what the client gets does not depend on how the body was cut into writes.
- **Access control.** One policy language with two evaluators, a JSON engine and a translation to
  Cedar expressions. Proved: both decide alike, and for each clause exactly when they do not.
- **Windows and caches.** The request-rate window, the response cache and the webhook deduper forget
  on every call. Proved: each answers as its whole history would.
- **The .env file.** Printing and parsing undo each other.
- **The log splitter.** An incremental decoder of Docker's multiplexed streams.
- **The agent's link and the browser terminals.** Two state machines over timers, sockets and
  commands, proved over every interleaving.

## How it is laid out

Each part has a specification (pure functions of the state, the arguments, the time and the answers
of the outside world), proofs about it over all inputs and all runs, and, where the source changes
things in place, a class or a method whose `ensures` ties its new state to the specification.

| part | specification | proofs | in place |
|---|---|---|---|
| store | `TieredModel` | `TieredSync`, `TieredRuns`, `TieredAnswers`, `TieredLocks` | `TieredStore`, `TieredLocks` |
| policies | `Csp`, `CspMeaning` | `CspText`, `CspPlan`, `CspTheorems`, `CspExamples` | `CspCode` |
| injector | `Injector` | `InjectorProofs`, `InjectorAnswers` | `Injector.InjectWriter` |
| access control | `AbacModel`, `AbacParse`, `Cedar`, `CedarTranslation` | `AbacParse`, `AbacDecisions`, `CedarProofs` | `CedarCode` |
| caches | `RpmWindow`, `LruCache`, `DeliveryDeduper` | the same | the same |
| .env | `Dotenv` | `DotenvProofs` | `DotenvCode` |
| log splitter | `LogDemux` | `LogDemux` | `LogDemux.Demuxer` |
| agent link | `AgentConnection` | `AgentConnection` | `AgentConnection.Connection` |
| terminals | `Terminal` | `Terminal`, `TerminalRuns`, `TerminalTraffic` | `TerminalHub` |

Clocks, random numbers and the answers of replicas, sockets and databases are arguments. A replica
call either is answered or fails, as the caller of the model chooses, call by call; a write that
fails may have landed all the same, as after a timeout.

## Where the code does less than it is meant to

Each of these is proved with its exact condition and a run or an input that meets it.

- A write whose mirror was held back reaches both tiers only if it is newer than the replica's own copy
  by more than two seconds, although the comments say that the newer copy wins. Within two seconds the
  next sync forgets it: the replica keeps the old value, and nothing is pending. Where the replica's
  copy is newer by more than that, the sync puts the old value back on the disk and the write is
  overwritten (`TieredRuns.MissedWriteIff`, by example `TieredRuns.CloseWriteIsLost` and
  `TieredRuns.EarlyWriteIsOverwritten`).
- A script list with a token that looks like a nonce but is none by the grammar can cost the page the
  tag, and so does an http page that a list names only by its https address (`CspTheorems.PlanAdmitsIff`,
  by example `CspExamples.MalformedNonceLosesTag` and `CspExamples.HttpsAddressLosesTag`). One with a
  token that looks like a hash but is none can stop the inline scripts of the page
  (`CspTheorems.PlanKeepsInlineIff`, by example `CspExamples.MalformedHashStopsInline`).
- Rewriting policies twice adds a nonce twice when the governing lists disagree on their first nonce
  (`CspTheorems.PlanTwiceIff`, by example `CspExamples.TwoNoncesGrow`).
- The two access-control engines part on five clauses: a wildcard resource type and an empty label
  clause without a resource; an owner known only by user id or team; an empty member id; and a label or
  an attribute for which a document wants a list, an object or null, which the JSON engine never finds
  and the translation finds as its text (`CedarProofs.TypesAgreeIff`, `LabelsAgreeIff`,
  `AttributesAgreeIff`, `OwnerAgreesIff` and `MembersAgreeIff` in the same module, each with an example
  on which the engines decide differently).
- A variable called `__proto__`, or one whose value has a carriage return in it, does not survive the
  .env file; every other one does, beside such ones too (`DotenvProofs.RoundTripIff`).
- A log stream of fewer than eight bytes without a frame is never passed on
  (`LogDemux.RawPassesThrough`). After more than eight stray bytes behind a frame, decoding starts again
  wherever the next chunk begins, so what comes out depends on the cutting
  (`LogDemux.CuttingIsInvisibleIff`, by example `LogDemux.StrayExample`).
- `redial` with no connecting or open socket starts a second dial beside the pending one
  (`AgentConnection.RedialKeepsTokenIff`, by example `AgentConnection.RedialBesideTimer`), and dials even
  after a stop (`AgentConnection.StoppedStepIff`, by example `AgentConnection.RedialAfterStop`).
- A browser that closes its terminal while its policy is being loaded is not noticed: the session comes
  to life and stays until something else ends it (`TerminalRuns.CloseIsMissedIff`, by example
  `TerminalRuns.MissedCloseExample`).

## Model

| member | source | states |
|---|---|---|
| `TieredRuns.NoLostWrite` | docker/caddy-swarmy/certstore/tiered.go:215-307 | over every run of loads, stores, stats, lists, deletes and syncs, through any replica failures, with writes clear of the tolerance: every write not deleted since is the local value, and once nothing is pending both tiers agree on every syncable key and the replica holds that value |
| `TieredRuns.MissedWriteIff` | docker/caddy-swarmy/certstore/tiered.go:242-266 | when the mirror of a write was missed, the next completed sync leaves nothing pending and brings the write to both tiers if and only if it is newer than the replica's copy by more than the tolerance or changes nothing; both tiers end with the old value if and only if the replica's copy is the newer one by that much |
| `TieredRuns.CloseWriteIsLost` | docker/caddy-swarmy/certstore/tiered.go:578-606 | a concrete write one second after the replica's copy that a fully answered sync forgets, with nothing pending afterwards |
| `TieredRuns.EarlyWriteIsOverwritten` | docker/caddy-swarmy/certstore/tiered.go:590-600 | a concrete write older than the replica's copy that a fully answered sync overwrites on the disk |
| `TieredRuns.DeleteMakesGone` | docker/caddy-swarmy/certstore/tiered.go:271-307 | after a delete the key is absent locally and absent on the replica or remembered |
| `TieredRuns.DeletedStaysDeleted` | docker/caddy-swarmy/certstore/tiered.go:497-611 | in every run that neither loads nor stores the key it stays so, through failing and partial syncs, and from the first completed sync on it is absent from both tiers |
| `TieredRuns.DeadReplicaIsCheap` | docker/caddy-swarmy/certstore/tiered.go:116-148 | calls to a replica that never answers are at least one backoff apart, however many keys are asked for |
| `TieredAnswers.LoadFindsTheWrite` | docker/caddy-swarmy/certstore/tiered.go:215-219 | in every run of `TieredRuns.NoLostWrite` a Load of a key that was written and not deleted since answers the last value written, without asking the replica |
| `TieredAnswers.LoadAsksTheReplica` | docker/caddy-swarmy/certstore/tiered.go:220-239 | a key the disk does not have is asked for exactly when the breaker lets it, and found exactly if the replica answers and holds it; no answer trips the breaker, an answer resets it |
| `TieredAnswers.SecondLoadIsLocal` | docker/caddy-swarmy/certstore/tiered.go:228-238 | what was found on the replica is kept: the next Load finds it without a call, whatever the replica does |
| `TieredAnswers.LoadIsLocalFirst` | docker/caddy-swarmy/certstore/tiered.go:216-219 | a file on the disk is answered from it, and a directory there is no file |
| `TieredAnswers.StatAnswers` | docker/caddy-swarmy/certstore/tiered.go:323-342 | the time of the disk's file, or of the replica's copy exactly if it is asked, answers and holds one |
| `TieredAnswers.ListAsks` | docker/caddy-swarmy/certstore/tiered.go:346-371 | a listing asks the replica exactly when the breaker lets it, trips or resets the breaker by the answer, and changes neither tier |
| `TieredAnswers.StoreMirrors` | docker/caddy-swarmy/certstore/tiered.go:242-266 | a write is on the disk at once and on the replica in the same step exactly if that is asked and takes it; it is left dirty exactly if there was no answer |
| `TieredAnswers.StoreAligns` | docker/caddy-swarmy/certstore/tiered.go:251-266 | the call of a write trips or resets the breaker, and after an answer the file takes over the time the replica gave its copy |
| `TieredAnswers.LoadAligns` | docker/caddy-swarmy/certstore/tiered.go:228-238 | so it is with a file fetched by a Load |
| `TieredAnswers.PullWrites` | docker/caddy-swarmy/certstore/tiered.go:633-654 | a pull writes the disk only if the value differs, and takes over the replica's time if it gives one |
| `TieredAnswers.RootIsDirectory` | docker/caddy-swarmy/certstore/tiered.go:271-291 | the empty key is the directory that holds everything |
| `TieredAnswers.NodeLocalStays` | docker/caddy-swarmy/certstore/tiered.go:468 | staples are never sent to the replica nor asked of it |
| `TieredAnswers.DeleteReplicaAsks` | docker/caddy-swarmy/certstore/tiered.go:293-307 | a key is deleted on the replica exactly when that is asked and it lands, and is remembered exactly when there was no answer |
| `TieredAnswers.DeleteMakesTreeGone` | docker/caddy-swarmy/certstore/tiered.go:271-291 | deleting a directory deletes all below it on the disk, and all the replica lists below it |
| `TieredAnswers.SyncReports` | docker/caddy-swarmy/certstore/tiered.go:497-611 | the counts of a completed sync are the numbers of syncable keys to pull and to push by their mtimes and values, and of remembered deletes |
| `TieredAnswers.CompletedSync` | docker/caddy-swarmy/certstore/tiered.go:497-611 | a sync completes only if probe and listing were answered and nobody cancelled it, and then leaves the breaker closed |
| `TieredAnswers.WhatIsSynced` | docker/caddy-swarmy/certstore/tiered.go:474-485 | a file in a directory is synced unless it is a lock, a challenge token or a staple or its name begins with a dot; one at the root is not |
| `TieredSync.SyncSettles` | docker/caddy-swarmy/certstore/tiered.go:497-611 | a completed sync leaves nothing pending, copies one-sided keys, lets a copy newer by more than the tolerance win on both sides, leaves closer ones untouched, and touches no other key; with all calls answered it completes |
| `TieredSync.SyncIsQuiescent` | docker/caddy-swarmy/certstore/tiered.go:497-654 | after a fully answered sync with reported mtimes a second one pulls, pushes and deletes nothing and changes neither tier, however late and whatever is answered then |
| `TieredSync.SyncAgreesIff` | docker/caddy-swarmy/certstore/tiered.go:560-611 | a completed sync makes the tiers agree if and only if differing copies were further apart than the tolerance |
| `TieredSync.EachSettles` | docker/caddy-swarmy/certstore/tiered.go:578-602 | the reconcile loop settles each key it visits, keeps every other one, and does nothing where the mtimes are level |
| `TieredStore.Tiered.Load` | docker/caddy-swarmy/certstore/tiered.go:215-239 | the class keeps to the specification: local first, then the replica through the breaker, with the fetched copy kept and its mtime taken over |
| `TieredStore.Tiered.Store` | docker/caddy-swarmy/certstore/tiered.go:242-266 | writes locally, forgets a remembered delete, mirrors through the breaker or turns dirty |
| `TieredStore.Tiered.Stat` | docker/caddy-swarmy/certstore/tiered.go:323-342 | local first, then the replica through the breaker |
| `TieredStore.Tiered.Delete` | docker/caddy-swarmy/certstore/tiered.go:271-307 | the loop over the doomed keys does what the fold of single replica deletes does, from the keys of both tiers |
| `TieredStore.Tiered.SyncOnce` | docker/caddy-swarmy/certstore/tiered.go:497-611 | the whole sync with its four loops and their early returns, equal to the specification in state and in the counts it reports |
| `TieredLocks.EdgeLocks.Lock` | docker/caddy-swarmy/certstore/tiered.go:374-396 | takes the local lock, then the replica's unless the breaker is open or the probe fails; an error gives the local lock back |
| `TieredLocks.EdgeLocks.Unlock` | docker/caddy-swarmy/certstore/tiered.go:399-412 | releases on the replica what was taken there, and the local lock |
| `TieredLocks.RunsStayConsistent` | docker/caddy-swarmy/certstore/tiered.go:374-412 | in every run of any number of edges the replica's lock table names exactly the edge that believes it holds each lock |
| `TieredLocks.TwoHoldersMeanFailedOpen` | docker/caddy-swarmy/certstore/tiered.go:374-396 | at most one edge has a replica lock; when two hold one lock, one of them was granted it, and has not released it since, with its breaker open or after a failed probe |
| `TieredLocks.FailedLockHoldsNothing` | docker/caddy-swarmy/certstore/tiered.go:381-395 | a Lock that fails changes nothing of what the edge holds, and fails for the replica's answer only |
| `TieredLocks.LockHolds` | docker/caddy-swarmy/certstore/tiered.go:374-396 | exactly when a Lock succeeds, what it then holds in which tier, and that no other lock changes |
| `TieredLocks.LockProbes` | docker/caddy-swarmy/certstore/tiered.go:378-392 | a Lock leaves the breaker open for the backoff if a probe of its failed, and closed otherwise |
| `TieredLocks.UnlockFrees` | docker/caddy-swarmy/certstore/tiered.go:399-412 | an Unlock leaves nothing held and gives the replica's lock back exactly if it was taken there and the replica hears of it |
| `TieredLocks.LockPassesOn` | docker/caddy-swarmy/certstore/tiered.go:374-412 | from any state of a run, a lock that one edge gives back is there for another |
| `CspText.RoundTrip` | docker/caddy-swarmy/rum/csp.go:32-54 | what the parser produces is printed to a text that parses back to it, and normalising twice is normalising once |
| `CspText.SerializeInjective` | docker/caddy-swarmy/rum/csp.go:44-54 | two parsed policies print alike only if they are the same |
| `CspText.ReadsDirective` | docker/caddy-swarmy/rum/csp.go:32-42 | a directive reads as its name in lower case and its tokens as they stand, with any white space between them and any policy after it |
| `CspText.ReadsBlank` | docker/caddy-swarmy/rum/csp.go:32-42 | a blank directive does not count |
| `CspMeaning.GoverningLists` | docker/caddy-swarmy/rum/csp.go:113-121 | the lists the planner looks up are those a browser's fallback chains choose for script elements and connections |
| `CspPlan.AdmitLists` | docker/caddy-swarmy/rum/csp.go:140-193 | for every fetch type, the list a browser sees after the rewrite is the old one, or for scripts and connections the old one and the added source |
| `CspPlan.WhatIsAdded` | docker/caddy-swarmy/rum/csp.go:74-163 | a script list of nonces and hashes gets the nonce unless that is its first, any other gets 'self' unless one of its tokens names the origin; so does a connect list |
| `CspPlan.ScriptListAdmitsIff` | docker/caddy-swarmy/rum/csp.go:146-163 | the extended script list admits the tag if and only if it needed a nonce and that nonce is one by the grammar, or a browser matches one of its sources (keywords, schemes, hosts, wildcard hosts, ports, paths) against the page's origin, or the planner did not find that origin in it |
| `CspPlan.ConnectListAdmitsIff` | docker/caddy-swarmy/rum/csp.go:179-193 | the extended connect list admits the page's own origin unless the page is http, the planner took an https address for it, and no source of the list matches it |
| `CspPlan.InlineKeptIff` | docker/caddy-swarmy/rum/csp.go:146-172 | adding the source keeps what 'unsafe-inline' means if and only if no good nonce was added to a list where it counted |
| `CspTheorems.PlanRefusesIff` | docker/caddy-swarmy/rum/csp.go:137-184 | the response is left alone if and only if some policy governs scripts or connections by 'none' alone |
| `CspTheorems.PlanRewrites` | docker/caddy-swarmy/rum/csp.go:124-203 | each policy becomes its own admission under the one nonce of the plan; unchanged ones keep their text, and the plan says so exactly when something changed |
| `CspTheorems.PlanKeepsLists` | docker/caddy-swarmy/rum/csp.go:124-203 | across the whole plan no fetch type loses a source, none but scripts and connections gains one, and these gain at most one |
| `CspTheorems.PlanAdmitsIff` | docker/caddy-swarmy/rum/csp.go:124-203 | for all policies: the output admits the tag with the plan's nonce if and only if the first nonce the policies bring along is one by the grammar where a nonce is needed or a source matches, and otherwise the list does not name an http page by https alone; connections likewise |
| `CspTheorems.PlanAdmits` | docker/caddy-swarmy/rum/csp.go:124-203 | on an https page, well-formed policies always come out admitting the tag and same-origin connections |
| `CspTheorems.PlanKeepsInlineIff` | docker/caddy-swarmy/rum/csp.go:137-203 | for all policies: inline scripts run under the output exactly when they ran before, if and only if no good nonce was added to a list where 'unsafe-inline' counted |
| `CspTheorems.PlanKeepsInline` | docker/caddy-swarmy/rum/csp.go:137-203 | under a well-formed policy nothing changes for inline scripts and event handlers |
| `CspTheorems.PlanTwiceIff` | docker/caddy-swarmy/rum/csp.go:124-203 | planning the output again changes something if and only if some governing script list needs a nonce and has a first one other than the plan's |
| `CspExamples.MalformedNonceLosesTag` | docker/caddy-swarmy/rum/csp.go:74-82 | every token that begins like a nonce but is none by the grammar, alone in a script list, makes the browser refuse the tag |
| `CspExamples.HttpsAddressLosesTag` | docker/caddy-swarmy/rum/csp.go:95-111 | every http page that a script list has by its https address only is refused the tag |
| `CspExamples.TwoNoncesGrow` | docker/caddy-swarmy/rum/csp.go:128-157 | two policies with different nonces, whatever these are, grow when they are planned again |
| `CspExamples.MalformedHashStopsInline` | docker/caddy-swarmy/rum/csp.go:84-93 | a concrete malformed hash token with which inline scripts stop running |
| `CspCode.ParsePolicy` | docker/caddy-swarmy/rum/csp.go:32-42 | the parser's loop gives the specified directives |
| `CspCode.FindNonce` | docker/caddy-swarmy/rum/csp.go:128-136 | the loop finds the first nonce of the governing lists, or none |
| `CspCode.PlanPolicies` | docker/caddy-swarmy/rum/csp.go:124-203 | the planner's loop with its early returns gives the specified plan |
| `Injector.InjectWriter.OnHeader` | docker/caddy-swarmy/rum/handler.go:282-339 | decides on the header as `Injector.WriteHeader`, which `InjectorAnswers.InjectedIff` is proved about |
| `Injector.InjectWriter.OnWrite` | docker/caddy-swarmy/rum/handler.go:382-453 | a write in every mode of the writer, bytes and header as specified |
| `Injector.InjectWriter.OnFinish` | docker/caddy-swarmy/rum/handler.go:469-504 | the end of the body in every mode |
| `InjectorProofs.ScanSends` | docker/caddy-swarmy/rum/handler.go:382-504 | for every body and every cutting, the client gets the body with the tag once in front of the first end of head, or the body as it is; the first exactly when the document is editable and no write filled the scan window too early |
| `InjectorProofs.ChunkingIsInvisible` | docker/caddy-swarmy/rum/handler.go:382-504 | a body shorter than the window comes out the same however it is cut, edited by its content alone |
| `InjectorProofs.GzipSends` | docker/caddy-swarmy/rum/handler.go:430-444 | a compressed body is edited as a whole, or passed on byte by byte when it is too large |
| `InjectorProofs.ResponseSent` | docker/caddy-swarmy/rum/handler.go:282-504 | once the header has decided, no byte is lost or repeated, and only an edited document carries rewritten policies |
| `InjectorAnswers.InjectedIff` | docker/caddy-swarmy/rum/handler.go:282-504 | a response gets the tag, and says so, if and only if it is html with status 200, may be transformed, is whole, not declared too large and of a known encoding, its policies are absent or may and can be rewritten, and its body takes the tag; then it is the edited text with the rewritten policies |
| `InjectorAnswers.LeftAlone` | docker/caddy-swarmy/rum/handler.go:341-345 | every other response keeps its policies and its bytes, except that a compressed one opened in vain is sent as its own text |
| `InjectorAnswers.CompressedIff` | docker/caddy-swarmy/rum/handler.go:348-376 | exactly which responses are compressed on the way out |
| `InjectorAnswers.HeaderSaysWhy` | docker/caddy-swarmy/rum/handler.go:295-333 | an html response that is not scanned says why: the first of seven reasons |
| `InjectorAnswers.EditableIff` | docker/caddy-swarmy/rum/handler.go:378-400 | a document takes the tag exactly if it has a "</head" in any case and no meta policy before the first one |
| `InjectorAnswers.BodyMeansOk` | docker/caddy-swarmy/rum/handler.go:421-424 | a body without a status is a 200 |
| `AbacParse.ParseRoundTrip` | packages/abac/src/policy.ts:59-147 | a parsed document written out parses to itself |
| `AbacParse.ParsedDocIsCanonical` | packages/abac/src/policy.ts:117-147 | every condition that parses has a known path, a non-empty list where one is due, and normalised values |
| `AbacParse.NormTwice` | packages/abac/src/attrs.ts:26-46 | normalising an environment twice is normalising it once |
| `AbacDecisions.ParsesIff` | packages/abac/src/policy.ts:59-147 | a document is taken if and only if every clause has its type, every relation is one of three, and every condition has a known path, a known operator and the value it takes |
| `AbacDecisions.ConditionReads` | packages/abac/src/policy.ts:132-138 | a condition on the environment is read by the environment it names, any other by its text |
| `AbacModel.Select` | packages/abac/src/engine.ts:59-80 | the matching policies of an effect, all of them and no other |
| `CedarProofs.EvaluateDecides` | packages/abac/src/engine.ts:59-80 | forbid wins, nothing matching means deny, and the policy named is the first of the highest priority among the matching ones of the deciding effect |
| `AbacDecisions.TypeDecides` | packages/abac/src/attrs.ts:94 | one permit with a condition on resource.type allows exactly the resources of that type |
| `AbacDecisions.IdDecides` | packages/abac/src/attrs.ts:95 | so for resource.id |
| `AbacDecisions.LabelDecides` | packages/abac/src/attrs.ts:96-98 | so for a label: the value's text, or that of an item of a list |
| `AbacDecisions.RoleDecides` | packages/abac/src/attrs.ts:99 | so for principal.role, by the roles |
| `AbacDecisions.GroupsDecide` | packages/abac/src/attrs.ts:67-77 | so for principal.groups: the principal's groups, its teams, and three attributes |
| `AbacDecisions.AttributeDecides` | packages/abac/src/attrs.ts:101 | so for any other attribute of the principal |
| `AbacDecisions.TextReads` | packages/abac/src/attrs.ts:55-60 | the text of a list that stands inside another, of an object and of a null |
| `AbacDecisions.EnvDecides` | packages/abac/src/attrs.ts:26-53 | so for resource.env: the explicit environment, else the first of two labels that names one, by its aliases in any case |
| `AbacDecisions.TestsDecide` | packages/abac/src/attrs.ts:121-136 | the other five operators, by the one for equality |
| `AbacDecisions.ActionsDecide` | packages/abac/src/policy.ts:149-152 | an action list allows its actions, everything if empty or with the wildcard |
| `AbacDecisions.RolesDecide` | packages/abac/src/policy.ts:179-183 | so a role list, by the roles held |
| `AbacDecisions.TypesDecide` | packages/abac/src/policy.ts:185-187 | a list of resource types demands a resource, even with the wildcard |
| `AbacDecisions.RelationsDecide` | packages/abac/src/policy.ts:205-209 | a relation list demands a resource with one of them |
| `AbacDecisions.GroupListDecides` | packages/abac/src/policy.ts:211-214 | a group list, by the groups above |
| `AbacDecisions.MemberListDecides` | packages/abac/src/policy.ts:216-219 | a member list, by the non-empty member and user ids |
| `AbacDecisions.OwnerDecides` | packages/abac/src/policy.ts:154-170 | who owns a resource: by relation, member, user or team |
| `CedarProofs.EnginesAgree` | packages/abac/src/cedar.ts:43-188 | for every policy set and request on which no clause of a document parts, the engine over Cedar, with its fallback, decides as the JSON engine does |
| `CedarProofs.CedarDecides` | packages/abac/src/cedar.ts:43-129 | for all policies and requests that Cedar can read, it allows exactly what some translated permit and no translated forbid matches, each clause with its gaps |
| `CedarProofs.OnePermitAgreesIff` | packages/abac/src/cedar.ts:167-188 | a single permit is decided alike if and only if Cedar cannot read it or the document matches as its translation does |
| `CedarProofs.SupportedDocsAgree` | packages/abac/src/cedar.ts:43-188 | documents of the supported shape agree on every request |
| `CedarProofs.DocTranslates` | packages/abac/src/cedar.ts:43-92 | the translated condition of any document is true, without error, exactly when the request meets every clause or its gap |
| `CedarProofs.ConditionAgrees` | packages/abac/src/cedar.ts:103-123 | on every path it was built for, the pre-computed record stands in for the attribute lookup, for each operator and for unset attributes |
| `CedarProofs.TypesAgreeIff` | packages/abac/src/cedar.ts:58-61 | the resource-type clause agrees except with a wildcard and no resource |
| `CedarProofs.LabelsAgreeIff` | packages/abac/src/cedar.ts:62-66 | the label clause agrees except with no labels and no resource, or where a list, an object or null is wanted and its text is there |
| `CedarProofs.AttributesAgreeIff` | packages/abac/src/cedar.ts:67-71 | the attribute clause agrees except where a list, an object or null is wanted and its text is there |
| `CedarProofs.EntryAgreesIff` | packages/abac/src/cedar.ts:131-135 | one entry is true in the record exactly when the values are the same, or in that one case |
| `CedarProofs.AttributeGapExample` | packages/abac/src/cedar.ts:131-135 | a list in the document: Cedar permits what the JSON engine denies |
| `CedarProofs.OwnerAgreesIff` | packages/abac/src/cedar.ts:72-74 | the owner clause agrees except where the engine counts an owner by user id or team |
| `CedarProofs.MembersAgreeIff` | packages/abac/src/cedar.ts:82-85 | the member clause agrees except where an empty id is listed and the principal has none |
| `CedarCode.PolicyDocToCedar` | packages/abac/src/cedar.ts:43-92 | the translator's pushes give the specified conjunction, clause by clause |
| `CedarCode.PrecomputeAttrs` | packages/abac/src/cedar.ts:191-197 | the loop records each referenced path that has values, and no other |
| `CedarCode.LiteralRoundTrip` | packages/abac/src/cedar.ts:33-35 | an escaped value between quotes reads back whole, whatever follows it |
| `RpmWindow.Limiter.Allow` | apps/api/src/ai-gateway.ts:81-91 | decides and records as specified |
| `RpmWindow.WindowIsHistory` | apps/api/src/ai-gateway.ts:81-91 | the pruned list has the window of the whole history of granted hits |
| `RpmWindow.AllowedIff` | apps/api/src/ai-gateway.ts:81-91 | a call is granted exactly when fewer than rpm of all the granted calls of its key lie in the 60 seconds that end with it |
| `RpmWindow.MinuteIsBounded` | apps/api/src/ai-gateway.ts:77-92 | with one limit, no minute at all holds more granted hits than the limit |
| `LruCache.TtlLruCache.Lookup` | apps/api/src/ai-gateway.ts:111-121 | a hit moves to the end, an expired entry goes, a miss changes nothing |
| `LruCache.TtlLruCache.Insert` | apps/api/src/ai-gateway.ts:123-131 | sets at the end and evicts from the front until the size fits |
| `LruCache.RunsAgree` | apps/api/src/ai-gateway.ts:104-132 | in every run map order is recency order, each entry is its key's latest set, and a key that is missing has expired or seen max others since it was touched |
| `LruCache.GetIsRight` | apps/api/src/ai-gateway.ts:111-121 | a get returns only the key's latest value within its time to live, and always does when fewer than max other keys were touched since; size never exceeds max |
| `DeliveryDeduper.Deduper.OnDelivery` | apps/api/src/webhook-verify.ts:125-134 | the purge with its early exit and the answer, as specified |
| `DeliveryDeduper.RunsAgree` | apps/api/src/webhook-verify.ts:118-135 | in every run the map holds the last acceptance of each id it knows, in time order, and an id it has forgotten is stale or was followed by max others |
| `DeliveryDeduper.NothingStale` | apps/api/src/webhook-verify.ts:127-130 | stopping at the first fresh entry leaves no expired one; at most max + 1 ids |
| `DeliveryDeduper.AcceptedIff` | apps/api/src/webhook-verify.ts:125-134 | in every run a delivery is let through if and only if it has no id, or its id was never let through, or was at least the time to live ago, or at least max other ids were since |
| `DeliveryDeduper.AcceptedTwice` | apps/api/src/webhook-verify.ts:125-134 | so an id is let through again within its time to live only after at least max other ids |
| `DotenvProofs.RoundTripIff` | apps/cli/src/dotenv.ts:5-65 | for all variables and values: the parsed file gives for a key the last value it was given, or nothing if there was none, if and only if that key is not `__proto__` and that value has no carriage return in it |
| `DotenvProofs.JoinsLines` | apps/cli/src/dotenv.ts:18-26 | a quoted value that falls apart at its carriage returns is joined again up to its own closing quote, and the lines after it are left for the next variable |
| `DotenvProofs.EscapeRoundTrip` | apps/cli/src/dotenv.ts:41-55 | escaping and unescaping any value gives it back |
| `DotenvProofs.UnescapeReads` | apps/cli/src/dotenv.ts:27-30 | three escapes are read as what they stand for, any other backslash as itself |
| `DotenvProofs.AssignmentReads` | apps/cli/src/dotenv.ts:5-55 | a printed assignment reads back as its key and value, for every value |
| `DotenvProofs.ExportReads` | apps/cli/src/dotenv.ts:11 | an assignment may be written as an export |
| `DotenvProofs.SingleQuotesRead` | apps/cli/src/dotenv.ts:18-30 | between single quotes everything stands for itself, and what comes after is a comment |
| `DotenvProofs.AfterQuoteIsComment` | apps/cli/src/dotenv.ts:18-30 | so it is behind a double quote that closes |
| `DotenvProofs.BareCommentReads` | apps/cli/src/dotenv.ts:31-34 | a value without quotes ends at a '#' with white space before it |
| `DotenvProofs.HashStays` | apps/cli/src/dotenv.ts:31-34 | any other '#' belongs to the value |
| `DotenvProofs.BlanksAround` | apps/cli/src/dotenv.ts:9 | white space around a line does not count |
| `DotenvProofs.LineEndsRead` | apps/cli/src/dotenv.ts:7 | a line ends at a newline, at a carriage return, or at both together |
| `DotenvCode.ReadQuoted` | apps/cli/src/dotenv.ts:18-26 | the loop that joins the lines of a quoted value stops where the specified one does |
| `DotenvCode.ParseDotenv` | apps/cli/src/dotenv.ts:5-38 | the parser's loop gives the specified map |
| `LogDemux.Demuxer.DrainFrames` | apps/agent/src/log-demux.ts:15-36 | the loop over the buffered frames emits and leaves what one pass over the bytes does |
| `LogDemux.Demuxer.OnChunk` | apps/agent/src/log-demux.ts:9-38 | one chunk, with the switch to raw, as specified |
| `LogDemux.CuttingIsInvisibleIff` | apps/agent/src/log-demux.ts:9-38 | for every framed stream: what comes out is independent of the cutting if and only if there are at most eight stray bytes behind its frames |
| `LogDemux.ChunkingIsInvisible` | apps/agent/src/log-demux.ts:9-38 | however a stream without stray bytes is cut, the decoder emits and holds what one pass over all of it does |
| `LogDemux.FramesComeOut` | apps/agent/src/log-demux.ts:9-38 | every list of frames in every cutting comes out as its non-empty payloads in order on the right stream, with only an unfinished frame left |
| `LogDemux.FramesComeOutRight` | apps/agent/src/log-demux.ts:30-36 | one output for each frame that carries anything, in order, with just its payload, on stderr exactly for type 2 |
| `LogDemux.CutOffStream` | apps/agent/src/log-demux.ts:9-38 | a stream cut off anywhere has emitted exactly its complete frames |
| `LogDemux.RawPassesThrough` | apps/agent/src/log-demux.ts:9-38 | a stream that is not framed passes through whole on stdout, once eight bytes have come |
| `LogDemux.HeaderIff` | apps/agent/src/log-demux.ts:16-31 | a header is a type of 0, 1 or 2, three zeros and a big-endian size |
| `AgentConnection.TokensAreCounted` | apps/agent/src/connection.ts:155-322 | in every run up to a stop, whatever the interleaving, there are exactly as many addresses being resolved, unsettled dials and reconnect timers together as there were starts and redials without a live socket; dials are that many more than timers fired, and every delay is within its backoff ceiling |
| `AgentConnection.OneReconnectToken` | apps/agent/src/connection.ts:155-292 | so after one start, without redial, exactly one of them exists |
| `AgentConnection.RedialKeepsTokenIff` | apps/agent/src/connection.ts:311-322 | from any such state a redial keeps the one token if and only if a socket is connecting or open |
| `AgentConnection.StopIsFinal` | apps/agent/src/connection.ts:324-329 | after a stop, whatever happens, no reconnect is scheduled, and the dials grow by exactly the starts and the redials without a live socket, or not at all if an address is looked up first |
| `AgentConnection.StoppedStepIff` | apps/agent/src/connection.ts:311-329 | in a stopped connection a step starts a dial or a lookup if and only if it is a start, or a redial that finds no connecting or open socket |
| `AgentConnection.RedialAfterStop` | apps/agent/src/connection.ts:311-322 | a run of four events with a dial after the stop |
| `AgentConnection.RedialBesideTimer` | apps/agent/src/connection.ts:311-322 | a run in which a redial leaves two pending causes of a dial |
| `AgentConnection.WatchdogDropsIff` | apps/agent/src/connection.ts:140-153 | the watchdog gives a link up, with one reconnect, if and only if it is open, armed and silent beyond the idle time; it reports a stranded agent once and does nothing after a stop |
| `AgentConnection.FrameKeepsLink` | apps/agent/src/connection.ts:211-230 | any frame on the socket in use keeps the link for the idle time, pings arm the watchdog, frames on other sockets are ignored |
| `AgentConnection.ThirdUnreadableDrops` | apps/agent/src/connection.ts:262-282 | exactly the third unreadable command in a row gives the link up; readable ones start the count again |
| `AgentConnection.DialTimeoutDropsIff` | apps/agent/src/connection.ts:197-200 | a dial that runs out of time is given up unless it has opened or been settled |
| `AgentConnection.AttemptsCount` | apps/agent/src/connection.ts:284-292 | each reconnect is drawn for the current attempt and counts as one more |
| `AgentConnection.TimersDial` | apps/agent/src/connection.ts:155-163 | a timer that fires dials or looks the address up, an address that arrives dials, and a stable link starts the attempts again |
| `AgentConnection.NewDialIsInUse` | apps/agent/src/connection.ts:165-174 | a new dial is the one in use, and is not silent before the controller has sent a heartbeat on it |
| `AgentConnection.OpeningResets` | apps/agent/src/connection.ts:202-209 | an open socket has no dial timer and no unreadable commands counted |
| `AgentConnection.Connection.OnMessage` | apps/agent/src/connection.ts:211-282 | an inbound frame of each kind, with the drop after three unreadable commands |
| `AgentConnection.Connection.OnWatchdog` | apps/agent/src/connection.ts:140-153 | drops a silent open link and reports a stranded one once |
| `AgentConnection.Connection.OnClose` | apps/agent/src/connection.ts:237-249 | settles the dial once and schedules one reconnect, also for late close events |
| `AgentConnection.Connection.OnDialTimeout` | apps/agent/src/connection.ts:180-200 | gives up a dial that neither opened nor settled |
| `Terminal.SessionsAreConserved` | apps/api/src/terminal.ts:88-337 | in every run, each session opened under an id is live, has exactly one final state, or was replaced while live, and the input bytes relayed are those these sessions account for |
| `Terminal.EndsIffNoneReplaced` | apps/api/src/terminal.ts:130-177 | all sessions of an id are live or ended if and only if none was opened while another of that id was live |
| `Terminal.SessionsEndOnce` | apps/api/src/terminal.ts:88-337 | with one session id a ticket, every session is live and not finalized, or gone and finalized exactly once with the right count; one never opened has left nothing |
| `Terminal.TicketOpensOncePerMint` | apps/api/src/terminal-tickets.ts:58-93 | in every run a ticket opens at most as many sessions as it was minted times |
| `Terminal.TicketOpensOnce` | apps/api/src/terminal-tickets.ts:75-82 | a ticket opens at most one session, and once it has is neither stored nor being opened |
| `TerminalRuns.NoSessionOverstays` | apps/api/src/terminal.ts:88-105 | in every run with a sweep at most a period ago, no live session is past its maximum length or its idle time by as much as that period; right after the sweep none is past them at all |
| `TerminalRuns.SweepEndsTheOthers` | apps/api/src/terminal.ts:88-105 | in every run a sweep leaves each session inside its limits as it is, and gives each other one its one final state with the reason and all it has counted |
| `TerminalTraffic.TrafficIsCounted` | apps/api/src/terminal.ts:209-255 | in every run the input sent to the agent for a session is what its own browser typed while it was live, its output what the agent sent meanwhile, its idle time runs from the last of the input or from its start, and its final state has these numbers |
| `TerminalTraffic.EndsAsSaid` | apps/api/src/terminal.ts:88-337 | in every run a live session is ended by a kill, its browser's close, the exit or failed start its agent reports, or the sweep that finds it over a limit, with that reason and code, and by nothing else |
| `TerminalTraffic.SessionBegins` | apps/api/src/terminal.ts:118-177 | a ticket presented by its last moment, for a node that is online, opens its session with its id, node and limits; otherwise it opens nothing |
| `TerminalTraffic.TicketSweepIsInvisible` | apps/api/src/terminal-tickets.ts:85-88 | sweeping tickets takes away only what nobody could present any more |
| `Terminal.SweepListIsSweep` | apps/api/src/terminal.ts:89-105 | whatever the order of the visits, the sweep has the same result |
| `TerminalRuns.CloseIsMissedIff` | apps/api/src/terminal.ts:130-242 | in every run the session of a ticket is live after its browser has closed if and only if the ticket was still waiting at the close, which then changed nothing, and nothing has ended the session since; otherwise it is over for good |
| `TerminalRuns.MissedCloseExample` | apps/api/src/terminal.ts:130-242 | minted, presented, closed, loaded: a session without limits that no sweep ends |
| `TerminalHub.TicketStore.Claim` | apps/api/src/terminal-tickets.ts:75-82 | the ticket is gone either way; its claims come back only if it had not expired |
| `TerminalHub.TicketStore.Sweep` | apps/api/src/terminal-tickets.ts:85-88 | exactly the expired tickets go |
| `TerminalHub.TerminalHub.OnPolicyLoaded` | apps/api/src/terminal.ts:141-177 | a new session object, no other one touched |
| `TerminalHub.TerminalHub.OnBrowserInput` | apps/api/src/terminal.ts:209-230 | counts and times the input of the right session only |
| `TerminalHub.TerminalHub.OnAgentTermFrame` | apps/api/src/terminal.ts:249-280 | output, failed start and exit, as specified |
| `TerminalHub.TerminalHub.WriteFinal` | apps/api/src/terminal.ts:283-325 | a session's final state is written once |
| `TerminalHub.TerminalHub.KillSession` | apps/api/src/terminal.ts:328-336 | ends a live session and says whether there was one |
| `TerminalHub.TerminalHub.Sweep` | apps/api/src/terminal.ts:89-105 | the loop over the live session objects ends those over their limits and no others |

## Left out

- TieredRuns.NoLostWrite: a write is clear of the tolerance, without which it is false
  (`TieredRuns.MissedWriteIff`); a file being deleted is no directory of the same disk, as on any file
  system.
- CedarProofs.EnginesAgree: what Cedar cannot read, and answers with an error, is taken to be a null, a
  fraction or a number beyond 64 bits, in the context or as a literal in the text of the policies.
- DotenvProofs.RoundTripIff: keys are such as the parser knows, headers have no carriage return and
  notes stay on their line; values are any.
- Tiered store: the loops visit keys in any order, where the code sorts them; the local disk never
  fails; each method is one atomic step, so operations that overlap a running sync are not covered, nor
  is a restart, which forgets the remembered deletes.
- Tiered store: the union of both tiers that `List` returns, `Exists`, wiring into Caddy, OCSP and ACME.
- Locks: an edge's locks are an object of their own with its own breaker state, and a replica lock does
  not expire while it is held.
- Policies: header values with several policies separated by commas; host names are compared as text,
  and have no quotes and no slashes in them; which sources with a port or a path of their own match the
  page's URLs is left to a parameter.
- Injector: gzip as an algorithm (an abstract function), ETag, Vary and Content-Length, `Flush` and
  `Hijack`, rendering of the tag. Lower-casing is that of ASCII; Go's can change the length of other text.
- Access control: JSON text (documents arrive as JSON values, numbers by their canonical text), reasons
  given with a decision, properties that a JavaScript object inherits, the text of Cedar policies beyond
  their string literals, the wasm evaluator.
- Log splitter: UTF-8 decoding; payloads are bytes.
- Agent link: what is sent on the link and the text of dropped frames; the stable timer may reset the
  attempt count at any time, which covers every schedule.
- Terminals: opening is two steps, since the code waits for the policy in between; recording, auditing
  and the frames relayed, other than their sizes, are left out. Tickets being opened are told apart by
  their text, which the source draws at random.
- LRU cache: values are strings. The rate window, the cache and the deduper take times that never go
  backwards.
- Signature checks, redirect guards, the other webhook handlers, routes, commands and screens: plumbing
  or checks of another kind.
