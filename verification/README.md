# Threadkeeper Core: verified model

A Dafny model of the governance ledger that Threadkeeper Core keeps in Git, with
proofs of what it promises. The ledger is an append-only linear history of
commits; replaying it yields events and a projection of governed records. A
writer prepares an event as an unreachable commit H1 on a head H0, publishes its
bytes in a quarantine under a capability name bound to that exact preparation,
and accepts it by one compare-and-swap of the authoritative ref.

`dafny verify dfyconfig.toml` checks the whole project.

## How the model is built

* A commit is its own content (parents, tree, message); object names and SHA-256
  are functions taken to be collision-free, so "the commit with this id" is a
  value. Trees map paths to blobs. Go strings and byte slices are sequences of
  bytes, and lengths that the code frames in 64 bits are bounded where it matters.
* `Domain.Env` collects the libraries the ledger calls (canonical JSON, JSON
  Schema, digests, decoding, marshalling) as functions; `Domain.Lawful` is all
  that is assumed of them. Every other check of the code is written out.
* `LedgerReplay` has replay as a function and as the loops the code runs, the
  second proved equal to the first; `Acceptance` has the incremental checks.
* `Protocol` is the write protocol as a transition system: any number of Prepare
  and Accept invocations, each with a program counter, share the object store,
  the ref and the quarantine. Every step is one access to shared state and may
  fail; `update-ref` takes effect or not and independently reports success or
  error; a crash may come between any two steps; other writers may publish valid
  exact children; anybody may expire quarantined files. What replay and the
  validators decide is a parameter (`Semantics`) with laws, and
  `ProtocolInstance` proves those laws of the real replay and validators.
* `SoloRuns` has what one invocation can do when left alone, `ProtocolExamples`
  runs from the beginning that show where obvious statements fail, and
  `ExampleLedger` a concrete ledger, with libraries that obey the laws, on which
  these runs exist (`ObjectNames` supplies its object names).
* `LedgerRules`, `SnapshotRules` and `PortableRules` say in their own words, without
  the functions that decide it, which histories replay, which snapshots load and
  which bundles are valid, and prove that the functions decide exactly that.
  `ProtocolAnswers` and `ProtocolReports` do so for what the protocol reports.
* `QuietRun` runs Prepare and Accept statement by statement, undisturbed, and
  shows that valid requests then succeed; the safety results alone would hold of
  a protocol that always refuses. Its runs are runs of the protocol's steps.
* `QuarantineCrash` models the quarantine directory with a volatile and a durable
  side: a crash may leave any bytes in an unsynced file and, under each name, any
  entry it had since the last directory sync. `QuarantineStore` has the same
  operations as one process performs them in place.
* `Provenance`, `StrictJson`, `Portable` and `Recovery` stand alone.

Where the code does not do what its comments suggest, the code is modelled, with
an example of the difference and the exact condition:

* a failed read of the head makes Prepare remove a capability that is still live
  (`ProtocolExamples.LiveCapabilityIsRemoved`), and it is the only such removal
  (`ProtocolCleanup.RemovalsFollowTheHead`);
* no response from Accept does not mean that nobody accepted the candidate
  (`ProtocolExamples.NilThoughAccepted`); with any error but a failed read it does
  (`ProtocolTheorems.NilMeansUnaccepted`);
* a candidate published by a writer that does not use Accept leaves its capability
  behind (`ProtocolExamples.ForeignPublicationLeavesFile`), and nothing else does
  while nothing fails (`ProtocolCleanup.NothingLeftAtQuiescence`);
* Ensure's success can be lost in a crash (`QuarantineExample.SuccessIsLost`), but
  only after somebody has removed the capability since Ensure first saw it
  (`QuarantineCrash.SuccessIsDurable`);
* a failed build leaves the staging file in the quarantine
  (`QuietRun.Repository.PrepareWriteCandidate`);
* fork classification compares positions, so it is the truth only for lists whose
  ids determine their ancestry, as Git's do (`Recovery.UnrelatedCanShare`,
  `Recovery.HeadsCanCoincide`, `Recovery.ClassificationIsTrue`);
* a governed actor policy can be active and unreadable
  (`ExampleLedger.PolicyCanBeUnreadable`), exactly when its kind was bound under
  another version than Genesis declares (`CurrentPolicy.GovernedPolicyLoadsIff`);
* a portable bundle does not always come back as it was (`Portable.LargeCountChanges`),
  exactly when one of its counts is not what its JSON says (`Portable.RoundTrip`).

## Model

| member | source | states |
|---|---|---|
| `ProtocolTheorems.HistoryIsDistinct` | internal/ledger/candidate_write.go:280-413 | exactly once: in every interleaving, with crashes and lying `update-ref` errors, no event id and no idempotency key occurs twice in the authoritative history |
| `ProtocolTheorems.SuccessesAgree` | internal/ledger/candidate_write.go:300-302 | any two success answers for one key, whenever and by whomever given, name the same commit, path, event and digest |
| `ProtocolTheorems.OneSaysAccepted` | internal/ledger/candidate_write.go:391-413 | at most one invocation of a whole run says `accepted` for a key |
| `ProtocolTheorems.SuccessNamesEntry` | internal/ledger/candidate_write.go:732-742 | a success names an event of the history, then and at every later point of the run |
| `ProtocolTheorems.MovedAnswers` | internal/gitledger/writer.go:212-269 | an invocation whose update took effect returns a response and never an ordinary stale, invalid or conflict error; so a nil response means this invocation did not move the ref |
| `ProtocolTheorems.AnswersAreHonest` | internal/ledger/candidate_write.go:344-413 | `accepted`, `already_accepted` and `accepted_verification_failed` name a commit that is authoritative from then on; `acceptance_unknown` names none |
| `ProtocolTheorems.AuthorityOnlyThroughPreparation` | internal/ledger/candidate_write.go:326-342 | every commit an invocation moves the ref to was prepared on exactly the replaced head, under exactly the accepted identity, and adds exactly the prepared bytes |
| `ProtocolTheorems.StaleIsFinal` | internal/ledger/candidate_write.go:303-305 | when Accept of a prepared candidate returns nothing and STALE_STATE, no continuation of the run ever contains that commit or an event with those bytes |
| `ProtocolTheorems.PassedIsFinal` | internal/gitledger/writer.go:335-345 | a prepared commit whose sole parent already has another child below the head can never become authoritative |
| `ProtocolTheorems.RefOnlyDescends` | internal/gitledger/writer.go:176-209 | the authoritative ref only moves to descendants that replay |
| `ProtocolTheorems.AnswersStand` | internal/ledger/candidate_write.go:276-278 | an answer once returned is not changed by any later step |
| `ProtocolTheorems.StalePrecheckIsResolved` | internal/gitledger/writer.go:189-195 | where an identical writer has already succeeded the swap's pre-check says stale; Accept then answers `already_accepted` for that very commit, whatever others did in between, if the ledger can be read |
| `ProtocolTheorems.NilMeansUnaccepted` | internal/ledger/candidate_write.go:280-413 | over runs: when Accept of a prepared candidate returns nothing with any error but a failed read, at whatever exit, the candidate is not authoritative at that moment |
| `ProtocolExamples.NilThoughAccepted` | internal/ledger/candidate_write.go:363-376 | the exception is real: a run from any ledger at rest in which two invocations accept one handle, one read fails, and the second returns nothing while its candidate is in the history |
| `ProtocolAnswers.AnswersCarryTheirError` | internal/ledger/candidate_write.go:344-413 | over runs: an answer carries the error its status calls for. `acceptance_unknown` comes with POST_ACCEPTANCE_RECOVERY_REQUIRED (or Prepare's clean-up failure), `accepted_verification_failed` with its own, no error only with `accepted` or `already_accepted`; no answer is an ordinary failure, and only Prepare hands out a handle |
| `ProtocolAnswers.AcceptAnswersItsHandle` | internal/ledger/candidate_write.go:732-742 | Accept's answer is about its handle's key, event and digest, and names the handle's path where no event is found |
| `ProtocolAnswers.PrepareAnswersItsRequest` | internal/ledger/candidate_write.go:90-268 | what Prepare returns, handle or answer, is about the document, path, head and bytes it was given |
| `ProtocolAnswers.AnswersAreLocated` | internal/ledger/candidate_write.go:732-742 | the ledger commit of a success is a head, below every later ref, whose history has the named event |
| `ProtocolAnswers.RefusalsAreTrue` | internal/ledger/candidate_write.go:300-307 | a refusal without a response states a fact of the history: another event has the key, the event id is taken, or at some head below the ref the key was free and the expected head was not the head |
| `ProtocolReports.SuccessNamesAHeadItSaw` | internal/ledger/candidate_write.go:732-742 | the ledger commit of a success was the authoritative head at some moment of the invocation's own life, with the named event in its history |
| `ProtocolReports.AcceptLooks` | internal/ledger/candidate_write.go:285-413 | fault-free, every look of Accept at a history that has its key answers with the event found if it is the same, and is a conflict, or a failed verification once the swap was seen, if it is another |
| `ProtocolReports.AcceptLooksInVain` | internal/ledger/candidate_write.go:285-413 | and where no event has the key it is stale, the failure at hand, a failed verification, or goes on with the checks |
| `ProtocolReports.PreflightReports` | internal/ledger/candidate_write.go:508-527 | a complete handle whose event id is taken is refused for that before anything else, and no other handle is |
| `ProtocolReports.PrepareLooks` | internal/ledger/candidate_write.go:100-268 | every look of Prepare at a history that has its key answers or conflicts, whatever it was for |
| `ProtocolReports.PrepareLooksInVain` | internal/ledger/candidate_write.go:100-268 | and where none has it: a taken event id comes first, then the wrong head; a moved head is stale, a failed publication an invalid candidate |
| `ProtocolTheorems.ReachableInv` | internal/ledger/candidate_write.go:90-413 | every reachable state satisfies the invariant the other results rest on |
| `ProtocolSteps.CapabilityMeansPrepared` | internal/ledger/candidate_write.go:528-537 | holding a quarantined file under a name bound to one's own handle proves the candidate was prepared: same head, commit, identity and bytes |
| `ProtocolSteps.UpdateRefInv` | internal/gitledger/writer.go:205-210 | the one step that moves authority keeps the invariant, and moves the ref to a commit nobody had moved it to before |
| `ProtocolSteps.AcceptStepInv` | internal/ledger/candidate_write.go:280-413 | every step of Accept keeps the invariant, whatever fails |
| `ProtocolSteps.PrepareStagesInv` | internal/ledger/candidate_write.go:162-219 | staging, building and their failures keep the invariant |
| `ProtocolSteps.PreparePublishesInv` | internal/ledger/candidate_write.go:236-268 | publication under the bound name and the final reconciliation keep the invariant |
| `ProtocolSteps.BuiltIsGood` | internal/ledger/candidate_write.go:193-219 | a candidate built from a validated snapshot replays as its head followed by exactly its event, under a name bound to it |
| `ProtocolSteps.FoundAccepted` | internal/ledger/candidate_write.go:397-407 | once a validated commit is in the history the key lookup returns its event, digest and commit |
| `ProtocolSteps.SnapshotRecoveryAnswers` | internal/ledger/candidate_write.go:437-455 | recovery after a failed snapshot answers only from durable history, or with an explicit unknown |
| `ProtocolSteps.StepInv` | internal/ledger/candidate_write.go:90-413 | one step of the whole system, of any process or the environment, keeps the invariant |
| `ProtocolInv.AcceptOkGrows` | internal/ledger/candidate_write.go:280-413 | nothing an invocation of Accept knows is invalidated by what the other processes do |
| `ProtocolInv.EventsGrow` | internal/ledger/replay.go:127-188 | later heads keep the events of earlier ones |
| `ProtocolCleanup.LeftoversAreOwed` | internal/ledger/candidate_write.go:344-413 | in runs without crashes, failures or expiry a capability of an authoritative commit is on disk only while some invocation still owes its removal, or its candidate was published by a writer that did not use Accept |
| `ProtocolCleanup.NothingLeftAtQuiescence` | internal/ledger/candidate_write.go:581-629 | so none remains when all invocations have returned, with the same exception |
| `ProtocolExamples.ForeignPublicationLeavesFile` | internal/ledger/candidate_write.go:344-413 | which is real: a run without any failure in which somebody else publishes a prepared candidate and its capability stays |
| `ProtocolCleanup.RemovalsFollowTheHead` | internal/ledger/candidate_write.go:257-266 | in every run an explicit removal of a prepared candidate's capability comes after its expected head was passed, unless reconciliation could not read the head |
| `ProtocolExamples.LiveCapabilityIsRemoved` | internal/ledger/candidate_write.go:464-468 | and that exception is real: a run from any ledger at rest in which Prepare has published a capability Accept would accept, fails to read the head and removes it, after which no commit is acceptable under the handle |
| `ProtocolCleanup.OneCandidatePerName` | internal/ledger/quarantine_binding.go:52-72 | two prepared candidates under one capability name are the same candidate |
| `ProtocolInstance.RealLaws` | internal/ledger/candidate_write.go:508-576 | replay and the validators obey every law the protocol's proofs rely on |
| `ProtocolInstance.ReachableHeadsReplay` | internal/ledger/replay.go:78-207 | every authoritative head any run reaches replays; later heads keep every file and event of earlier ones |
| `ProtocolInstance.SuccessIsRecoverable` | internal/ledger/candidate_write.go:689-721 | at every later head the ledger's own lookup finds a successful key, at the commit, path, event and digest the answer named |
| `ProtocolInstance.RealAdmits` | internal/ledger/candidate_write.go:539-576 | what Accept's validation admits replays as its head followed by exactly the described event |
| `ProtocolInstance.RealPrepares` | internal/ledger/candidate_write.go:90-235 | what Prepare builds is admitted by Accept at the same head under the handle Prepare gives out |
| `ProtocolInstance.RefusalsAreReported` | internal/ledger/candidate_write.go:508-527 | the error kinds the protocol allows for refused requests and handles are those the real checks give |
| `ProtocolInstance.RequestsAreJudged` | internal/ledger/candidate_write.go:116-148 | a request is called invalid for itself alone; where the snapshot cannot be read or the event expects another head, that is another failure |
| `ProtocolInstance.HandlesAreJudged` | internal/ledger/candidate_write.go:508-576 | so is a handle: only an unreadable snapshot or an unordinary file is another failure, only a taken event id a conflict |
| `CasRecovery.RecoverState` | internal/gitledger/writer.go:278-300 | the scan of a recovered history says whether the candidate is in it; a history that cannot be read is no answer unless the head is the candidate |
| `CasRecovery.Settle` | internal/gitledger/writer.go:308-333 | the settle loop stops at the first look that shows the candidate, another head, an unreadable history or a failure, and is undecided at the deadline |
| `CasRecovery.ClassifySwap` | internal/gitledger/writer.go:205-269 | classification of an `update-ref` report and the looks taken after it |
| `CasRecovery.ClassificationFollowsProtocol` | internal/gitledger/writer.go:205-269 | that classification is a path of the protocol's steps through the states the looks were taken in |
| `QuietRun.Repository.AcceptWriteCandidate` | internal/ledger/candidate_write.go:280-413 | Accept undisturbed: the ref moves exactly when the handle is acceptable; every other case has its answer, its error and its whole new state; each run is a run of the protocol's steps |
| `QuietRun.Repository.PrepareWriteCandidate` | internal/ledger/candidate_write.go:90-268 | Prepare undisturbed: answer, error and whole new state for every case, including the build failure that leaves the staging file behind |
| `QuietRun.Repository.Publish` | internal/ledger/candidate_write.go:86-278 | progress: a valid request left alone is prepared and accepted, the history gains exactly its event and no file of the exchange stays |
| `QuietRun.RetryFindsTheSame` | internal/ledger/candidate_write.go:285-302 | accepting the same handle again answers `already_accepted` for the same commit and event |
| `SoloRuns.PrepareSucceeds` | internal/ledger/candidate_write.go:90-268 | from any state of a run a valid request can be prepared without a failure, by the protocol's own steps, to a published capability and its handle |
| `SoloRuns.AcceptSucceeds` | internal/ledger/candidate_write.go:280-413 | from any state in which a handle is acceptable its Accept can go on to move the ref and answer `accepted` |
| `SoloRuns.PublishedIsAcceptable` | internal/ledger/candidate_write.go:508-576 | a published handle is acceptable while its head stands |
| `BindingId.EncodeInjective` | internal/ledger/quarantine_binding.go:74-79 | length-prefixed framing is injective: equal encodings come from equal field lists |
| `BindingId.IdInjective` | internal/ledger/quarantine_binding.go:52-72 | one capability name, one prepared identity (the digest taken as collision-free) |
| `BindingId.WriteFields` | internal/ledger/quarantine_binding.go:57-68 | the loop feeds the digest the frames of all fields in order |
| `BindingId.BoundIsNotStage` | internal/ledger/quarantine_binding.go:27-37 | a capability name is never a staging name |
| `BindingId.NameIs` | internal/ledger/quarantine_binding.go:52-72 | a capability name is the digest of the eight named fields, each present, in their order and framing; nothing else has one |
| `BindingId.FramesSayTheirLength` | internal/ledger/quarantine_binding.go:74-79 | a frame is the length in eight big-endian bytes, then the field |
| `Acceptance.AcceptanceRefinesReplay` | internal/ledger/candidate_write.go:508-576 | a candidate the incremental checks admit at a replayed head with its key free replays in full, to the same events plus this one and the one-step projection |
| `Acceptance.ReplayRefinesAcceptance` | internal/ledger/candidate_write.go:508-576 | conversely, a replayable commit adding one keyed record event is admitted under any handle bound to it, and its key was free |
| `Acceptance.PreparedIsAdmitted` | internal/ledger/candidate_write.go:121-235 | a candidate prepared at a snapshot passes Accept's checks there, under the handle Prepare returned |
| `Acceptance.EventCommitFrame` | internal/gitledger/writer.go:335-363 | an event commit leaves schemas, bindings, Genesis and root policy alone |
| `Acceptance.AdmittedIff` | internal/ledger/candidate_write.go:508-576 | with its key free, a candidate is admitted exactly if it is an exact child of the head adding one event file with these bytes, replays, is a record event, and is what the bound handle says |
| `Acceptance.PreparesIff` | internal/ledger/candidate_write.go:113-148 | a request is prepared exactly if it names the head, is a record event, and the commit that would be built replays |
| `Acceptance.CandidateIs` | internal/gitledger/writer.go:92-135 | the commit Prepare builds: on the head alone, the head's files and one new ordinary file with the request's bytes, a tree Git can write, a one-line message that tells the event |
| `Acceptance.HandleRefusalsNameFacts` | internal/ledger/candidate_write.go:508-576 | which fact each refusal of a handle states, identity and event id first |
| `Acceptance.RequestRefusalsNameFacts` | internal/ledger/candidate_write.go:113-148 | which fact each refusal of a request states, in the order they are looked for |
| `GenesisLedger.GenesisReplays` | internal/ledger/replay.go:209-263 | a root commit of founding documents replays, to no events and no records: the promises about replayable heads are not about nothing |
| `LedgerReplay.ReplayLedger` | internal/ledger/replay.go:78-207 | Replay's nested loops over seen-maps compute the specification, error by error |
| `LedgerReplay.AddEventsLoop` | internal/ledger/replay.go:161-187 | the event loop refuses exactly repeated ids, repeated keys, invalid events and refused record events |
| `LedgerRules.ReplaysIff` | internal/ledger/replay.go:78-207 | exactly the histories that replay, stated without the replay function's own steps: a founding root, or a replaying parent followed by a commit that only adds allowed files, whose snapshots load, and whose events are stored, new and judged in order |
| `LedgerRules.ReplayChildIff` | internal/ledger/replay.go:127-188 | when a commit may follow a replayed head |
| `LedgerRules.FoundingIff` | internal/ledger/replay.go:209-263 | when a root commit may found a ledger: its Genesis document, declared schemas, root policy, granted authorities, agreeing bindings, and no event |
| `LedgerRules.EventsAreJudged` | internal/ledger/replay.go:294-322 | every event of a replayed history is stored and schema-valid at its commit; every record event names its one parent, and the binding of its kind there has its event schema and its policy version, a policy value being a policy of that version |
| `LedgerRules.JudgementErrors` | internal/ledger/replay.go:294-322 | which condition each refusal of a record event reports, and in which order |
| `LedgerRules.EventErrors` | internal/ledger/replay.go:161-187 | which condition each refusal of an event file reports |
| `LedgerRules.ChildErrors` | internal/ledger/replay.go:78-148 | which condition each structural refusal of a commit reports |
| `LedgerRules.AllowedIff` | internal/ledger/namespace.go:32-76 | exactly the paths the closed-world rules allow, component by component and character by character |
| `LedgerRules.GenesisIff` | internal/genesis/genesis.go:25-70 | exactly the Genesis documents accepted |
| `LedgerRules.PolicyIff` | internal/actorauth/policy_document.go:55-163 | exactly the policy documents accepted for a ledger and a version |
| `SnapshotRules.SchemasLoadIff` | internal/ledger/replay.go:328-359 | a schema registry loads exactly if every schema file is ordinary, registrable and has an id no other has, and there is one |
| `SnapshotRules.BindingsLoadIff` | internal/policy/bindings.go:35-92 | a binding snapshot loads exactly if every file reads as a conforming binding of the one model and event schema, with ids and kinds distinct; it is then those bindings |
| `ReplayFacts.ReplayedEventsAreDistinct` | internal/ledger/replay.go:166-176 | in a replayed history every id and key occurs once, every event sits in the commit that accepted it and a record event names that commit's parent |
| `ReplayFacts.ReplayWithin` | internal/ledger/replay.go:127-188 | replaying further never rewrites what an earlier head replayed to |
| `ReplayFacts.ReplayOfParent` | internal/ledger/replay.go:127-188 | a replayed head is its parent's replay followed by one commit |
| `ReplayFacts.ReplayOfChild` | internal/ledger/replay.go:127-188 | and conversely |
| `ReplayFacts.CommitAddsItsEvents` | internal/ledger/replay.go:161-187 | a replayed commit adds exactly the events its tree adds |
| `ReplayTheorems.TreesOnlyGrow` | internal/ledger/replay.go:127-148 | files once in a replayable history stay, unchanged, at every later commit |
| `ReplayTheorems.CommitOnlyAdds` | internal/ledger/namespace.go:17-59 | under the closed-world path rules a later commit can only add files |
| `ReplayTheorems.TrustIsRootOnly` | internal/ledger/replay.go:209-263 | Genesis and the root policy are added by the first commit and touched by no other |
| `ReplayTheorems.BindingsPersist` | internal/ledger/replay.go:139-160 | a binding snapshot that loads at one commit of a replayed history loads at every later one |
| `ReplayTheorems.BindingsAreFixed` | internal/policy/bindings.go:82-89 | a record kind's binding, once present, is present and the same at every later commit |
| `ReplayTheorems.EventsAreGoverned` | internal/ledger/replay.go:139-188 | every replayed event was judged under a snapshot that loads (by what, says `LedgerRules.EventsAreJudged`) |
| `ReplayTheorems.RecordsAreReduced` | internal/ledger/replay.go:178-183 | the replayed projection is the reducer run over the record events in order |
| `ReplayTheorems.TargetLog` | internal/reducer/record.go:66-221 | per target, over every record event of the history: prior states chain from absence to the previous resulting state up to canonical JSON, the projection is the last resulting state, revisions count, the kind never changes, nothing follows a revocation |
| `ReplayTheorems.RevokedStateStays` | internal/reducer/record.go:186-221 | a revoked target keeps its very state at every later head |
| `Reducer.ProjectionIsLog` | internal/reducer/record.go:66-221 | after any successful run of applications every target's state is the one its own log asserts |
| `Reducer.ReachedStatesAreValid` | internal/reducer/record.go:269-289 | reached states pass the reducer's own check exactly until the 64-bit revision wraps |
| `Reducer.ApplySucceedsIff` | internal/reducer/record.go:66-221 | each operation succeeds exactly if its event is well formed, the target is absent (create) or active and of its kind (replace, revoke), the kind is bound, and both state documents say, up to canonical JSON, what was and what will be; the target then has that next state and nothing else changes |
| `Reducer.NextEventAppliesIff` | internal/reducer/record.go:66-221 | the same on the target's log: after any successful run the next event applies exactly if it continues the log, asserting the last resulting state |
| `Reducer.RefusalsNameFacts` | internal/reducer/record.go:66-221 | each refusal names a fact of the event and the current state |
| `Bindings.LoadReducerBindingsAt` | internal/policy/bindings.go:35-92 | the loading loop with its two duplicate checks computes the snapshot |
| `Bindings.OneFilePerBinding` | internal/policy/bindings.go:82-87 | two files of one loadable directory never share a binding id or a record kind |
| `Bindings.FilesAreLoaded` | internal/policy/bindings.go:88-89 | every file is in the snapshot under its own kind and id |
| `Bindings.LoadedUnderBoth` | internal/policy/bindings.go:30-33 | the two indexes hold the same bindings |
| `Bindings.BindingsOnlyGrow` | internal/policy/bindings.go:35-92 | a larger tree that still loads keeps every binding |
| `IdempotencyIndex.FindAcceptedIdempotencyAt` | internal/ledger/candidate_write.go:689-721 | the nested search loops compute the lookup |
| `IdempotencyIndex.IndexAgrees` | internal/ledger/candidate_write.go:689-721 | at a replayable head the lookup never reports a validation error, finds a key exactly when replay saw it, and returns the one event that carries it |
| `IdempotencyIndex.HitsPersist` | internal/ledger/candidate_write.go:686-689 | a hit is the same at every descendant head |
| `IdempotencyIndex.EventsOfHistory` | internal/gitledger/reader.go:274-309 | the replayed events are exactly those the commits of the history add |
| `CurrentPolicy.PolicySelection` | internal/ledger/actor_policy.go:64-104 | with the kind bound at Genesis: root policy while the target is absent, the last governed value (which always parses) while active, refused once revoked or held by another kind |
| `CurrentPolicy.GovernedPolicyLoadsIff` | internal/ledger/actor_policy.go:88-100 | in general an active governed policy loads exactly when its kind's binding names the version Genesis declared |
| `ExampleLedger.PolicyCanBeUnreadable` | internal/ledger/actor_policy.go:88-100 | a ledger of three commits that replays, over libraries that obey every law, whose governed policy is active and refused |
| `ExampleLedger.SecondIsAtRest` | internal/ledger/candidate_write.go:90-268 | the second commit of that ledger is a start for every run of the protocol on a real ledger, with a request valid there |
| `ExampleLedger.ThirdReplays` | internal/ledger/replay.go:78-207 | what that request prepares is admitted and replays, its record active in the projection |
| `ExampleLedger.NamesExist` | internal/gitledger/reader.go:233-272 | object names as the model assumes them exist: distinct for distinct commits, lower-case, 40 hexadecimal digits where the history is read |
| `CurrentPolicy.RevocationIsFinal` | internal/ledger/actor_policy.go:92-94 | a revoked policy stays revoked at every extension and never falls back to Genesis |
| `CurrentPolicy.RootPolicyReadsBack` | internal/ledger/actor_policy.go:24-62 | the root document a replay validated is the one the loader reads back |
| `CurrentPolicy.PolicyInForce` | internal/ledger/actor_policy.go:64-104 | for every replaying head, by the policy target's events alone: the root policy if there are none; else the last event decides, and an active value is in force, under that event's id, exactly if it parses under the version Genesis names |
| `ActorPolicy.CheckPolicy` | internal/actorauth/policy_document.go:90-163 | the checks accept exactly the policies strictly sorted by key and grant, without repetition, every grantee holding an active key |
| `ActorPolicy.CheckKeys` | internal/actorauth/policy_document.go:119-142 | the key loop: sorted, distinct, well-formed keys, and the actors with an active one |
| `ActorPolicy.CheckGrants` | internal/actorauth/policy_document.go:144-159 | the grant loop: sorted, distinct, safe grants to active actors |
| `ActorPolicy.JoinInjective` | internal/actorauth/policy_document.go:126-126 | NUL-joined identities are unambiguous for safe parts |
| `ActorPolicy.ValidateInitialAuthorities` | internal/actorauth/policy_document.go:175-195 | Genesis must list exactly the granted actors, sorted, each once |
| `ActorPolicy.PolicyRulesIff` | internal/actorauth/policy_document.go:90-163 | the rules of a policy written out by position: names, life time, order of any two keys and grants, an unrevoked key for every grantee |
| `Git.ParseHistory` | internal/gitledger/reader.go:233-272 | the rev-list loop accepts exactly linear chains of well-formed names ending at the head |
| `Git.LinearHistoryParses` | internal/gitledger/reader.go:233-272 | what is printed for a linear head parses back to exactly its commits |
| `Git.MergeHistoryIsRefused` | internal/gitledger/reader.go:245-263 | a listing with a merge anywhere below the head never parses |
| `Git.ChainIff` | internal/gitledger/reader.go:233-272 | exactly the listings accepted: one root, each line on the one before, the head last, whole hexadecimal object names up to case |
| `Git.OneChild` | internal/gitledger/writer.go:335-345 | within one history a commit has at most one child |
| `Git.SingleAdditionDiff` | internal/gitledger/writer.go:347-363 | an exact child adding one event path reports exactly that addition and changes nothing else |
| `Git.ChildAdding` | internal/gitledger/writer.go:92-135 | the commit built from the head's index plus one file is an exact child adding that path |
| `NameStatus.ParseAdditions` | internal/gitledger/immutable.go:15-51 | the token loop computes the additions, refusing malformed, non-adding, foreign and non-JSON records |
| `NameStatus.AdditionsAreRead` | internal/gitledger/immutable.go:15-51 | on what Git prints for a commit, in any order, it returns the commit's additions beneath the directory |
| `NameStatus.EventAdditionsAreRead` | internal/gitledger/reader.go:274-309 | and so for event files |
| `NameStatus.ParseTreeChanges` | internal/gitledger/tree_changes.go:19-60 | the diff loop computes the changes sorted by path and status, refusing renames and copies |
| `NameStatus.AdditionsIff` | internal/gitledger/immutable.go:15-51 | additions are read exactly if the output is records, with empty tokens between, that each add an ordinary JSON file beneath the directory; they are those paths in order |
| `NameStatus.ChangesIff` | internal/gitledger/tree_changes.go:19-60 | changes are read exactly if the output is such records and none is a rename or a copy; they are those records by path, then status |
| `NameStatus.NamespaceIsRead` | internal/ledger/namespace.go:17-30 | the diff read back names every changed path once, and judging its paths is judging the commit |
| `QuarantineCrash.VisibleIsComplete` | internal/quarantine/store.go:140-206 | in every reachable state, after any number of crashes, a visible capability holds some publisher's whole content |
| `QuarantineCrash.SuccessIsDurable` | internal/quarantine/store.go:194-206 | once Put or Ensure has reported success, and until somebody removes the capability, it reads back now and after any crash |
| `QuarantineCrash.OneContentPerId` | internal/quarantine/store.go:240-242 | two standing successes under one id published the same content |
| `QuarantineCrash.RelinkedSuccessCanBeLost` | internal/quarantine/store.go:248-265 | the proviso is needed: a removal and relink between Ensure's directory sync and its re-read lets it report a success a crash can lose |
| `QuarantineExample.SuccessIsLost` | internal/quarantine/store.go:219-267 | and that happens: a run of three publishers and one removal from an empty directory, for every id and content |
| `QuarantineCrash.NamesAreApart` | internal/quarantine/store.go:401-436 | capability names and private names never meet, and a capability name has one id |
| `QuarantineCrash.RunInv` | internal/quarantine/store.go:140-267 | every system call of a publisher keeps the invariant, failing or not |
| `QuarantineCrash.CrashInv` | internal/quarantine/store.go:170-196 | so does a crash that tears unsynced files and undoes unsynced directory entries |
| `QuarantineStore.Store.Put` | internal/quarantine/store.go:140-206 | the content appears under its final name whole or not at all, never replacing a file; what each failure leaves behind |
| `QuarantineStore.Store.Ensure` | internal/quarantine/store.go:219-267 | undisturbed: identical content succeeds, different content is a conflict, and neither changes the file |
| `QuarantineStore.Store.Remove` | internal/quarantine/store.go:319-335 | removes one capability and nothing else |
| `QuarantineStore.Store.ReadId` | internal/quarantine/store.go:300-317 | returns the bytes of an ordinary file under a valid id, or says why not |
| `QuarantineStore.Store.PruneBefore` | internal/quarantine/store.go:340-399 | removes exactly the expired well-formed files up to the first suspicious entry and counts them |
| `QuarantineStore.SweepIs` | internal/quarantine/store.go:340-399 | the sweep removes only ordinary files of its own two name forms that are old enough, and, if it reaches the end, all of them |
| `QuarantineStore.SweepKnowsItsNames` | internal/quarantine/store.go:401-436 | the names it may remove are exactly those Put creates |
| `QuarantineStore.CapabilityNamesAreIds` | internal/ledger/quarantine_binding.go:52-72 | a capability name is an id the store accepts |
| `Provenance.Graph.Add` | internal/provenance/graph.go:21-30 | accepts a record or leaves the graph exactly as it was; on a graph built by Add the cycle check never fires |
| `Provenance.AcceptedIff` | internal/provenance/graph.go:21-30 | on such a graph a record is accepted exactly when it is new, valid by itself and its parents exist, and the graph stays acyclic |
| `Provenance.Graph.HasCycle` | internal/provenance/graph.go:36-36 | true exactly when a cycle can be reached |
| `Provenance.CycleViaParent` | internal/provenance/graph.go:36-36 | a cycle is reachable from a record exactly when one is from a parent |
| `Provenance.Graph.Lineage` | internal/provenance/graph.go:34-34 | the recursive walk computes the lineage |
| `Provenance.LineageIsAncestry` | internal/provenance/graph.go:34-34 | lineage lists exactly the record and its ancestors, each once, parents before children, the query last |
| `Provenance.LineageIgnoresOrder` | internal/provenance/graph.go:34-34 | and lists them in an order that does not depend on how records list their parents |
| `Provenance.RefusalsNameFacts` | internal/provenance/graph.go:21-30 | each refusal of a record names a fact of it and the graph |
| `Provenance.ValidateProvenance` | internal/portable/bundle.go:60-60 | the fixpoint terminates and succeeds exactly on lists with distinct ids, locally valid records, present parents and no cycle |
| `Provenance.ImportIgnoresOrder` | internal/portable/bundle.go:60-60 | whatever the order of the list |
| `Provenance.ImportStuck` | internal/portable/bundle.go:60-60 | a pass that adds nothing proves that no order would do |
| `StrictJson.ValidateStream` | internal/strictjson/strictjson.go:43-61 | the recursive validator over the stateful decoder computes the specification, fault and path included |
| `StrictJson.AcceptsExactlyCleanValues` | internal/strictjson/strictjson.go:76-139 | it accepts exactly the token streams of one value nested at most 512 deep, with no repeated member name (section 2.3 of RFC 7493) and no negative zero |
| `StrictJson.WellFormedRefusals` | internal/strictjson/strictjson.go:76-139 | a well-formed shallow document is refused only for a repeated name or a negative zero |
| `StrictJson.IsNegativeZero` | internal/strictjson/strictjson.go:141-162 | the reslicing loop computes the test |
| `StrictJson.NegativeZeroIff` | internal/strictjson/strictjson.go:141-162 | the test holds of a literal of section 6 of RFC 8259 exactly when it is negative and denotes zero |
| `StrictJson.PointersAreUnambiguous` | internal/strictjson/strictjson.go:164-167 | escaped member names are unambiguous and contain no path separator |
| `StrictJson.FaultOf` | internal/strictjson/strictjson.go:43-139 | of any value followed by anything, the verdict is its first fault in document order, with its path, or the trailing data |
| `StrictJson.FaultsAreReal` | internal/strictjson/strictjson.go:76-139 | a reported path leads to what is reported: a negative zero, an object with the repeated name, or a value nested too deep |
| `StrictJson.PointersReadBack` | internal/strictjson/strictjson.go:164-167 | an escaped name read back by the rules of section 4 of RFC 6901 is the name |
| `StrictJson.ParseDecoded` | internal/strictjson/strictjson.go:76-139 | one value from the decoder's position: where it ends, or the first fault |
| `Portable.DecodeAfterEncode` | internal/portable/bundle.go:33-46 | Decode returns the normalized bundle with its counts as JSON writes them, or refuses when one of these is no longer a Go int |
| `Portable.RoundTrip` | internal/portable/bundle.go:33-46 | so what Encode writes decodes to the normalized bundle exactly when every count survives being written as an IEEE double |
| `Portable.SmallCountsAreExact` | internal/portable/bundle.go:33-46 | counts up to 2^53 do |
| `Portable.LargeCountChanges` | internal/portable/bundle.go:33-46 | 2^53 + 1 does not: the bundle that comes back differs from the one encoded |
| `Portable.DecodeIsInverse` | internal/portable/bundle.go:35-46 | and accepts nothing else: what it reads is normal and is written back byte for byte |
| `Portable.NormalizeIsIdempotent` | internal/portable/bundle.go:62-62 | normalising what is normal changes nothing |
| `Portable.EncodeIgnoresOrder` | internal/portable/bundle.go:33-33 | Encode gives the same text, or the same refusal, under any permutation of the bundle's lists, inner ones included |
| `Portable.ValidIffNormalValid` | internal/portable/bundle.go:48-56 | normalising neither makes a bundle valid nor unmakes it |
| `Portable.EncodeSucceedsIff` | internal/portable/bundle.go:33-33 | Encode refuses exactly the invalid bundles and those JSON cannot write |
| `Portable.Validate` | internal/portable/bundle.go:48-56 | the registries' loops accept exactly the valid bundles |
| `Portable.Encode` | internal/portable/bundle.go:33-33 | the composition computes the specified text |
| `Portable.Decode` | internal/portable/bundle.go:35-46 | the composition reads exactly what Encode would write back |
| `PortableRules.ValidIff` | internal/portable/bundle.go:48-56 | a bundle is valid exactly if it is of this format, its recovery proof is for its own ledger commit, and every list keeps its own rules: field by field, edge ends, conflict states, coverage counts, time windows, names told apart |
| `PortableRules.EncodedIff` | internal/portable/bundle.go:33-33 | Encode writes exactly the bundles that keep the rules, where JSON can |
| `PortableRules.DecodedIff` | internal/portable/bundle.go:35-46 | Decode returns a bundle exactly if it keeps the rules and the text is the canonical one of its normal form |
| `PortableRules.EdgeNamesAreUnambiguous` | internal/portable/bundle.go:48-56 | names without NUL tell edges apart, in either direction if the relation has none |
| `PortableRules.NormalizeTidies` | internal/portable/bundle.go:62-62 | normalising changes nothing but order |
| `PortableRules.NormalizeOrders` | internal/portable/bundle.go:62-62 | and puts every list in the order of its key |
| `Sorting.SortedIsUnique` | internal/portable/bundle.go:62-62 | where only equal elements compare both ways there is one sorted arrangement, so an unstable sort is determined |
| `Recovery.Classify` | internal/recovery/fork.go:22-37 | the comparison loop computes the classification, refusing invalid histories |
| `Recovery.ValidateHistory` | internal/recovery/fork.go:39-47 | accepts exactly non-empty lists of distinct non-empty ids |
| `Recovery.ClassificationIsTrue` | internal/recovery/fork.go:22-37 | where ids determine ancestry: unrelated iff disjoint, otherwise the true last common ancestor, and descent is extension |
| `Recovery.UnrelatedCanShare` | internal/recovery/fork.go:28-28 | so two lists can be called unrelated and share a commit |
| `Recovery.ForkOfHeads` | internal/recovery/fork.go:22-37 | of two linear heads it says which commit sits below which |
| `Recovery.DescendantKeepsEverything` | internal/recovery/fork.go:31-33 | when A descends from B, B's events are a prefix of A's, B's files are all there and what B revoked is revoked the same way |
| `Recovery.ResolutionPartitionsHeads` | internal/recovery/resolution.go:43-97 | the heads of an opened case differ, and an accepted resolution selects one, rejects the other and cannot be accepted twice |
| `Recovery.OpenedCase` | internal/recovery/resolution.go:43-62 | a case opens, under its own id, exactly where two valid histories do not continue one another; it records their heads, is unrelated exactly if they share nothing, and otherwise names the last commit they share |
| `Recovery.ResolutionIff` | internal/recovery/resolution.go:67-97 | a decision is accepted exactly if it is for this open case, selects one head and rejects the other, says who, why and on what ground, keeps the rejected history and bears a time; the case is then closed and otherwise unchanged |
| `Recovery.HeadsCanCoincide` | internal/recovery/resolution.go:43-62 | without the law on ids an opened case may have one head twice |

## Left out

- Git as a program: subprocesses, environment control, fsck, ref, symlink, inode and configuration safety checks. A commit store with one atomic ref update stands for it; their failures are failing steps of the protocol.
- SHA-256, Ed25519, base64, RFC 8785 canonicalisation, JSON decoding and JSON Schema are functions with the laws stated in `Domain.Lawful` and `Portable.Faithful`; the UTF-8 check of the strict validator belongs to the decoder.
- Clocks and randomness: deadlines are an arbitrary finite number of looks, nonces are fresh names.
- Error texts: error kinds are kept where a caller can tell them apart, and merged otherwise.
- Aliasing of slices and maps: Dafny's sequences and maps are values, so the defensive copies of the code have nothing to protect.
- LedgerReplay.Replay: the digests, counts and entry metadata of the manifest beyond events, projection and binding count, and with them the final canonicalisation of the projection, whose states were each canonicalised inside an event at the same depth.
- Portable.Normalize: strings are valid UTF-8; the marshalling round trip with which the code replaces other bytes is not modelled.
- Locking inside update-ref: the settle window sees only the heads that result.
- A reading of the quarantine looks the name up once, where the code does so twice; published files never change, so only a removal in between is merged.
- PruneBefore beside concurrent writers: in the protocol and the crash model expiry is a removal at any time; `QuarantineStore` has the sweep itself, alone.
- QuarantineCrash.SuccessIsDurable: holds until somebody removes the capability after the invocation first saw it; see `QuarantineCrash.RelinkedSuccessCanBeLost`.
- ProtocolCleanup.LeftoversAreOwed: runs without crashes, failures and expiry, each of which leaves a capability nobody owes; what other writers publish by themselves is excepted, with an example.
- QuietRun.Repository.AcceptWriteCandidate: runs alone and without failures; interference and failures are the subject of `Protocol`.
- QuietRun.HandleRefusal: a refused candidate is reported as invalid also where its file is no ordinary blob or schemas or bindings of the head cannot be read, for which the code passes the reader's own error on; the protocol allows either.
- The registries of portable sources, relationships and conflicts beyond what import asks of them; evidence, coverage and time windows only as far as import validates them.
- Service gate, command line, limiter and load proof; fresh Genesis bootstrap, except that a run starts from a ledger that replays.
- Access, coverage, temporal, health, incident, key life cycle, escrow, catalog, simulation, proposal, review bundle, federation, witness, checkpoint and build provenance validators: each is settled by reading one function.
