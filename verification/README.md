# Patina MCT: a verified model of its protocols

This project models the parts of Patina MCT whose correctness is decided by state, order and
parsing, and proves what they keep. Each part is a specification on values (datatypes and
functions), the source's imperative form proved equal to it (classes, loops), and theorems over
every input, every run or every reachable state.

- **Passkey approval broker** (`scripts/passkey_queue.py`): `PasskeyProtocol` is one step of the
  queue, `PasskeyTrails` the history of a job, `PasskeySafety` the invariant, `PasskeyTheorems`
  what follows for every reached state, `PasskeyAnswers` what each request is answered in terms of
  the operations before it, `PasskeyBroker` the object with its mutable jobs. A step reads the clock twice, never backwards, and draws tokens that were not drawn before.
- **Mother authority order** (`crates/mct-daemon/src/authority_order.rs`): `AuthorityOrder` is the
  state behind the mutex with its three methods; `AuthorityThreads` is any number of threads, with
  lock, callback, write, unlock and panic as separate steps and a log of what the callbacks did.
- **Keyed dispatch fence** (`crates/mct-daemon/src/call_dispatch.rs`): `CallDispatch` is decoding,
  checking and replay, `DispatchCodec` a spelling of events that meets its hypothesis;
  `DispatchReplay` says what a replayable ledger looks like; `DispatchRuns`
  is the resident writer that keeps a pruned live index beside the ledger, with lost
  acknowledgements, lost writes and restarts; `DispatchAnswers` says what it answers by the last
  event of a key.
- **Artifact staging** (`crates/mct-daemon/src/acquisition.rs`): `AcquisitionAuthority` is the
  authority evaluation and the namespaces of a manifest; `Staging` is one run as a function of the
  world and the outcome of every step that can fail; `StagingHost` is the transaction carried out
  step by step; `StagingMeaning` says by the fields of request, store and environment when a run is
  admitted, what it finds and when its artifact is recorded; `StagingTheorems`, `StagingRecords`,
  `StagingCatalogue` and `StagingRuns` are its theorems.
- **Control-plane HTTP framing** (`control_transport.rs`, its client, and `control.rs` in
  `crates/mct-daemon/src`): `HttpText` is bytes, UTF-8, words, digits and lines; `HttpFraming` the
  head reader and the field parser (sections 3, 5 and 6 of RFC 9112, without folding and transfer
  codings); `HttpExchange` the printed response and request read back; `HttpMeaning` what its
  bytes, words and routes mean, by scalar values and by method, path and length.
- **Ledger reductions** (`crates/mct-daemon/examples`): `Provenance` is the reduced detail,
  `LedgerSummary` the two-pass count.

`OrderedStrings`, `Text` and `Wrappers` are shared.

Some laws do not hold without a condition, and then the condition is proved exact.

- A staging run settles (one acquisition, a used-up decision) exactly when its source is a file URL,
  the observer does not refuse, and the store is not cut off after publication: it is reopened, and
  an operator's transaction is read back as written and followed by one more reopening
  (`StagingTheorems.SettledIff`).
- With working removals, at every point of a sequence of runs the new packages are those whose
  artifact was recorded, exactly when no run strays (`StagingRuns.PublishedExactly`). A run strays
  when the store cannot be reopened after it placed a new package, which then stays unrecorded
  (`StagingRuns.OrphanPackage`), or when its artifact is on record under another path, so that its
  record is committed and its package removed (`StagingRuns.TwoDirectoriesDisagree`). With one
  children directory to a store only a failing store is left (`StagingRuns.OneDirectorySettles`,
  `StagingRuns.OneDirectoryPublishes`).
- A dispatch reservation stamped before a record that a later check has already pruned is accepted
  by the live index and makes the ledger unreplayable (`DispatchRuns.ClockMustNotGoBack`);
  `DispatchRuns.ReserveRebuildsIff` and `DispatchRuns.RebuildsIffLifetimesRespected` say exactly when
  the ledger rebuilds. These theorems hold for every codec that reads back what it wrote in 4096
  bytes, and `DispatchCodec.PlainIsFaithful` gives one.
- A response is read back by the client exactly when it fits both caps and has a three-digit status
  below 600 (`HttpExchange.ClientReadsResponse`).

## Model

| member | source | states |
|---|---|---|
| PasskeyTheorems.OneCeremony | scripts/passkey_queue.py:134-261 | In every reached state every job after the first live one is queued or failed, so at most one is ready, prepared or offered; at most eight jobs are held and ids never repeat, pruned jobs included. |
| PasskeyTheorems.NeverNotActive | scripts/passkey_queue.py:222-224 | The "not the active operation" refusal is never given, whatever is asked of a reached state. |
| PasskeyTheorems.TakenAtMostOnce | scripts/passkey_queue.py:179-181 | A job's history holds one take if its phase is taken and none otherwise. |
| PasskeyTheorems.TakenAssertion | scripts/passkey_queue.py:142-253 | A taken assertion was enqueued, claimed, published once, offered, completed once under its latest offer and taken, in that order; its file holds the completed result, with the published intent and credential. |
| PasskeyTheorems.SignedRegistration | scripts/passkey_queue.py:237-253 | A signed or taken registration was completed exactly once; its file holds that result, with this origin and relying party and exactly the four members. |
| PasskeyTheorems.AcceptedOfferIsLatest | scripts/passkey_queue.py:195-261 | An accepted renew, fail, complete or release names the latest offer minted for its job, held by that page, unreleased and unexpired. |
| PasskeyTheorems.AcceptedOfferNeverGivenUp | scripts/passkey_queue.py:113-140 | After the offer an accepted request names, its job's history holds nothing but renewals. |
| PasskeyTheorems.EarlierPageFenced | scripts/passkey_queue.py:184-206 | After a later authentication an earlier page is refused everything but releasing an offer it holds. |
| PasskeyTheorems.TokenUsedOnce | scripts/passkey_queue.py:184-193 | A page token that authenticated is refused from then on, and no two sessions used the same one. |
| PasskeyTheorems.LapsedOfferIsReplaced | scripts/passkey_queue.py:134-140 | Once a page's lease is over, the current page's next request is given the same job under a new offer. |
| PasskeyTheorems.ExpireTwice | scripts/passkey_queue.py:134-140 | For every queue, expiring at an earlier and then at a later time gives every job the phase, and the queue the active job, that expiring once at the later time gives. |
| PasskeyTheorems.DeadlineIsFinal | scripts/passkey_queue.py:134-140 | After any command or page request at or past its deadline a job is failed, taken or pruned, in every continuation. |
| PasskeyTheorems.GoneForever | scripts/passkey_queue.py:142-253 | A failed, taken or pruned job is never live again, over every continuation. |
| PasskeyAnswers.HoldsInForce | scripts/passkey_queue.py:146-193 | After every sequence of operations the broker holds the token last opened, unless it was used, and the cookie and page of the last authentication. |
| PasskeyAnswers.AuthenticatedIff | scripts/passkey_queue.py:184-193 | A page is authenticated exactly with the token last opened, unused, within two minutes. |
| PasskeyAnswers.OpenAnswers | scripts/passkey_queue.py:146-149 | Opening answers with the address that carries the new token and, but for expiry, changes no job. |
| PasskeyAnswers.AcceptedIsAuthenticated | scripts/passkey_queue.py:195-206 | After every sequence of operations an accepted request other than a release carries the cookie and the page of the last session. |
| PasskeyAnswers.OnlyTheSession | scripts/passkey_queue.py:204-206 | Without both, everything but a release is refused. |
| PasskeyAnswers.NextIsAnswered | scripts/passkey_queue.py:207-221 | Conversely, that session's `next` is never refused. |
| PasskeyAnswers.NextAnswers | scripts/passkey_queue.py:207-221 | With no open job there is no work; the first open one is waited for if offered, offered for half a minute if there is something to sign, and otherwise claimed; no other job changes. |
| PasskeyAnswers.OwnerIsServed | scripts/passkey_queue.py:198-253 | A request by the page that holds the offer, in session or for a release, is renewed, failed, completed or released as its fields say: a good result goes to a new file, and no other job changes. |
| PasskeyAnswers.ResultIs | scripts/passkey_queue.py:235-245 | A result is good exactly when it has the four members for this origin and relying party, or the published intent and credential under the proof scheme. |
| PasskeyAnswers.StrangerIsRefused | scripts/passkey_queue.py:198-224 | A request that owns no offer is refused. |
| PasskeyAnswers.ExpiryMeans | scripts/passkey_queue.py:134-140 | A job at its deadline fails unless it is over, an offer at the end of its lease is taken back, and nothing else changes. |
| PasskeyAnswers.EnqueuedIff | scripts/passkey_queue.py:150-160 | After every sequence of operations a job is enqueued exactly when fewer than eight are unfinished and kind and name are good; it goes last, after the unfinished ones in their order, for an hour. |
| PasskeyAnswers.CommandIff | scripts/passkey_queue.py:161-182 | A command on a job is carried out exactly when it may be, changes that job alone, and answers with the job or the place of its result. |
| PasskeyAnswers.UnknownJob | scripts/passkey_queue.py:161 | A command that names no job is refused. |
| PasskeyAnswers.DocumentIs | scripts/passkey_queue.py:167-176 | A document is published exactly for this origin, this relying party and one of the three actions. |
| PasskeyAnswers.ViewShows | scripts/passkey_queue.py:107-111 | The view shows the job as it is, and of its offer the id alone. |
| PasskeyAnswers.FilesNeverChange | scripts/passkey_queue.py:56-63 | Along every sequence of operations no file is ever written over. |
| PasskeySafety.RunKeepsInv | scripts/passkey_queue.py:118-261 | Every legal sequence of commands, authentications and page requests keeps the broker invariant. |
| PasskeySafety.ApplyKeepsInv | scripts/passkey_queue.py:134-261 | So does every single operation with a later clock and fresh tokens. |
| PasskeyTrails.AssertionTrail | scripts/passkey_queue.py:142-253 | The history of an assertion has the shape its phase says, up to the whole word of a taken one. |
| PasskeyTrails.OfferedIsLatest | scripts/passkey_queue.py:209-227 | In an offered job the current offer is the last one in its history, followed by renewals only. |
| PasskeyTrails.TakenCount | scripts/passkey_queue.py:179-181 | Over every history the number of takes is one exactly in the taken phase. |
| PasskeyTrails.ResultTrail | scripts/passkey_queue.py:233-253 | A signed or taken job has exactly one completion, of an acceptable result; a live one has none. |
| PasskeyProtocol.OwnedOffer | scripts/passkey_queue.py:255-261 | The job found is offered, and page, offer and id are those the request names. |
| PasskeyBroker.JobCell.Publish | scripts/passkey_queue.py:167-178 | In place: the document is taken exactly when it and the reply fit and it is acceptable. |
| PasskeyBroker.JobCell.Command | scripts/passkey_queue.py:161-182 | In place: status, cancel, publish and take answer and change the job as specified, or refuse and change nothing. |
| PasskeyBroker.JobCell.Release | scripts/passkey_queue.py:113-115 | In place: the offer is dropped, a registration is queued again and an assertion prepared. |
| PasskeyBroker.KeepUnfinished | scripts/passkey_queue.py:151-152 | The loop keeps exactly the unfinished jobs, in order and each once. |
| PasskeyBroker.Broker.constructor | scripts/passkey_queue.py:119-132 | A new broker is the start state. |
| PasskeyBroker.Broker.Expire | scripts/passkey_queue.py:134-140 | The loop over the jobs gives the specified expiry of every job, in place. |
| PasskeyBroker.Broker.FindJob | scripts/passkey_queue.py:161 | The search returns the index of the first job with the id, or the number of jobs. |
| PasskeyBroker.Broker.FindActive | scripts/passkey_queue.py:207-208 | The search returns the first live job in insertion order. |
| PasskeyBroker.Broker.Enqueue | scripts/passkey_queue.py:150-160 | Pruning, the cap of eight, the checks of kind and name, and the new job, as specified. |
| PasskeyBroker.Broker.CommandOnJob | scripts/passkey_queue.py:161-182 | Status, cancel, publish and take change the named job as specified or refuse and change nothing. |
| PasskeyBroker.Broker.Cli | scripts/passkey_queue.py:142-182 | A command brings the broker to the specified state with the specified reply. |
| PasskeyBroker.Broker.Authenticate | scripts/passkey_queue.py:184-193 | So does an authentication. |
| PasskeyBroker.Broker.NextWork | scripts/passkey_queue.py:209-221 | `next` claims the active job and offers it when there is something to sign, as specified. |
| PasskeyBroker.Broker.CompleteJob | scripts/passkey_queue.py:233-253 | `complete` checks the result, creates its file exclusively, and signs off or fails the job, as specified. |
| PasskeyBroker.Broker.OnOwnedOffer | scripts/passkey_queue.py:225-253 | Renew, fail, complete and unknown requests on an owned offer, as specified. |
| PasskeyBroker.Broker.ReleaseOffer | scripts/passkey_queue.py:198-203 | A release by whoever holds the offer, authenticated or not, as specified. |
| PasskeyBroker.Broker.Page | scripts/passkey_queue.py:195-253 | A page request brings the broker to the specified state with the specified reply, whose meaning the rows of `PasskeyAnswers` give. |
| AuthorityThreads.SectionsAreExclusive | crates/mct-daemon/src/authority_order.rs:133-327 | However threads interleave, admission, start and end of an effect are adjacent among all callbacks and state changes, and so are a commit callback and its write. |
| AuthorityThreads.EffectsStartUnderAuthority | crates/mct-daemon/src/authority_order.rs:290-327 | Every effect starts unfenced, under an expectation that agrees in source, grants and state hash with the latest initial, committed or recovered one, and under the current cursor of exactly that expectation. |
| AuthorityThreads.FenceStopsEverything | crates/mct-daemon/src/authority_order.rs:133-303 | While fenced no commit callback and no effect begins; only a recovery lifts the fence, from an unpoisoned ledger of a new epoch that holds every acknowledged mutation and ends in the tenure's authority, with a matching cursor. |
| AuthorityThreads.RecoveriesRenew | crates/mct-daemon/src/authority_order.rs:211-288 | Every recovery of every interleaving ends a fence that was up and meets all of these conditions, and its head is then in force. |
| AuthorityThreads.StateIsCoherent | crates/mct-daemon/src/authority_order.rs:69-116 | In every reached state expectation, fence and pending mutations are coherent and are what the log says, so no admission is denied for want of an authority state. |
| AuthorityThreads.FenceIsAsLogged | crates/mct-daemon/src/authority_order.rs:148-209 | In every reached state the fence, with its reason, and the unresolved mutations are those that the log of callbacks tells. |
| AuthorityThreads.SectionsOpen | crates/mct-daemon/src/authority_order.rs:133-320 | A commit callback begins exactly unfenced and with an id that is not blank, an admission exactly unfenced and for the authority in force, an effect after exactly the current cursor. |
| AuthorityThreads.RescanReads | crates/mct-daemon/src/authority_order.rs:211-288 | A rescan finds an expectation exactly when the ledger accounts for everything up to it and the cursor at it is current. |
| AuthorityThreads.SectionsClose | crates/mct-daemon/src/authority_order.rs:148-327 | What a commit callback reports is written, an effect is started under its cursor, and what a rescan finds is put in force with nothing pending. |
| AuthorityThreads.MutualExclusion | crates/mct-daemon/src/authority_order.rs:133-327 | At most one thread is between taking and giving back the mutex. |
| AuthorityThreads.RunKeepsInv | crates/mct-daemon/src/authority_order.rs:133-327 | Every interleaving keeps the invariant, and every logged event was warranted by the log before it. |
| AuthorityOrder.RescanLiftsIff | crates/mct-daemon/src/authority_order.rs:211-288 | A rescan lifts the fence exactly when the writer is unpoisoned, its epoch is new, the replay is whole, holds every acknowledged mutation and ends in the tenure's authority, and a usable cursor matches the head. |
| AuthorityOrder.CommitKeepsCoherent | crates/mct-daemon/src/authority_order.rs:148-209 | Every outcome of a commit callback, also for another id, leaves a coherent state. |
| AuthorityOrder.NeverUnavailable | crates/mct-daemon/src/authority_order.rs:300-320 | In a coherent state "authority state unavailable" is never the answer, and an admission means unfenced, and source, grants, state hash and cursor all agreeing, field by field. |
| AuthorityOrder.SameAuthorityIff | crates/mct-daemon/src/authority_order.rs:381-389 | Two expectations are the same authority exactly when they differ in sequence and entry hash alone. |
| AuthorityOrder.CursorMatchesIff | crates/mct-daemon/src/authority_order.rs:391-402 | A cursor matches exactly when it is the current one of the expectation. |
| AuthorityOrder.AdmittedIff | crates/mct-daemon/src/authority_order.rs:290-327 | Each answer of an admission, with the fields that decide it, both ways. |
| AuthorityOrder.RescanRefusals | crates/mct-daemon/src/authority_order.rs:211-288 | Not fenced, no exclusive writer, no new tenure, an acknowledged mutation missing: each refusal exactly when it is the first of these to hold. |
| AuthorityOrder.RescanAtHead | crates/mct-daemon/src/authority_order.rs:262-288 | Once the ledger accounts for everything, the proof at its head decides: lifted, not current, denied with its reason, or another expectation. |
| AuthorityOrder.RescanBlocked | crates/mct-daemon/src/authority_order.rs:211-262 | When it does not, the refusal is one of the five before. |
| AuthorityOrder.StartsIff | crates/mct-daemon/src/authority_order.rs:93-116 | An order starts unfenced exactly on a ledger that can be read and replayed and has a head, at that head field by field. |
| AuthorityOrder.MotherAuthorityOrder.constructor | crates/mct-daemon/src/authority_order.rs:93-116 | A new order is coherent: at the ledger's expectation, or fenced for a rescan. |
| AuthorityOrder.MotherAuthorityOrder.CommitMutation | crates/mct-daemon/src/authority_order.rs:133-209 | The callback is called exactly when the old state is unfenced and the id is not blank, and the state becomes what its outcome says. |
| AuthorityOrder.MotherAuthorityOrder.MissesAcknowledged | crates/mct-daemon/src/authority_order.rs:241-247 | The loop finds whether an acknowledged mutation is missing from the replay. |
| AuthorityOrder.MotherAuthorityOrder.ClearFenceAfterExclusiveRescan | crates/mct-daemon/src/authority_order.rs:211-288 | The recovery returns and leaves what the specified rescan says. |
| AuthorityOrder.MotherAuthorityOrder.AdmitEffect | crates/mct-daemon/src/authority_order.rs:290-327 | The answer is the specified admission; it is given exactly when unfenced, with source, grants and state hash those held and the cursor current, and never "authority state unavailable". |
| CallDispatch.ReservationDecodes | crates/mct-daemon/src/call_dispatch.rs:233-261 | A reservation observation appended under its sequence decodes to that reservation. |
| CallDispatch.ReleaseDecodes | crates/mct-daemon/src/call_dispatch.rs:263-288 | A release observation decodes to the release of that attempt. |
| CallDispatch.ReservationDecodesIff | crates/mct-daemon/src/call_dispatch.rs:175-231 | A reservation fact is accepted exactly in the entry that the writer makes of it, but for the spelling of its JSON. |
| CallDispatch.ReleaseDecodesIff | crates/mct-daemon/src/call_dispatch.rs:175-231 | A release fact is accepted exactly with a valid key digest and in the entry that the writer makes of it, but for the spelling of its JSON. |
| DispatchCodec.PlainIsFaithful | crates/mct-daemon/src/call_dispatch.rs:185-188 | There is a spelling of all events a writer can produce that reads back and stays within 4096 bytes. |
| CallDispatch.CallDispatchIndex.Check | crates/mct-daemon/src/call_dispatch.rs:112-130 | A check prunes what has expired and answers by key and fingerprint; an invalid claim changes nothing. |
| CallDispatch.CallDispatchIndex.Replay | crates/mct-daemon/src/call_dispatch.rs:138-172 | An entry is applied as specified; a refused one leaves the index as it was. |
| CallDispatch.RebuildIndex | crates/mct-daemon/src/daemon/resident/observation.rs:557-563 | Startup replays entry by entry and stops at the first refusal. |
| DispatchReplay.RebuildIff | crates/mct-daemon/src/call_dispatch.rs:138-231 | A ledger replays exactly when every entry decodes and agrees with the last event of its key, and then the index is the last event per key. |
| DispatchReplay.ReleaseNamesOneReservation | crates/mct-daemon/src/call_dispatch.rs:158-170 | In a replayable ledger each release names exactly one reservation, earlier and with nothing about its key in between. |
| DispatchReplay.ReleasedOnce | crates/mct-daemon/src/call_dispatch.rs:158-170 | No reservation is released twice. |
| DispatchReplay.UnreleasedDisjoint | crates/mct-daemon/src/call_dispatch.rs:143-157 | With times in order, an unreleased reservation is over before any later one of its key is accepted. |
| DispatchReplay.ReservationStands | crates/mct-daemon/src/call_dispatch.rs:112-172 | Until it expires or is released, over every interleaving of entries and earlier checks with no reservation of its key accepted after its expiry, a reservation answers checks of its key: never fresh, existing exactly for its fingerprint. |
| DispatchReplay.NeverFreshEarly | crates/mct-daemon/src/call_dispatch.rs:112-172 | Even when later reservations of the key may take its place, no check before its expiry is fresh. |
| DispatchRuns.RebuiltAnswersAsLive | crates/mct-daemon/src/daemon/resident/observation.rs:31-78 | With non-decreasing times, over every sequence of reservations, releases, failed appends, other writes and restarts, the ledger rebuilds and answers every later check as the pruned live index does; `DispatchAnswers` says what that answer is. |
| DispatchRuns.RebuildsIffLifetimesRespected | crates/mct-daemon/src/call_dispatch.rs:138-157 | Whatever the clock does, the ledger rebuilds exactly when each reservation found the previous one of its key released or expired. |
| DispatchRuns.ReserveRebuildsIff | crates/mct-daemon/src/call_dispatch.rs:143-157 | After a reservation that is fresh live, the ledger still rebuilds exactly when no unreleased record of the key outlives its acceptance. |
| DispatchRuns.ClockMustNotGoBack | crates/mct-daemon/src/call_dispatch.rs:112-157 | The time hypothesis is needed: from an empty ledger, a check that prunes and an earlier-stamped reservation leave a ledger whose rebuild is refused as overlapping, for every faithful codec and all such claims. |
| DispatchRuns.BackwardRunExists | crates/mct-daemon/src/call_dispatch.rs:112-157 | One such run, at a codec that exists. |
| DispatchAnswers.ReserveAnswers | crates/mct-daemon/src/daemon/resident/observation.rs:31-78 | In every state of a run with times in order, a reservation is taken exactly when the last event of its key is no unexpired reservation, is existing or a mismatch exactly by the fingerprint of that one, and when taken is appended under the next sequence. |
| DispatchAnswers.ReleaseReleases | crates/mct-daemon/src/daemon/resident/observation.rs:55-78 | In every state of a run, a durable release of a live reservation appends exactly one entry, which decodes to the release of that attempt; afterwards the key is fresh for every claim, live and rebuilt. |
| DispatchAnswers.ReleaseAppends | crates/mct-daemon/src/daemon/resident/observation.rs:55-78 | One release, from every state the invariant allows: the index loses exactly that key. |
| DispatchAnswers.StaleRelease | crates/mct-daemon/src/daemon/resident/observation.rs:59-62 | Releasing what is not the live reservation of its key is answered and does nothing. |
| DispatchAnswers.LostAppend | crates/mct-daemon/src/daemon/resident/observation.rs:68-78 | A lost append fails and fences, whether it reached the ledger or not. |
| DispatchAnswers.BadReserve | crates/mct-daemon/src/daemon/resident/observation.rs:36-53 | An invalid claim, a template without a call or a ledger without a head writes nothing. |
| DispatchAnswers.LostRelease | crates/mct-daemon/src/daemon/resident/observation.rs:55-78 | A lost release fails and fences too, leaves the key reserved live, and is in the ledger exactly if it got there. |
| DispatchAnswers.LedgerOnlyGrows | crates/mct-daemon/src/daemon/resident/observation.rs:31-78 | Along every sequence of operations the ledger only grows, by at most one entry each, under its next sequence. |
| DispatchAnswers.RestartResumes | crates/mct-daemon/src/daemon/resident/observation.rs:557-563 | After a run with times in order a restart lifts the fence and goes on from the ledger alone. |
| DispatchAnswers.CheckedIff | crates/mct-daemon/src/call_dispatch.rs:112-130 | A check is fresh exactly without an unexpired record of the key, and existing exactly with its fingerprint. |
| DispatchAnswers.SchemaIff | crates/mct-daemon/src/call_dispatch.rs:175-200 | Which details are no dispatch fact, which are of an unknown schema, too large or malformed. |
| DispatchAnswers.DecodedReservation | crates/mct-daemon/src/call_dispatch.rs:175-231 | Every decoded reservation has two digests of 64 hexadecimal digits, lives twelve minutes and was accepted at its entry's instant. |
| DispatchAnswers.DispatchIdsDiffer | crates/mct-daemon/src/call_dispatch.rs:233-288 | No two dispatch observations share an id. |
| StagingTheorems.OperatorAllowedIff | crates/mct-kernel/src/artifact.rs:267-338 | An operator's run that reaches the evaluation is allowed exactly when both readings of the user id agree and its minute is not over. |
| StagingTheorems.StandingAllowedIff | crates/mct-kernel/src/artifact.rs:267-382 | The first evaluation never decides on namespaces: a standing source's run is allowed exactly when the source is current, its scope names artifact, publisher and action and has a namespace, and user and minute hold. |
| AcquisitionAuthority.NamespacesMean | crates/mct-daemon/src/acquisition.rs:1045-1059 | The namespaces are sorted and distinct, exactly those of the operations; refused exactly when there is none or one is malformed. |
| AcquisitionAuthority.OperationIff | crates/mct-daemon/src/acquisition.rs:1045-1059 | An operation names a namespace exactly when it is that namespace, with a colon, some text and no slash, and then a slash. |
| AcquisitionAuthority.ManifestNamespaces | crates/mct-daemon/src/acquisition.rs:1045-1059 | The loop collects these namespaces. |
| StagingTheorems.SettledIff | crates/mct-daemon/src/acquisition.rs:644-1042 | For every pattern of failures with working terminal store writes, a run that reaches the evaluation adds exactly one acquisition and uses up its decision, exactly unless its standing source is no file URL, the observer refuses, or the store is cut off after publication. |
| StagingTheorems.RefusalUsesDecision | crates/mct-daemon/src/acquisition.rs:991-997 | A refusing observer leaves no acquisition and a used-up decision. |
| StagingTheorems.CommittedLate | crates/mct-daemon/src/acquisition.rs:1028-1036 | When the transaction stands and reading back fails, or the store is not reopened once more, the record stays and the decision stays open. |
| StagingCatalogue.NeverReplaced | crates/mct-daemon/src/acquisition.rs:942-1036 | Over every sequence of runs and whatever fails, every catalogue package and every acquisition of before is still there, unchanged. |
| StagingCatalogue.RunKeeps | crates/mct-daemon/src/acquisition.rs:478-1043 | The same for one run. |
| StagingCatalogue.NamedIff | crates/mct-daemon/src/acquisition.rs:991-1036 | For every pattern of failures, an artifact is recorded exactly when the run was shown to the observer, accepted, placed in the catalogue and committed. |
| StagingCatalogue.CatalogueAfter | crates/mct-daemon/src/acquisition.rs:999-1036 | With working removals the catalogue after a run is the one before, plus the staged package exactly when the store was not reopened, or it was committed and read back; its content is that of `StagingMeaning.PublishedContent`. |
| StagingCatalogue.NewPackageIff | crates/mct-daemon/src/acquisition.rs:999-1036 | With working removals a new package stays exactly when its artifact was recorded, exactly unless the run strays; nothing else appears in the catalogue. |
| StagingRuns.PublishedExactly | crates/mct-daemon/src/acquisition.rs:792-1042 | Over every sequence of runs whose removals succeed, at every point the packages that were not there at first are those whose artifact some run recorded, exactly when no run strays. |
| StagingRuns.OneDirectoryAgrees | crates/mct-daemon/src/acquisition.rs:942-947 | With one children directory to a store, every package on record stays where that directory keeps it, along every sequence of runs. |
| StagingRuns.OneDirectoryPublishes | crates/mct-daemon/src/acquisition.rs:792-1042 | So there the law holds at every point exactly when the store never fails between a publication and its record. |
| StagingRuns.OneDirectorySettles | crates/mct-daemon/src/acquisition.rs:644-1042 | There, with file sources, a run that reaches the evaluation records exactly one acquisition and uses up its decision, exactly unless the observer refuses, when none is recorded and it is used up all the same, or the store is lost. |
| StagingMeaning.RecordedIffEarned | crates/mct-daemon/src/acquisition.rs:478-1036 | For every pattern of failures an artifact is recorded exactly when the request was sound and entitled, the source read, both pins, the sidecars, the claimed identity, the namespaces and the strict load held, the observer accepted, the package landed and the store took the transaction, each by its fields. |
| StagingMeaning.PublishedContent | crates/mct-daemon/src/acquisition.rs:871-1026 | For every run, a new package in the catalogue holds the canonical manifest and the component that was read, and its path is the one of the loaded artifact. |
| StagingMeaning.FindingMeans | crates/mct-daemon/src/acquisition.rs:644-870 | What a run that reaches the evaluation finds, by entitlement, reading and fitness: a foreign source, an unfit one, or the package of canonical manifest and component. |
| StagingMeaning.AdmittedIff | crates/mct-daemon/src/acquisition.rs:487-576 | A run is admitted exactly with a sound request, a store that opens, and either no proof and an unused decision, or a named source proved by exactly what the store projects; a refused run changes nothing. |
| StagingMeaning.SetupLost | crates/mct-daemon/src/acquisition.rs:561-606 | When an admitted run cannot learn its user or the time, the operator's decision stays open and nothing else happens. |
| StagingMeaning.GrantedIff | crates/mct-kernel/src/artifact.rs:267-382 | A claim is granted exactly on one authority that covers it field by field, with both pins or none, and an effect in time that differs from the claim in nothing. |
| StagingMeaning.AllowedIff | crates/mct-kernel/src/artifact.rs:267-382 | An admitted run is allowed exactly when the user is the same at both readings, the minute is not over, and a standing source entitles it, by its fields. |
| StagingMeaning.StillAllowedIff | crates/mct-daemon/src/acquisition.rs:845-860 | The second evaluation allows exactly when moreover every namespace is in scope. |
| StagingMeaning.ArtifactsAfter | crates/mct-daemon/src/state.rs:2958-3020 | An earned artifact is on record with the loader's facts and at its path unless it had one; otherwise artifacts and paths are as before. |
| StagingMeaning.RelativePathIff | crates/mct-daemon/src/acquisition.rs:1108-1121 | A path is taken as relative exactly when it is not empty, does not start at the root and never climbs. |
| StagingMeaning.ComponentsAre | crates/mct-daemon/src/acquisition.rs:1061-1095 | The equations that determine the components by which paths are compared: empty ones and dots do not count, but a dot at the front does. |
| StagingMeaning.TaggedDigestIff | crates/mct-daemon/src/acquisition.rs:1170-1183 | A pin is its tag followed by 64 lower-case hexadecimal digits. |
| StagingMeaning.StagingNameMeans | crates/mct-daemon/src/acquisition.rs:871-874 | The staging name has no colon and differs from the id in nothing else. |
| StagingRuns.PublishedIsEarned | crates/mct-daemon/src/acquisition.rs:779-1009 | Over a sequence of runs, whatever was recorded at a path was earned by one of them, in the world it started from. |
| StagingRuns.OrphanPackage | crates/mct-daemon/src/acquisition.rs:1017-1029 | The condition is needed: with removals and terminal writes working, a store that cannot be reopened leaves a package that nothing records and an open decision. |
| StagingRuns.RecordedAndRemoved | crates/mct-daemon/src/acquisition.rs:1028-1036 | Every operator's run that strays with its store reopened leaves its artifact recorded, its package removed and its decision open. |
| StagingRuns.TwoDirectoriesDisagree | crates/mct-daemon/src/state.rs:3006-3018 | The condition is needed: of two runs from an empty world, each with every step succeeding, the second is recorded, its new package removed and its decision left open. |
| StagingRecords.RecordTellsTruth | crates/mct-daemon/src/acquisition.rs:620-978 | Whatever fails, the one record names its authority, and is acquired, rejected, verified and tied to an artifact exactly as entitlement, reading, fitness and earning say, with the size and digest of the bytes read. |
| StagingRecords.DigestIsOfPackage | crates/mct-daemon/src/acquisition.rs:779-1009 | The digest in the record of a recorded run is the one of the component in the catalogue. |
| StagingRecords.SuccessMeans | crates/mct-daemon/src/acquisition.rs:1028-1042 | A run that reports success has recorded its artifact in one acquisition, used up its decision and left the package in the catalogue. |
| StagingRecords.StagingIsEmptied | crates/mct-daemon/src/acquisition.rs:871-1026 | With working store writes and removals the staging area after a run is the one before. |
| StagingHost.SelectComponent | crates/mct-daemon/src/acquisition.rs:711-750 | The component named by the request, or else declared by a manifest that is readable, UTF-8, parsed and declares a relative path. |
| StagingHost.JudgeSource | crates/mct-daemon/src/acquisition.rs:778-870 | The checks in their order find exactly what is fit. |
| StagingHost.JudgeManifest | crates/mct-daemon/src/acquisition.rs:828-870 | Identity, namespaces, scope and declared component decide whether the manifest fits. |
| StagingHost.ExamineSource | crates/mct-daemon/src/acquisition.rs:644-870 | The early exits give exactly the specified finding, whose meaning is `StagingMeaning.FindingMeans`. |
| StagingHost.Host.constructor | crates/mct-daemon/src/acquisition.rs:516 | The host starts at the given world. |
| StagingHost.Host.ConsumeDecision | crates/mct-daemon/src/state.rs:2892-2908 | An active decision becomes consumed; otherwise nothing changes and the call fails. |
| StagingHost.Host.RecordTerminal | crates/mct-daemon/src/acquisition.rs:637-643 | One new record and a consumed decision, or a failure at the step that fails. |
| StagingHost.Host.RecordVerifiedArtifact | crates/mct-daemon/src/state.rs:2958-3020 | The transaction is refused with nothing changed, or committed and read back. |
| StagingHost.Host.ProjectArtifact | crates/mct-daemon/src/acquisition.rs:1028-1042 | The artifact is recorded and the decision consumed, or a new package is taken back, as specified. |
| StagingHost.Host.PublishPackage | crates/mct-daemon/src/acquisition.rs:998-1026 | An existing package is checked again and kept, a new one renamed into place, as specified. |
| StagingHost.Host.PresentPackage | crates/mct-daemon/src/acquisition.rs:934-997 | Tag, conflict and observer, as specified. |
| StagingHost.Host.StagePackage | crates/mct-daemon/src/acquisition.rs:871-915 | The staging directory is written, loaded and, on failure, recorded and dropped, as specified. |
| StagingHost.Host.Admit | crates/mct-daemon/src/acquisition.rs:487-576 | Admission and the record of the operator's decision, or nothing changed. |
| StagingHost.Host.ActOn | crates/mct-daemon/src/acquisition.rs:637-671 | Each finding is acted on as specified. |
| StagingHost.Host.StageArtifact | crates/mct-daemon/src/acquisition.rs:478-1043 | The whole transaction, exit by exit, leaves the specified world and result; packages and records of before are kept, a new package holds the canonical manifest and the component read, success means one record, a used-up decision and the package in place, and the run settles exactly when it should. |
| HttpFraming.ReadHeadIff | crates/mct-daemon/src/control_transport.rs:25-38 | The reader returns the first head of the stream exactly when it fits the cap, and reports the cap exactly when no head ends within it. |
| HttpFraming.ReadHeaders | crates/mct-daemon/src/control.rs:668-688 | The byte-pushing loop returns what the reader's specification says, for any cap. |
| HttpFraming.ParseHeaderFields | crates/mct-daemon/src/control_transport.rs:41-76 | The loop over the fields computes the specified parse, with its error. |
| HttpFraming.ReadFieldsIff | crates/mct-daemon/src/control_transport.rs:52-74 | Fields are accepted exactly when every line is one, none is a transfer encoding, and at most one is a content length or an authorization; the length is its exact decimal value. |
| HttpFraming.ReaderAndParserAgree | crates/mct-daemon/src/control_transport.rs:25-76 | In accepted bytes CR and LF occur only as line-ending pairs, and reading them followed by anything returns exactly them. |
| HttpFraming.AcceptedHeadMeans | crates/mct-daemon/src/control_transport.rs:41-76 | A head is accepted exactly when it fits, ends, is UTF-8, has a clean start line and fields that mean what is returned. |
| HttpFraming.RequestHeadAgrees | crates/mct-daemon/src/control_transport.rs:78-94 | The same for an accepted request head, whose length is zero exactly when undeclared or declared zero. |
| HttpExchange.ResponseRoundTrip | crates/mct-daemon/src/control.rs:743-764 | For every body and control-free content type whose head fits, reading the printed response gives its head, its declared length and exactly its body. |
| HttpExchange.ClientReadsResponse | crates/mct-daemon/src/control_transport/client.rs:94-117 | The client gets status and body back exactly when head and body fit their caps and the status has three digits below 600; it never gets anything else. |
| HttpExchange.OverlongResponse | crates/mct-daemon/src/control_transport.rs:25-38 | A response whose head exceeds the cap is refused as such. |
| HttpExchange.RequestRoundTrip | crates/mct-daemon/src/control_transport/client.rs:64-68 | The server reads the client's head off the stream and parses method, path and body length back. |
| HttpExchange.ClientRequestIsRouted | crates/mct-daemon/src/control.rs:625-657 | A client's request is taken exactly unless it is neither a call nor an allowed mutation and is too long or a GET with a body; then its route is the one its method and path say. |
| HttpMeaning.RoutedIff | crates/mct-daemon/src/control.rs:625-657 | Every head is taken, for one purpose, exactly when its line and fields say so: calls for POST to /calls, mutations for another POST where allowed, and otherwise reading, without a body for GET and within the cap. |
| HttpMeaning.RequestIff | crates/mct-daemon/src/control_transport.rs:78-94 | A request head is accepted exactly when its first line is a word of capitals, a path from the root and a version 1.0 or 1.1 between white space; the length is the declared one or zero. |
| HttpMeaning.Utf8Iff | crates/mct-daemon/src/control_transport.rs:41-44 | Bytes are taken as UTF-8 exactly when they encode some scalar values. |
| HttpMeaning.TrimIs | crates/mct-daemon/src/control_transport.rs:58-61 | Trimming takes off the scalar values with the property White_Space at both ends, and nothing else. |
| HttpMeaning.WordsAre | crates/mct-daemon/src/control_transport.rs:80 | The equations that determine splitting at ASCII white space. |
| HttpMeaning.NamesFieldIff | crates/mct-daemon/src/control_transport.rs:62-74 | A line names a field exactly when what comes before its first colon is that name but for case. |
| HttpMeaning.ReasonsAre | crates/mct-daemon/src/control.rs:744-755 | The phrase of each status. |
| Provenance.ReadProvenance | crates/mct-daemon/examples/federation_host.rs:441-461 | The nested loops compute the specified markers, or the first error. |
| Provenance.ProvenanceIff | crates/mct-daemon/examples/federation_host.rs:441-461 | A detail is accepted exactly when every marker has a value and comes once, the executor is this node and is named only at the front of a part; the markers are then those of the parts. |
| Provenance.ReducedReads | crates/mct-daemon/examples/federation_host.rs:493-518 | The reduced form of every accepted detail is accepted with the same markers. |
| Provenance.ReducedPartsIff | crates/mct-daemon/examples/federation_host.rs:493-518 | The parts of a reduced detail are exactly the marker parts and, for each kind, the reasons named for it. |
| Provenance.KeptIff | crates/mct-daemon/examples/federation_host.rs:502-513 | A part is kept exactly when its word is a marker, or a reason of the kind. |
| Provenance.MarkerRoundTrip | crates/mct-daemon/examples/federation_host.rs:441-461 | A detail of one marker, of any of the four keys, reads as that marker. |
| Provenance.MeshJobStays | crates/mct-daemon/examples/federation_host.rs:498-500 | A detail of a local mesh job is kept whole. |
| Provenance.ReducedTwice | crates/mct-daemon/examples/federation_host.rs:493-518 | Reducing again changes nothing. |
| LedgerSummary.SummaryMeans | crates/mct-daemon/examples/first_real_app_host.rs:664-776 | There is a summary exactly when every correlation can be read; each count is the number of facts of its kinds about the job or an execution tied to it anywhere; the executions are sorted and distinct. |
| LedgerSummary.TiesIff | crates/mct-daemon/examples/first_real_app_host.rs:707-743 | An observation ties an execution to the job exactly when it is a constructed call whose correlation names the job as its caller call, with four good fields and a good execution id. |
| LedgerSummary.UnreadableIff | crates/mct-daemon/examples/first_real_app_host.rs:707-743 | It cannot be read exactly when its correlation does not decode, a field is bad, or it names the job without a good execution id. |
| LedgerSummary.RunsHereIff | crates/mct-daemon/examples/first_real_app_host.rs:745-757 | The job ran here exactly when one of the five runtime facts is about it. |
| LedgerSummary.OrderDoesNotMatter | crates/mct-daemon/examples/first_real_app_host.rs:902-949 | Every reordering of the ledger has a summary when this one has, and the same one. |
| LedgerSummary.ExecutionsMean | crates/mct-daemon/examples/first_real_app_host.rs:707-743 | The first pass finds exactly the executions tied anywhere, sorted. |
| LedgerSummary.SummariseLedger | crates/mct-daemon/examples/first_real_app_host.rs:902-949 | The two passes compute the specified summary, or the first error. |
| LedgerSummary.Counts.Add | crates/mct-daemon/examples/first_real_app_host.rs:673-687 | The counter of the kind goes up by one when the call is the given one. |
| LedgerSummary.CorrelatedCounts.constructor | crates/mct-daemon/examples/first_real_app_host.rs:699-704 | It starts with nothing counted and nothing correlated. |
| LedgerSummary.CorrelatedCounts.Correlate | crates/mct-daemon/examples/first_real_app_host.rs:707-743 | The execution the observation ties to the job is added, or the error returned and nothing changed. |
| LedgerSummary.CorrelatedCounts.Count | crates/mct-daemon/examples/first_real_app_host.rs:745-766 | A fact about the job or a correlated execution is counted once, and a direct runtime fact noted. |
| LedgerSummary.CorrelatedCounts.ExecutionCallIds | crates/mct-daemon/examples/first_real_app_host.rs:768-775 | The correlated executions, with the job in its place when it ran here. |

## Left out

- Passkey broker: JSON documents are values and the 96 KiB limit a given predicate on them; Python's equality of `True` with `1` in the compared members is not modelled.
- The broker's HTTP service, Unix socket, TLS, cookies on the wire and browser page: plumbing around the operations modelled here.
- Mother authority order: the ledger, its replay, the projection store and hashing are inputs; `is_fenced` and `fence_reason` are single reads.
- Call dispatch: digests and JSON are any faithful encoding; timestamps are integers in nanoseconds between the earliest and the latest instant, so their spelling is not modelled.
- Resident writer: only dispatch, other appends and restart; its queue, authority commands and cached tip are not part of this model.
- Authority evaluation: the capability carries only its source reference; since that is the one asked for, the mismatch exit of the staging function cannot be taken and has no branch.
- Staging: bytes read, parsing, hashing, the strict loader, the filesystem and the clock are outcomes of the environment; a failed write is taken to leave the staging directory until it is removed.
- Staging: concurrent runs on one catalogue are not modelled; an existing package may load differently before and after the observer.
- RecordVerifiedArtifact: the link rows between artifacts and acquisitions are the record's artifact field; where both keys of the package table conflict, the artifact's own key is taken to decide.
- canonical_package_manifest: only its comparison of the declared and the selected component; the rewritten manifest is an outcome.
- rollback_artifact_publication and the callers of staging in the daemon: they act on finished runs.
- HTTP: time-outs, partial reads and the body reader's budget; the socket identity checks of the client.
- LedgerSummary: the ledger is given as observations; reading, hashing and verifying its lines is not modelled, counters do not wrap, and of the job id only its use is modelled.
- retain_observation and hello_reason: one branch each.
- Configuration, composition, blob store, metrics, cycles, snapshots, release packaging and scripts around external programs: record copying, single checks or tools.
