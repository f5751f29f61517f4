# DAR stop protocol: a verified model

DAR issues single-use capabilities, lets an effect gate spend them, and lets principals refuse effects for
good. What makes this hard is that nothing is checked in one place: a local snapshot file, an append-only
effect journal and an external authority are written one after the other, a crash may fall between any two
writes, and other clients use the authority at the same time. This project models that protocol and proves
what it keeps, over every run.

## How the model is built

- **Values.** `Model` (authority states), `Durable` (snapshot, intents, records), `Journal` (records and their
  fold), `Authority` (fences, refusals, effects, and one request served atomically), `Kernel`, `Refusal` and
  `Gate` (the checks and the snapshots each operation writes), `Canonical` and `JsonText` (normal forms and
  their JSON text).
- **One machine.** `Protocol` is the whole system as a state machine. A local operation runs under the store
  lock, so one is in progress at most; its program counter names the next durable write or external call. A
  crash may strike between any two of them, foreign requests reach the authority at any moment, and the
  adapter's `execute` may or may not apply what it is asked. Invariants over all its runs are split by
  subject: `Authorisation`, `Publication`, `Calls`, `Fencing`, `Delivery`, `JournalHealth`, `Spoiling`. `Acceptance`
  says what the gate lets through in terms of the records, and `RefusedEffects` what a REFUSED line means for the
  outside. `Reconciliation` and `Iterations` follow one pass over the pending intents, `Progress` and `Completion`
  say exactly when the calls complete if nobody disturbs them, and `CrashScenarios` and `Witnesses` exhibit the runs
  that go wrong. `Steps` spells out single steps for those proofs.
- **Code in its own form.** Where the source mutates state, so does the model. `Deployment.Node` is the kernel,
  the gate and the refusal authority over one `Store.FileStore`, one `Journal.EffectJournal` and one adapter;
  each method writes, appends and calls in the order of the source, lets other clients in between two calls,
  and extends a ghost run of the machine, so every result about runs is a result about these methods.
  `Store.AnchoredStore` does the same for the store alone under tampering and crashed writes.
  `AuthorityServers` holds the database form, the in-memory form and the reference form of the authority, each
  proved equal to its atomic specification. `Policy.CycleSearch`, `Policy.Closure`, `Model.Derive`,
  `Canonical.Normalize` and the journal's validation loop are loops or recursions proved exact.
- **Statement-level transactions.** `PgInterleaving` takes the database form apart: one SQL statement per step,
  buffered writes, per-outcome locks that may collide, kills and unique-key aborts anywhere. `Composition` runs the
  gate over it: the gate's write is one more such transaction, for whose answer it waits and which its death leaves
  behind, and every run of that system is a run of the machine.

## Assumptions

- Transaction ids are taken as given; no uniqueness of them is used beyond the gate's own replay check.
- MACs and digests are ideal: a MAC verifies only over the very fields it was made for, a capability that
  verifies was issued, and a digest stands for the document it is taken of. The fields joined by `|` in the MAC
  input are unambiguous. Parameters are represented by their canonical bytes.
- Refusal ids are unique per refusal (an id with an outcome identifies a recorded refusal). A MAC under a
  principal's credential comes from that principal (`Publication.OnlySigned`).
- Outcomes are ASCII and epochs fit BIGINT, so a database statement fails only on a unique key.
- A store write or a journal line happens entirely or not at all, and a crash leaves the last snapshot readable.
  With an anchor there is one moment at which it does not: after the anchor has advanced and before the file is
  replaced (`Store.FileStore.WriteAtomic`), when every later read fails. What is said to complete after a crash
  (`Fencing.RetryCompletes`, `Completion.OperationsEnd`) supposes that it did not fall there.
- NFC is any idempotent map on strings; for the identifier checks, one that leaves ASCII alone.

## Findings

Where the code does less than one may expect, the model keeps the code and the exact condition is proved.

- The in-memory authority refuses an outcome it has already committed (`Authority.MemoryRefusesAfterCommit`)
  and accepts a spent key for another outcome; `Authority.FormsAgreeExactly` names the only two situations in
  which the deployed forms differ, and `Authority.MemoryLosesExclusionExactly` the one that costs the in-memory
  form the exclusion of refused and committed.
- A journal line REFUSED does not mean that nothing happened outside. After it the gate never causes the effect
  (`RefusedEffects.NeverCausedAfter`), but the gate has caused it exactly when the line was written over it
  (`RefusedEffects.RefusedOverEffectExactly`), and the outside holds it exactly when it did at that moment or another
  client has supplied it since (`RefusedEffects.HeldDespiteRefusalExactly`); a transaction that the gate's death left
  behind counts as another client's. Which intents a reconciliation refuses
  that way can be told before the call (`RefusedEffects.RefusesOverEffectExactly`). A crash after the external commit
  and before the COMMITTED line, followed by any refusal, leads there (`CrashScenarios.RefusedDespiteEffect`; a run
  from a fresh deployment is `Witnesses.RefusedWithEffectIsReachable`).
- Reconciliation writes REFUSED without looking at a terminal line that is already there. A crash between the
  COMMITTED line and the store write, followed by a refusal, leaves a journal that is never accepted again
  (`CrashScenarios.CrashThenRefusalSpoils`, `Witnesses.SpoiledJournalIsReachable`,
  `JournalHealth.SpoiledForGood`). `Spoiling.SpoilsExactly` shows that this is the only step that ever spoils a
  journal, and `Deployment.Node.ReconcilePending` states exactly when the call does.
- A deleted store file is read as empty without asking the anchor (`Store.RolledBackExactly`), and a truncated
  one is rebound as a fresh store while the anchor stands at zero (`Store.TruncationResetsExactly`).
- A protected refusal interrupted after its external write can be completed exactly while the local epoch is
  below the fence (`Fencing.CompletableExactly`); after that no later run puts it on record locally
  (`Fencing.StrandedForever`). `CrashScenarios.InterruptionStrands` and `Witnesses.StrandedIsReachable` show how
  a deployment gets there.

## Model

| member | source | states |
|---|---|---|
| Ordering.SortedAscends | dar_v36_14/dar/model.py:22 | `sorted` of a set has exactly its elements, each once, in ascending code-point order |
| Ordering.AtMostExactly | dar_v36_14/dar/model.py:22 | the order is by code points: a prefix, or the smaller character at the first difference |
| Model.PermsExactly | dar_v36_14/dar/model.py:20 | a permission is held exactly when it is listed for the principal and the domain |
| Model.CanonicalIsSorted | dar_v36_14/dar/model.py:21-22 | the stored document lists every set in ascending order |
| Model.ReviveCanonical | dar_v36_14/dar/kernel.py:20-23 | storing a state document and reading it back gives the same state, so equal documents mean equal states |
| Model.CollectPairs | dar_v36_14/dar/model.py:31-33 | the loop adds exactly the (principal, domain) pairs listed in one state |
| Model.Derive | dar_v36_14/dar/model.py:30-42 | the imperative derivation computes the specified delta and classification |
| Model.DeltaIsComplete | dar_v36_14/dar/model.py:30-42 | changed pairs are exactly those whose permissions differ, listed or not, and changed domains those whose rules differ; the class NONE means no difference at all |
| Model.ClassifiesExactly | dar_v36_14/dar/model.py:36-41 | what each mutation class means for the two states: which gain, lose or keep permissions or governance, and meta when a kept domain changes its administrators or subordinates |
| Policy.GraphOf | dar_v36_14/dar/policy.py:13 | the graph has every declared domain with exactly its subordinates |
| Policy.CycleSearch.Enter | dar_v36_14/dar/policy.py:18 | marking a domain as being visited keeps the search invariant and extends the explored trail by it |
| Policy.CycleSearch.Leave | dar_v36_14/dar/policy.py:20 | a domain leaves `visiting` for `done` only when all its declared subordinates are done, which keeps a rank that rules cycles out |
| Policy.CycleSearch.Dfs | dar_v36_14/dar/policy.py:15-20 | a positive answer exhibits a directed cycle, a negative one leaves the domain done and the search as it was; it terminates |
| Policy.HasCycle | dar_v36_14/dar/policy.py:12-21 | true exactly when the graph restricted to declared domains has a directed cycle, for any iteration order |
| Policy.Closure | dar_v36_14/dar/policy.py:3-10 | exactly the domains, declared or not, reachable by descent from a domain the principal controls or administers; the worklist terminates |
| Policy.CyclicExactly | dar_v36_14/dar/policy.py:12-21 | a cycle is a list of at least two declared domains, each naming the next as a subordinate, that ends where it began |
| Policy.WithinExactly | dar_v36_14/dar/policy.py:3-10 | a domain is within reach exactly when some list leads to it, from a domain the principal controls or administers, each declared and naming the next |
| Policy.ValidateTransition | dar_v36_14/dar/policy.py:23-36 | each transition gets the specified verdict; an accepted one reports exactly the differing pairs, no domains, and CONTRACTION if some pair loses a permission, NONE if not |
| Policy.DeniedExactly | dar_v36_14/dar/policy.py:23-36 | which of the six denials a transition gets, or none, in terms of the two states |
| Policy.AcceptedExactly | dar_v36_14/dar/policy.py:23-36 | accepted if and only if the epoch is the next one, governance is unchanged, no pair gains a permission, only the actor's pairs change, and a real change meets no governance cycle |
| Authority.ServeKeeps | dar_v36_14/postgres_authority.py:76-122 | every request keeps one effect per outcome and refusal fences frozen; the database form also keeps refused and committed apart |
| Authority.ServeAnswers | dar_v36_14/postgres_authority.py:76-122 | when each request gets each response, in both forms, and the one row an acceptance writes |
| Authority.RepetitionChangesNothing | dar_v36_14/postgres_authority.py:88-122 | an acceptance is marked idempotent exactly when it changes nothing, and asking again gets that answer |
| Authority.ServeEvolves | dar_v36_14/postgres_authority.py:76-122 | no request lowers a fence, forgets or alters a refusal or an effect, or moves a refused outcome's fence |
| Authority.ServeRespectsRefusals | dar_v36_14/postgres_authority.py:105-122 | no request adds an effect for an outcome already refused |
| Authority.ServeAllSafe | dar_v36_14/postgres_authority.py:76-122 | the same three facts over every finite request history |
| Authority.RefusedNeverCommits | dar_v36_14/postgres_authority.py:88-122 | once the database form has refused an outcome, no later state shows an effect for it |
| Authority.MemoryRefusesAfterCommit | dar_v36_14/external_authority_server.py:135-147 | a concrete history in which the in-memory form has one outcome both committed and refused |
| Authority.MemoryLosesExclusionExactly | dar_v36_14/external_authority_server.py:135-147 | a request costs an exclusive in-memory ledger its exclusion exactly when it refuses a committed outcome at or above the fence |
| Authority.FormsAgreeExactly | dar_v36_14/external_authority_server.py:124-163 | from one ledger the two forms give the same response and state unless a committed outcome is refused or a key is reused for another outcome, and only then do they differ |
| Authority.FormsAgree | dar_v36_14/external_authority_server.py:124-163 | over every history with no key paired with two outcomes and no refusal of a committed outcome, all responses and states coincide |
| Authority.AcceptedCommitHolds | dar_v36_14/external_authority_server.py:149-163 | an accepted commit leaves an effect under its key, and for its own outcome unless the in-memory form reused the key |
| Authority.RefinesReference | dar_v36_14/tests/test_atomic_fence_authority_v1.py:14-70 | every request a deployed form accepts is accepted by the reference authority with the same change; a rejected one changes nothing |
| Authority.StricterThanReferenceExactly | dar_v36_14/tests/test_atomic_fence_authority_v1.py:14-70 | exactly which requests the reference accepts and a deployed form rejects |
| AuthorityServers.ByOutcome | dar_v36_14/postgres_authority.py:73 | the comprehension maps every committed outcome to one of its keys and nothing else |
| AuthorityServers.PostgresAuthority.Fence | dar_v36_14/postgres_authority.py:76-86 | one locked `fence` transaction is the atomic request, in response and in state |
| AuthorityServers.PostgresAuthority.RefuseOutcome | dar_v36_14/postgres_authority.py:88-103 | one locked `refuse` transaction is the atomic request |
| AuthorityServers.PostgresAuthority.CommitOutcome | dar_v36_14/postgres_authority.py:105-122 | one locked `commit` transaction is the atomic request |
| AuthorityServers.PostgresAuthority.State | dar_v36_14/postgres_authority.py:68-74 | four queries with other transactions committing in between never report an outcome as both refused and committed, nor miss an earlier refusal |
| AuthorityServers.MemoryAuthority.Handle | dar_v36_14/external_authority_server.py:124-163 | each branch is the atomic request and keeps `effects` and `committed_outcomes` mutual inverses |
| AuthorityServers.AtomicFenceAuthority.AdvanceFence | dar_v36_14/tests/test_atomic_fence_authority_v1.py:29-36 | accepts and changes exactly what the reference contract says |
| AuthorityServers.AtomicFenceAuthority.RefuseOutcome | dar_v36_14/tests/test_atomic_fence_authority_v1.py:38-51 | accepts and changes exactly what the reference contract says |
| AuthorityServers.AtomicFenceAuthority.CommitOutcome | dar_v36_14/tests/test_atomic_fence_authority_v1.py:57-70 | accepts and changes exactly what the reference contract says; a new key stores its outcome and parameters |
| PgInterleaving.StepKeeps | dar_v36_14/postgres_authority.py:60-122 | begin, lock, statement, commit and kill each keep the invariant that the log of atomic calls explains the database |
| PgInterleaving.Linearizable | dar_v36_14/postgres_authority.py:60-122 | every interleaving with crashes and aborts equals the logged calls run atomically one at a time, with the responses that were given; aborted transactions leave nothing |
| PgInterleaving.RealTimeOrder | dar_v36_14/postgres_authority.py:60-122 | a call that completed before another began precedes it in that explanation |
| PgInterleaving.InterleavedSafety | dar_v36_14/postgres_authority.py:60-122 | in no reachable database is an outcome refused and committed, or committed twice |
| PgInterleaving.AloneIsAtomic | dar_v36_14/postgres_authority.py:76-122 | a transaction that gets its lock and is not disturbed ends by itself, without blocking or aborting, with the response and the rows of the atomic request |
| PgInterleaving.LocksAreHeld | dar_v36_14/postgres_authority.py:60-61 | every lock is held by a transaction under way: ended, aborted and killed ones have released theirs |
| Composition.SharedIsProtocol | dar_v36_14/postgres_authority.py:60-122 | every run of the gate over the interleaved database, whatever transactions are under way and whether the gate's own is committed, rejected, aborted, killed or left behind by its death, is from any state on a run of the protocol with the same store, journal and ledger |
| Composition.SharedIsReachable | dar_v36_14/postgres_authority.py:60-122 | every state of that system is a state the protocol reaches; while the gate waits for no answer it is the same state |
| Journal.FoldAccepts | dar_v36_14/dar/effect_journal.py:43-58 | accepted exactly when each key's records are PREPARED, then at most one COMMITTED or REFUSED with the same immutable fields; the result maps each key to its last record |
| Journal.FieldsExactly | dar_v36_14/dar/effect_journal.py:42-57 | the immutable fields are capability transaction, effect id, idempotency key, effect class and parameter digest: those are compared, and those a PREPARED line must have |
| Durable.LineSays | dar_v36_14/dar/effect_gate.py:57-59 | a journal line carries those five fields of its intent under its key and status, and nothing else |
| Journal.PrefixAccepted | dar_v36_14/dar/effect_journal.py:43-58 | every prefix of an accepted log is accepted |
| Journal.OpenMeansPrepared | dar_v36_14/dar/effect_journal.py:59-60 | in an accepted log a key's last record is PREPARED exactly when that is its only record |
| Journal.EffectJournal.Append | dar_v36_14/dar/effect_journal.py:29-32 | adds one record at the end |
| Journal.EffectJournal.ValidatedState | dar_v36_14/dar/effect_journal.py:43-58 | the validation loop computes the fold, and the order in which the dictionary's keys were inserted |
| Journal.EffectJournal.Pending | dar_v36_14/dar/effect_journal.py:59-60 | succeeds exactly on acceptable logs and lists the PREPARED lines of the open keys in the order of the log |
| Journal.PickedInOrder | dar_v36_14/dar/effect_journal.py:59-60 | filtering the dictionary in insertion order meets the open lines in the order of the log |
| Journal.OpenLinesExactly | dar_v36_14/dar/effect_journal.py:59-60 | a record is listed exactly when it is the only record of its key |
| Store.WriteAll | dar_v36_14/dar/store.py:6-11 | over any short writes: success means all bytes were appended, otherwise only a prefix was |
| Store.FileStore.ReadSnapshot | dar_v36_14/dar/store.py:35-45 | the authentic snapshot that passes the anchor is what is read |
| Store.FileStore.WriteAtomic | dar_v36_14/dar/store.py:46-57 | the anchor advances before the file is replaced, and a crash in between leaves the file alone |
| Store.FileStore.RebindBoot | dar_v36_14/dar/store.py:58-64 | a held snapshot is kept in all fields but the boot identity, sequence included |
| Store.NoRollback | dar_v36_14/dar/store.py:35-64 | whatever earlier snapshot is put back and wherever writes crash, a read fails or returns the last completed write up to boot identity |
| Store.AnchoredStore.ReadSnapshot | dar_v36_14/dar/store.py:35-45 | in every state of a store object reached by transactions, rebinding, crashes and tampering, a read fails or returns the last completed write up to boot identity |
| Store.AnchoredStore.Transact | dar_v36_14/dar/store.py:35-57 | a successor is written on top of the last completed write, up to boot identity, or that write stays the last one |
| Store.AnchoredStore.RebindBoot | dar_v36_14/dar/store.py:58-64 | rebinding either completes with the last completed write under the new boot identity or leaves that write the last one |
| Store.ReadsExactly | dar_v36_14/dar/store.py:35-64 | a read succeeds exactly when the file is authentic and stands at the anchor's floor |
| Store.RolledBackExactly | dar_v36_14/dar/store.py:44-45 | among all files that can be planted, a missing one is the only one read as something else than the last write |
| Durable.FreshStoreIsEmpty | dar_v36_14/dar/store.py:45 | the snapshot a missing file is read as: epoch and sequence zero, nothing granted, issued, consumed or pending |
| Store.TruncationResetsExactly | dar_v36_14/dar/store.py:58-64 | rebinding an empty file starts a fresh store exactly when the floor is not above zero |
| Kernel.SyntaxExactly | dar_v36_14/dar/canonical.py:16-32 | effect ids are non-empty printable ASCII, outcome keys non-empty lowercase hexadecimal, and there are four effect classes |
| Kernel.IssueCapability | dar_v36_14/dar/kernel.py:29-52 | the imperative `issue` gives the specified snapshot and capability or the specified error |
| Kernel.IssueAnswers | dar_v36_14/dar/kernel.py:29-41 | a capability, or the error of the first check that fails: identifiers, action, boot, current and proposed grant, transition, nonce |
| Kernel.IssuesExactly | dar_v36_14/dar/kernel.py:29-52 | `issue` succeeds if and only if identifiers and action are well formed, the boot matches, the action is granted now and afterwards, the epoch is the next one, permissions only shrink for the actor, a real change meets no cycle, and the nonce is unused |
| Kernel.VerifiedExactly | dar_v36_14/dar/kernel.py:57-68 | in any snapshot, a capability verifies if and only if it matches the request, the boot and the epoch, is well formed, bears a MAC over its own claims and has its commit on record |
| Refusal.IssuedRefusalCommits | dar_v36_14/dar/refusal.py:30-74 | a refusal that `issue` signed verifies, commits at once, is on record at its target epoch, and committing it again changes nothing |
| Refusal.AuthenticExactly | dar_v36_14/dar/refusal.py:44-52 | a refusal verifies if and only if its MAC was made with the credential of the principal it names over exactly what it says, and its identifiers are well formed |
| Refusal.CommitsExactly | dar_v36_14/dar/refusal.py:58-74 | `commit` accepts exactly the authentic refusals that are newer or on record; a newer one is added to the record and sets the epoch, and nothing else changes |
| Refusal.IssuedRefusalSays | dar_v36_14/dar/refusal.py:30-38 | what `issue` signs, field by field, the outcome and the later of the two epochs included, and when it refuses to |
| Publication.PublicationBeginsExactly | dar_v36_14/dar/refusal.py:87-93 | `commit_protected` goes on to the authority if and only if the refusal is authentic, names an outcome, and is newer or on record |
| Publication.CommitPublishesExactly | dar_v36_14/dar/refusal.py:67-74 | a local commit publishes if and only if the refusal is authentic and newer, else it changes nothing |
| Publication.RecordedWasSubmitted | dar_v36_14/dar/refusal.py:58-65 | over every run, each recorded refusal was submitted under the MAC of the very principal it names |
| Publication.RecordedWasSigned | dar_v36_14/dar/refusal.py:44-65 | with unforgeable MACs, each recorded refusal is one its principal has signed |
| Authorisation.IssueFacts | dar_v36_14/dar/kernel.py:29-52 | an issued capability describes the state it installs, which grants its action, is one epoch later, attenuates the old state and keeps every refusal |
| Authorisation.IssueWrites | dar_v36_14/dar/kernel.py:42-52 | every field of the capability, its mutation class included, of the commit entry, and of the snapshot written, with the nonce added |
| Authorisation.NoncesNeverRepeat | dar_v36_14/dar/kernel.py:41-51 | in every reachable state the nonce of an issued capability is on record, belongs to no other one, and cannot be issued again |
| Authorisation.StepKeeps | dar_v36_14/dar/kernel.py:29-68 | every step keeps issued capabilities on record, at most one per epoch, and the current one's digest equal to the live state |
| Authorisation.VerifiesExactly | dar_v36_14/dar/kernel.py:57-68 | in every reachable state a capability verifies exactly when it was issued for that request, in the current epoch, by this boot |
| Authorisation.AtMostOneVerifies | dar_v36_14/dar/kernel.py:57-68 | no two different capabilities verify in one reachable state |
| Authorisation.RefusalDisarms | dar_v36_14/dar/refusal.py:58-74 | after a published refusal no capability verifies until the next issue |
| Authorisation.StepAttenuates | dar_v36_14/dar/policy.py:23-36 | only an issue changes permissions, only the actor's, and only by taking away |
| Authorisation.AttenuationOnly | dar_v36_14/dar/policy.py:23-36 | over every run each pair's permissions only shrink and governance is constant |
| Gate.RefusedExactly | dar_v36_14/dar/effect_gate.py:10-14 | refused means: an identifier is malformed, or a recorded refusal names the effect, or the outcome where one is given |
| Gate.CheckAnswers | dar_v36_14/dar/effect_gate.py:15-56 | admission, or the denial of the first check that fails, each in terms of request, capability and records |
| Gate.IntentSays | dar_v36_14/dar/effect_gate.py:57 | the recorded intent, field by field |
| Gate.SpendsExactly | dar_v36_14/dar/effect_gate.py:58 | spending adds nonce, transaction and key to the consumed ones and the key to the effects, and changes nothing else but the pending list and the sequence |
| Gate.SettlesExactly | dar_v36_14/dar/effect_gate.py:64-65 | settling an intent removes just it and keeps the others in order |
| Acceptance.AdmittedExactly | dar_v36_14/dar/effect_gate.py:15-56 | in every reachable state a call is admitted if and only if its capability was issued in this epoch by this boot for this principal, domain, action, effect, outcome and parameters, no recorded refusal names effect or outcome, and nothing is spent |
| Acceptance.ClearExactly | dar_v36_14/dar/effect_gate.py:99 | in every reachable state an intent may go ahead if and only if it is of the current epoch and no recorded refusal names its effect or its outcome |
| Acceptance.RefusedOutcomeIsNeverCalled | dar_v36_14/dar/effect_gate.py:14 | once a refusal of an outcome is on record, no fenced call for that outcome is ever made again, under any effect id or epoch |
| Acceptance.ExaminationAnswers | dar_v36_14/dar/effect_gate.py:93-108 | in any state, what the loop does about a journaled intent: it raises unless the record repeats its five fields and its outcome is well formed, refuses it if it is out of date or named by a refusal, and asks the outside only with its own parameters |
| Acceptance.LoopRefusesNamed | dar_v36_14/dar/effect_gate.py:99-100 | a pending intent that a recorded refusal names by effect or outcome is journaled REFUSED and dropped |
| Acceptance.NamedIsToldRefused | dar_v36_14/dar/effect_gate.py:85-115 | a reconciliation that ends well has journaled REFUSED for every pending intent that a recorded refusal named |
| Calls.CallsAreAuthorised | dar_v36_14/dar/effect_gate.py:36-115 | whenever any path, reconciliation included, is about to call out, an issued capability that covers the call is granted by the live state, and the effect is not refused; it covers principal, domain, action, class, effect and passed parameters of an executor call, and transaction, effect, class, parameters and outcome of an adapter call |
| Calls.RefusalsGrow | dar_v36_14/dar/kernel.py:46-51 | the durable refusal list of an earlier state is a prefix of every later one |
| Calls.RefusedIsNeverCalled | dar_v36_14/dar/effect_gate.py:10-14 | once an effect id is refused, no executor or adapter call for it is made later on any of the four paths |
| Calls.ProtectedStaysFenced | dar_v36_14/dar/effect_gate.py:104-108 | an intent with an outcome key never goes through the unfenced adapter calls, one without never through the fenced ones |
| Calls.AdapterSeesOnlyClear | dar_v36_14/dar/effect_gate.py:99-100 | an intent of a past epoch or a refused one never reaches the adapter |
| Calls.FinalGuardIsUnreachable | dar_v36_14/dar/effect_gate.py:112-113 | the last check before an intent is dropped never fires |
| Acceptance.FinishAnswers | dar_v36_14/dar/effect_gate.py:111-114 | what that check would do in any state: a barred intent raises and stays pending, any other is dropped |
| Fencing.LedgerEvolves | dar_v36_14/dar/effect_gate.py:47-115 | over every run the authority's refusals and effects stand, fences rise, and nothing is added for a refused outcome |
| Fencing.StopIsFinal | dar_v36_14/dar/effect_transaction.py:65-79 | once the authority holds a refusal, every effect it ever shows for that outcome, under any key or epoch, was already there |
| Fencing.StoppedMeansNever | dar_v36_14/postgres_authority.py:88-122 | with the database authority a refused outcome has no effect in any reachable state |
| Fencing.LocalRefusalsAreTerminal | dar_v36_14/dar/refusal.py:76-104 | if outcome refusals are published only through `commit_protected`, each local one is terminal outside with its fence frozen at its target epoch |
| Fencing.RetryCompletes | dar_v36_14/dar/refusal.py:89-104 | after a crash between the external and the local write, a retry completes in five steps while the local epoch is below the target, whatever other clients do |
| Fencing.StrandedForever | dar_v36_14/dar/refusal.py:89-104 | an outcome refused outside whose fence the local epoch has reached without a local refusal of it stays so in every later run that publishes outcome refusals through `commit_protected` |
| Fencing.CompletableExactly | dar_v36_14/dar/refusal.py:89-104 | an interrupted protected refusal can be completed by some later run, a new refusal of the outcome included, exactly when the local epoch is below the frozen fence |
| Protocol.ReportsExactly | dar_v36_14/dar/effect_transaction.py:55-63 | the adapter reports COMMITTED exactly for what it has applied, and any other status for the rest |
| Delivery.StepKeeps | dar_v36_14/dar/effect_gate.py:47-115 | every step, crash and foreign request included, keeps the agreement of store, journal and external systems |
| Delivery.AppliedAtMostOnce | dar_v36_14/dar/effect_gate.py:66-115 | over every run of crashes and repeated reconciliation no idempotency key is applied twice, although `execute` is not idempotent |
| Delivery.NothingIsLost | dar_v36_14/dar/effect_gate.py:57-65 | every intent ever recorded is still pending or has a terminal journal line |
| Delivery.CommittedMeansHeld | dar_v36_14/dar/effect_gate.py:109-111 | a COMMITTED line means the external system holds that effect, for that outcome with the database authority |
| Delivery.CausedWasAnnounced | dar_v36_14/dar/effect_gate.py:57-63 | every effect the gate caused had its key consumed and its PREPARED line written |
| Delivery.CausesAreRecorded | dar_v36_14/dar/effect_gate.py:47-115 | no step of the gate adds an external effect that is not counted among those it caused |
| Delivery.RefusedIsNeverJournaledCommitted | dar_v36_14/dar/effect_gate.py:59-63 | with the database authority no intent for a refused outcome is ever journaled COMMITTED |
| Progress.ProtectedCompletesExactly | dar_v36_14/dar/effect_transaction.py:65-79 | undisturbed, a protected call ends with its effect held, journaled COMMITTED and dropped exactly when the authority would accept the commit; else the authority is unchanged and the intent pending |
| Progress.RecoverableCompletesExactly | dar_v36_14/dar/effect_gate.py:66-84 | undisturbed, a recoverable call ends with its effect applied once, journaled COMMITTED and dropped exactly when `execute` applies; else nothing is applied and the intent stays pending |
| Completion.AtMostOneClear | dar_v36_14/dar/effect_gate.py:99-100 | in every reachable state at most one pending intent is of the current epoch and unrefused |
| Completion.OperationsEnd | dar_v36_14/dar/effect_gate.py:47-115 | left alone, every operation returns or raises within a bound computed from where it stands |
| Completion.ReconciliationEndsWellExactly | dar_v36_14/dar/effect_gate.py:85-115 | undisturbed, `reconcile_pending` ends with nothing pending and an acceptable journal exactly when the journal was acceptable, the outside and the parameters allow the one clear intent, and no other has its terminal line; then each has one, COMMITTED if it was clear and REFUSED if not |
| JournalHealth.AppendAccepted | dar_v36_14/dar/effect_journal.py:43-58 | a PREPARED line for an unknown intent or a terminal line for an open one is accepted |
| JournalHealth.HealthyUnlessTorn | dar_v36_14/dar/effect_gate.py:57-115 | the journal stays acceptable, and pending intents have no terminal line, in every run without a crash between a terminal line and the drop of its intent |
| JournalHealth.SpoiledForGood | dar_v36_14/dar/effect_gate.py:89 | a journal once rejected is rejected for ever, and reconciliation then does nothing |
| Spoiling.StepIsLater | dar_v36_14/dar/kernel.py:46-51 | no step lowers the epoch or drops a recorded refusal |
| Spoiling.StepKeeps | dar_v36_14/dar/effect_gate.py:85-115 | a REFUSED line is written only for an intent that is and stays refused or out of date, a direct call writes COMMITTED once, and the loop writes PREPARED only for keys new to the journal |
| Spoiling.SpoilsExactly | dar_v36_14/dar/effect_gate.py:99-100 | in every reachable state with an acceptable journal, a step spoils it if and only if the loop writes the REFUSED line of an intent that has its terminal line |
| Spoiling.SpoiledRunsExactly | dar_v36_14/dar/effect_gate.py:99-100 | over whole runs, the journal is acceptable if and only if that never happened |
| RefusedEffects.NeverCausedAfter | dar_v36_14/dar/effect_gate.py:99-100 | after the REFUSED line of an intent the gate never causes its effect in any later run, and the line stands |
| RefusedEffects.RefusedOverEffectExactly | dar_v36_14/dar/effect_gate.py:99-100 | over whole runs, an intent is REFUSED and its effect caused by the gate if and only if the loop wrote the line when the effect was caused already |
| RefusedEffects.ReachableOurs | dar_v36_14/dar/effect_gate.py:61-75 | in every reachable state what the gate has caused is held outside, and what the adapter has applied the gate has caused |
| RefusedEffects.RefusedWhileAppliedExactly | dar_v36_14/dar/effect_gate.py:99-108 | for an intent without an outcome key, applied and caused are one thing, so it is REFUSED and applied exactly then |
| RefusedEffects.HeldDespiteRefusalExactly | dar_v36_14/dar/effect_gate.py:99-100 | over whole runs, an intent is REFUSED and its effect held outside if and only if it was held when the line was written or another client has committed its key for its outcome since |
| RefusedEffects.RefusesOverEffectExactly | dar_v36_14/dar/effect_gate.py:85-115 | of the pending intents a reconciliation gets to, it refuses over their effect exactly those that are not clear to go ahead and whose effect is there when the call begins: caused by the gate, whatever other clients do, or held outside, if none acts |
| CrashScenarios.CrashThenRefusalSpoils | dar_v36_14/dar/effect_gate.py:63-65 | from every reachable state between a COMMITTED line and the drop with an acceptable journal, whatever else is pending: crash, any newer refusal and one reconciliation spoil the journal |
| CrashScenarios.RefusedDespiteEffect | dar_v36_14/dar/effect_gate.py:99-100 | from every reachable state between a confirmed effect and its COMMITTED line with an acceptable journal, unless an older pending intent already has its terminal line: crash, any newer refusal and one reconciliation journal REFUSED while the effect is held |
| CrashScenarios.InterruptionStrands | dar_v36_14/dar/refusal.py:97-104 | from every reachable state in which the authority would accept the refusal: a crash right after it does, and any other refusal up to the fence, strand the outcome |
| Witnesses.SpoiledJournalIsReachable | dar_v36_14/dar/effect_gate.py:63-65 | a run from a fresh deployment ends with a journal that is not acceptable |
| Witnesses.RefusedWithEffectIsReachable | dar_v36_14/dar/effect_gate.py:99-100 | a run from a fresh deployment ends with a REFUSED line for an intent whose effect is held |
| Witnesses.StrandedIsReachable | dar_v36_14/dar/refusal.py:97-104 | a run from a fresh deployment, with outcome refusals published only through `commit_protected`, ends with a stranded outcome |
| Reconciliation.LineAccepted | dar_v36_14/dar/effect_gate.py:92-110 | in every reachable state the line due for a pending intent is accepted and changes only that key |
| Reconciliation.SettleableExactly | dar_v36_14/dar/effect_gate.py:92-100 | in every reachable state a pending intent can be settled unless it has its terminal line and is refused or out of date, and its journal record and outcome name pass the loop's checks |
| Reconciliation.RefusingCloses | dar_v36_14/dar/effect_gate.py:99-100 | refusing an announced intent closes its key and no other if it could be settled, and spoils the journal if not |
| Reconciliation.CommittingCloses | dar_v36_14/dar/effect_gate.py:109-111 | committing an announced intent closes its key and no other, whether or not a line was missing |
| Reconciliation.PassAdvances | dar_v36_14/dar/effect_gate.py:90-114 | one more finished intent keeps the state of the pass: sequence up by one, later intents untouched, earlier keys closed, or the journal spoiled if one could not be settled |
| Reconciliation.PassEnds | dar_v36_14/dar/effect_gate.py:90-115 | at the end of a pass the journal is acceptable exactly when each finished intent could be settled, and then each has one terminal line |
| Reconciliation.PassFails | dar_v36_14/dar/effect_gate.py:90-114 | an exception in the next iteration leaves that verdict to the intents finished before it |
| Reconciliation.ClosedExactly | dar_v36_14/dar/effect_journal.py:43-58 | in an accepted journal a key is closed exactly when it has one PREPARED and then one terminal record |
| Deployment.Node.constructor | dar_v36_14/dar/effect_gate.py:9 | a fresh node starts a run of the protocol |
| Deployment.Node.Issue | dar_v36_14/dar/kernel.py:29-52 | issue over the store is the specified transition and a run of the protocol, with every field of capability and snapshot stated; the nonce of an issued capability gets an error and changes nothing |
| Deployment.Node.Execute | dar_v36_14/dar/effect_gate.py:36-46 | denied exactly when the checks deny, and whenever a recorded refusal names the effect; otherwise the capability is spent, and nothing else changes, before the executor runs |
| Deployment.Node.ExecuteProtected | dar_v36_14/dar/effect_gate.py:47-65 | denied, in particular whenever a recorded refusal names the effect or the capability's outcome: nothing changes; returned: capability spent, intent journaled PREPARED then COMMITTED and gone; raised: intent pending and journaled PREPARED only |
| Deployment.Node.ExecuteRecoverable | dar_v36_14/dar/effect_gate.py:66-84 | the same three outcomes for the recoverable adapter |
| Deployment.Node.ProtectedCommit | dar_v36_14/dar/effect_transaction.py:65-79 | three calls with other clients in between leave store and journal alone and succeed only through the authority's atomic commit |
| Deployment.Node.Recover | dar_v36_14/dar/effect_transaction.py:55-63 | success only after the adapter reported COMMITTED; store and journal untouched |
| Deployment.Node.ReconcileOne | dar_v36_14/dar/effect_gate.py:91-114 | finishing an intent removes just it and raises the sequence by one, an exception leaves the snapshot alone; a settleable intent leaves the journal acceptable and, when finished, its key closed and all others as they were, any other spoils it |
| Deployment.Node.ReconcilePending | dar_v36_14/dar/effect_gate.py:85-115 | after `done` intents exactly the later ones are pending and the sequence has risen by `done`, all else in the store unchanged; the journal is acceptable if and only if it was before and each finished intent could be settled, and then each has one terminal record |
| Deployment.Node.FinalGuard | dar_v36_14/dar/effect_gate.py:112-113 | the re-check in the loop cannot fire |
| Deployment.Node.CommitRefusal | dar_v36_14/dar/refusal.py:67-74 | accepts exactly an authentic refusal that is newer or on record; a newer one is published and nothing else changes |
| Deployment.Node.CommitProtected | dar_v36_14/dar/refusal.py:76-104 | a normal return means the refusal is authentic, on record locally and frozen outside at its target epoch; an exception leaves the store alone |
| Deployment.Node.RebindBoot | dar_v36_14/dar/store.py:58-64 | only the boot identity changes |
| Canonical.Normalize | dar_v36_14/dar/canonical.py:48-69 | the recursion computes the normal form, or rejects, as specified for every value |
| Canonical.NormalizeDict | dar_v36_14/dar/canonical.py:57-66 | the loop over sorted keys yields exactly the members under their NFC keys, and rejects exactly on a clash or an unsupported part |
| Canonical.ListedForm | dar_v36_14/dar/canonical.py:57-66 | an object's normal form is the one map that has every entry under its NFC key and nothing else |
| Canonical.Idempotent | dar_v36_14/dar/canonical.py:48-69 | normalising a normal form gives it back |
| Canonical.ScalarsExactly | dar_v36_14/dar/canonical.py:48-56 | null, booleans and integers are unchanged, strings become their NFC form, non-finite floats and unsupported kinds are rejected |
| Canonical.IntegralFloat | dar_v36_14/dar/canonical.py:53-56 | a float with an integral value has the normal form of that integer |
| Canonical.FloatsExactly | dar_v36_14/dar/canonical.py:53-56 | a float is accepted exactly when its value is integral |
| Canonical.NumbersExactly | dar_v36_14/dar/canonical.py:48-56 | two accepted numbers have one normal form exactly when they are equal as numbers |
| Canonical.ListsExactly | dar_v36_14/dar/canonical.py:67-68 | a list's normal form lists those of its items in order, and is missing exactly when one of them is |
| Canonical.KeyOrderIsIrrelevant | dar_v36_14/dar/canonical.py:61-66 | values that differ in key order, at any depth, have one normal form or are both rejected |
| Canonical.RejectedForKeysExactly | dar_v36_14/dar/canonical.py:57-66 | a value of supported kinds is rejected exactly when some object in it has two keys with one NFC form |
| JsonText.Reads | dar_v36_14/dar/canonical.py:74-91 | the text written for any normal form is read back as it, whatever follows it |
| JsonText.ParsesBack | dar_v36_14/dar/canonical.py:71-95 | `parse_json_object` of the canonical bytes is the normal form, and has the same bytes again |
| JsonText.BytesExactly | dar_v36_14/dar/canonical.py:71-76 | two values have equal canonical bytes exactly when their normal forms are equal |
| JsonText.WordsAndNumbers | dar_v36_14/dar/canonical.py:71-76 | the three words, and decimal digits without leading zeros after a minus sign for negative numbers |
| JsonText.StringText | dar_v36_14/dar/canonical.py:71-76 | a string is its characters between quotes, with quotes, backslashes and controls escaped and nothing else |
| JsonText.ListText | dar_v36_14/dar/canonical.py:71-76 | a list is its items between brackets with single commas |
| JsonText.ObjectText | dar_v36_14/dar/canonical.py:71-76 | an object is its members between braces in ascending key order, with single colons and commas |
| JsonText.ParsedIsProper | dar_v36_14/dar/canonical.py:81-91 | whatever is read has no object with a repeated key, at any depth |
| JsonText.ReadsNonFinite | dar_v36_14/dar/canonical.py:53-56 | `NaN` and the infinities are read as numbers, whatever follows them, and have no normal form |
| JsonText.RejectDuplicateKeys | dar_v36_14/dar/canonical.py:81-87 | the dictionary of the pairs, or an error exactly when a key repeats |
| JsonText.IdentifiersExactly | dar_v36_14/dar/canonical.py:18-46 | effect ids and outcome keys are accepted exactly when printable ASCII or lowercase hexadecimal, and returned unchanged |

## Left out

- HTTP handling, urllib and psycopg plumbing, and the HTTP adapter: the node calls the modelled authority directly.
- Unix sockets, peer credentials, seccomp, Landlock, file-descriptor walking, the daemon lock: operating-system calls; the store lock appears as "one local operation at a time".
- HMAC, SHA-256, UUIDs and random nonces: ideal functions and given values; the Rekor client and openssl calls are not part of this model.
- Torn journal lines, journal lines with a bad MAC, fsync and directory sync.
- The clock: `issued_at` is a number without meaning here.
- Deployment.Node.ExecuteProtected: the method ends by returning or raising; a process that dies in the middle is a `Crash` action of `Protocol`, where all results are proved, not an outcome of the method. The same holds for the other methods of the node.
- Deployment.Node.ExecuteRecoverable: the branch for a conflicting durable intent is not modelled; a pending key is always among the consumed ones (`Calls.Ledgered`), so the replay check denies the call before that branch.
- Deployment.Node.ReconcilePending: every intent carries its epoch, as all writers record it, so the branch for a missing epoch is not modelled; the parameters provider is a map from keys to canonical parameters.
- Deployment.Node.Execute: what the executor does, and returns, is its own.
- Model.Derive: the sorted tuples of changed pairs and domains are sets, which is all that is made of them.
- Store.NoRollback: deletion of the file and truncation under a floor of zero are outside its runs; the two exact lemmas beside it cover them.
- JsonText.ParsesBack: texts are code points; UTF-8 encoding, lone surrogates, the interpreter's limits on integer length and nesting depth, and the rounding of float literals are not modelled.
- Canonical.Normalize: which of several errors is reported, and the message, are not modelled.
- Conformance, manifest and load scripts, the audit log, the website and the other tests.
