# Confidential-ledger case adjudication, modelled in Dafny

This project models the transactional request handlers of a confidential
ledger application that adjudicates insurance "cases". Users hold a policy
label. A user registers an incident as a case. The case waits in a
round-robin queue until a *processor* commits a decision. A processor is
trusted only if it has registered with SNP attestation evidence that meets
two conditions:

- the evidence's report data binds it to the processor's own identity (the
  first 32 bytes of SHA-256 of its fingerprint);
- the evidence's attested policy label is in an administrator-maintained
  accepted list.

Trust is checked again on every decision, against the list as it stands at
that moment.

Each handler is one atomic state transition over the key-value tables it
touches. The model has four modules, one per source file:

- `Common` (`common.dfy`) holds the request and response vocabulary,
  `errorResponse`, `result_ok`/`result_error` and the byte-array comparison
  `equal_uint8array`. The comparison is a loop proved against the pointwise
  definition.
- `UserRegistration` (`user_registration.dfy`) holds the `userPolicy` table,
  as the class `UserPolicyStore`.
- `ProcessorRegistration` (`processor_registration.dfy`) holds the accepted
  policy list and the `validProcessors` table, as the class
  `ProcessorTrustStore`. It also has the pure validation pipeline of
  `registerProcessor`: Base64 decoding, the SNP verifier, the identity
  binding and the policy check.
- `CaseManagement` (`case_management.dfy`) holds the id counter, the
  `caseMetadata` table and the case queue, as the class `CaseLedger`.
  Beside the class are the queue operations as functions (rotation, and
  the filter that removes every copy of an id). There is also a
  value-level ledger invariant `Consistent`:
  - the case ids are exactly the ids below the counter;
  - every stored decision is `""` or one of approve, deny or error;
  - every queued id has a case;
  - an undecided case is queued exactly once, and a decided case not at all.

  Each handler keeps this invariant; the `ConsistentAfter…` lemmas prove it.

`scenarios.dfy` (module `Scenarios`) holds client methods. Each one calls
the handlers in sequence and states what a caller learns from their
contracts: refused registration without a policy, first id "0",
consecutive ids, an empty poll, a second decision refused, and revocation
by emptying the accepted list.

The stores are classes whose fields the handlers reassign. A table is a
`map`, the queue is a `seq`, and a singleton that may never have been
written is an `Option`. The outside world comes in as parameters:

- the caller's fingerprint is a parameter;
- the permission check is an `Authorizer` function;
- Base64, UTF-8 encoding, SHA-256 and the SNP verifier are the fields of a
  `Foreign` record of functions;
- a request body is either `Unparsable(reason)` (`request.body.json()` or
  destructuring threw) or an object of JSON fields.

Handlers do not require the ledger invariant. Their contracts hold in every
state, and they state `old(Valid()) ==> Valid()`. So the "case in queue but
not in store" path of `nextCase` is still modelled, and it is proved
unreachable from consistent states.

Points where the code's behaviour is easy to misread:

- a second decision and a metadata mismatch both return 400; the handlers
  have no separate conflict status;
- `registerProcessor` checks only the attested `policy` against the
  accepted list; the measurement is recorded but never checked;
- `nextCase` writes the rotated queue before it checks that the case
  exists, so the 500 response follows a write;
- the first read of an unset queue stores an empty one, even on the 404
  path of `nextCase`.

A consequence of the code, proved as `EmptyIncidentNeverMatches`:
`registerCase` accepts an empty incident text, but `putCaseDecision`
rejects an empty incident before it compares it with the stored one. A
case registered with empty text can therefore never be decided, and it
stays in the queue.

## Model

| member | source | states |
|---|---|---|
| `Common.ErrorResponse` | dist/src/endpoints/common.js:3-10 | the status is the given code and the body is the `{error: msg}` object |
| `Common.ResultOk` | dist/src/endpoints/common.js:11-13 | `ok` is true with the value "Everything ok" |
| `Common.ResultError` | dist/src/endpoints/common.js:14-19 | `ok` is false, `value` is the message, and it differs from the ok result |
| `Common.EqualBytes` | dist/src/endpoints/common.js:20-32 | false whenever the lengths differ; true exactly when the lengths agree and every index holds the same byte |
| `Common.SameBytesIsEquality` | dist/src/endpoints/common.js:20-32 | the pointwise comparison is sequence equality, hence reflexive and symmetric |
| `Common.Prefix32` | dist/src/endpoints/processor_registration.js:110 | `slice(0, 32)` yields a prefix of length min(n, 32) |
| `Common.DecimalString` | dist/src/endpoints/case_management.js:45 | `String(case_id)` is a non-empty string of decimal digits with no leading zero |
| `Common.DecimalRoundTrip` | dist/src/endpoints/case_management.js:45 | reading the decimal text of an id back gives the id |
| `Common.DecimalStringInjective` | dist/src/endpoints/case_management.js:45 | distinct ids are reported as distinct texts |
| `UserRegistration.ParsePolicyAssignment` | dist/src/endpoints/user_registration.js:28-39 | succeeds iff the body parses and `cert` and `policy` are non-empty strings, yielding exactly them; an unparsable body, a bad `cert` and then a bad `policy` each fail with their own message, in that order |
| `UserRegistration.UserPolicyStore.GetPolicy` | dist/src/endpoints/user_registration.js:9-11 | the stored label for the fingerprint, or absent exactly when there is none |
| `UserRegistration.UserPolicyStore.GetUserPolicy` | dist/src/endpoints/user_registration.js:12-21 | 200 with the caller's label iff getPolicy finds one, otherwise 400 "No policy found" |
| `UserRegistration.UserPolicyStore.SetUserPolicy` | dist/src/endpoints/user_registration.js:22-44 | 403 without `/policy/write`, then 400 on a bad body, both with no write; on success maps the body's `cert` (not the caller) to `policy`, leaves other entries alone, and getPolicy(cert) then returns it |
| `ProcessorRegistration.ParseAcceptedPolicies` | dist/src/endpoints/processor_registration.js:40-53 | succeeds iff `policies` is an array of strings (possibly empty), yielding the same strings in order |
| `ProcessorRegistration.StringItems` | dist/src/endpoints/processor_registration.js:44 | the strings of an all-string array, same length and order |
| `ProcessorRegistration.DecodeField` | dist/src/endpoints/processor_registration.js:69-86 | an evidence field is refused with its own message unless it is a non-empty string; then Base64 decoding either yields the bytes or fails with the parse message |
| `ProcessorRegistration.ParseEvidence` | dist/src/endpoints/processor_registration.js:64-93 | succeeds iff the body parses and `attestation`, `platform_certificates` and `uvm_endorsements` are all non-empty strings that decode, yielding the decoded bytes; otherwise the first failing field, in that order, decides the message |
| `ProcessorRegistration.Attest` | dist/src/endpoints/processor_registration.js:94-103 | a parse failure is passed on; a verifier failure becomes "Error while verifying attestation: " and its message; succeeds iff the evidence parses and the verifier accepts it, yielding the verifier's result |
| `ProcessorRegistration.BindingIsExclusive` | dist/src/endpoints/processor_registration.js:104-110 | evidence bound to two identities means their SHA-256 32-byte prefixes collide |
| `ProcessorRegistration.AttestedMetadata` | dist/src/endpoints/processor_registration.js:121-129 | the stored record carries the endorsements as returned and Base64 of measurement and host data as `measurement` and `policy` |
| `ProcessorRegistration.ProcessorTrustStore.GetProcessorMetadata` | dist/src/endpoints/processor_registration.js:22-24 | the stored record, or absent exactly when there is none |
| `ProcessorRegistration.ProcessorTrustStore.ValidateProcessorMetadata` | dist/src/endpoints/processor_registration.js:25-30 | passes iff the list is set, a record is given and its policy is in the current list; otherwise it names why it throws, an unset list first |
| `ProcessorRegistration.ProcessorTrustStore.IsValidProcessor` | dist/src/endpoints/processor_registration.js:12-21 | true iff a record exists, the accepted list is set and the record's policy is in it now |
| `ProcessorRegistration.ProcessorTrustStore.MeasurementIsNotChecked` | dist/src/endpoints/processor_registration.js:25-30 | changing a record's measurement never changes the validation outcome |
| `ProcessorRegistration.ProcessorTrustStore.GetValidProcessorPolicy` | dist/src/endpoints/processor_registration.js:57-62 | always 200 with the stored list, unset included |
| `ProcessorRegistration.ProcessorTrustStore.SetValidProcessorPolicy` | dist/src/endpoints/processor_registration.js:31-56 | 403 without `/processor/write`, 400 on a bad payload, neither writes; on success the list is replaced wholesale, getValidProcessorPolicy returns exactly it, records are untouched, and every registered processor is valid iff its policy is in the new list |
| `ProcessorRegistration.ProcessorTrustStore.RegisterProcessor` | dist/src/endpoints/processor_registration.js:63-145 | 400 with no write on a parse or verifier failure, on a report-data mismatch (with both values, even if the policy is accepted), or on a rejected policy (with the attested record); otherwise overwrites only the caller's record, after which isValidProcessor(caller) holds |
| `CaseManagement.Rotate` | dist/src/endpoints/case_management.js:56-58 | moving the head to the tail keeps the length and the multiset of ids |
| `CaseManagement.RotateN` | dist/src/endpoints/case_management.js:56-58 | any number of rotations keeps the length and the multiset of ids |
| `CaseManagement.RotateNSplit` | dist/src/endpoints/case_management.js:56-58 | after k ≤ K rotations the queue is its suffix from k followed by its first k ids |
| `CaseManagement.FullRotation` | dist/src/endpoints/case_management.js:48-58 | K nextCase rotations of a queue of K ids restore its order |
| `CaseManagement.PollingOrder` | dist/src/endpoints/case_management.js:48-68 | the k-th of K consecutive polls is handed the k-th id, so each id once per round |
| `CaseManagement.Without` | dist/src/endpoints/case_management.js:151 | the filtered queue no longer contains the id |
| `CaseManagement.WithoutCounts` | dist/src/endpoints/case_management.js:150-152 | filtering removes every copy of the id and keeps the count of every other id |
| `CaseManagement.WithoutDistributes` | dist/src/endpoints/case_management.js:151 | filtering distributes over concatenation, so the other ids keep their relative order |
| `CaseManagement.WithoutAbsent` | dist/src/endpoints/case_management.js:151 | filtering an id that is not queued changes nothing |
| `CaseManagement.ConsistentQueue` | dist/src/endpoints/case_management.js:26-42 | in a consistent ledger queued ids are below the counter, undecided cases are queued and decided ones are not |
| `CaseManagement.ConsistentAfterRegister` | dist/src/endpoints/case_management.js:26-42 | the new id is neither stored nor queued, and storing it undecided and appending it keeps the ledger consistent |
| `CaseManagement.ConsistentAfterRotate` | dist/src/endpoints/case_management.js:56-58 | rotating the queue keeps the ledger consistent |
| `CaseManagement.ConsistentAfterDecide` | dist/src/endpoints/case_management.js:146-152 | deciding an undecided case with a valid outcome and filtering its id keeps the ledger consistent |
| `CaseManagement.ParseDecisionRequest` | dist/src/endpoints/case_management.js:100-128 | succeeds iff the id is given, the body parses, incident and policy are non-empty strings and decision is approve, deny or error, yielding exactly those; a missing id, an unparsable body, then a bad incident, policy and decision each fail with their own message, in that order |
| `CaseManagement.EmptyIncidentNeverMatches` | dist/src/endpoints/case_management.js:110-112 | an accepted decision request never carries the empty incident, so a case stored with one can never match |
| `CaseManagement.CaseLedger.GetCaseQueue` | dist/src/endpoints/case_management.js:13-18 | returns the stored queue, empty if unset, and leaves it stored |
| `CaseManagement.CaseLedger.GetCaseMetadata` | dist/src/endpoints/case_management.js:70-98 | 400 without an id; 200 with the stored record iff the case exists, otherwise 404 |
| `CaseManagement.CaseLedger.RegisterCase` | dist/src/endpoints/case_management.js:19-47 | 404 and no change without a user policy; otherwise returns the old counter (0 if unset) as decimal text, sets the counter to id + 1, stores exactly the incident, the caller's policy and an empty decision, and appends the id after the unchanged earlier queue; getCaseMetadata then returns that record; keeps the invariant, and in a consistent ledger the id was never used |
| `CaseManagement.CaseLedger.NextCase` | dist/src/endpoints/case_management.js:48-69 | 404 "No cases found" on an empty queue; otherwise rotates head to tail and returns the head's id and record, or 500 if it has none; keeps the invariant, under which the 500 cannot happen |
| `CaseManagement.CaseLedger.PutCaseDecision` | dist/src/endpoints/case_management.js:99-154 | bad request 400, absent 404, already decided 400, mismatching metadata 400, untrusted caller 403, in that order, all with no write; on success keeps incident and policy, records decision and caller, and removes every copy of the id from the queue |
| `Scenarios.UnregisteredUserIsRefused` | dist/src/endpoints/case_management.js:21-25 | registering a case without a user policy yields 404 |
| `Scenarios.FirstCaseId` | dist/src/endpoints/case_management.js:26-46 | after an authorized policy assignment, the first case of a fresh ledger is "0" |
| `Scenarios.SuccessiveIds` | dist/src/endpoints/case_management.js:26-42 | two registrations get consecutive ids, queued at the tail in order, and the invariant holds |
| `Scenarios.PollEmptyLedger` | dist/src/endpoints/case_management.js:49-55 | polling a fresh ledger yields 404 "No cases found" |
| `Scenarios.DecideTwice` | dist/src/endpoints/case_management.js:133-149 | after a successful decision, a second one is refused with 400 whoever sends it, and the first decider's fingerprint stays |
| `Scenarios.RevokeAll` | dist/src/endpoints/processor_registration.js:25-30 | setting the accepted list to empty makes every processor invalid without touching the records |

## Left out

- `CaseManagement.CaseLedger.GetCaseMetadata`: the success body omits `version`, the store's opaque write-version token (`getVersionOfPreviousWrite`), which is outside the handlers.
- `CaseManagement.CaseLedger.RegisterCase`: the counter is an unbounded natural. The `int32` encoding of the `caseId` table, and what it does past 2^31 − 1, is not modelled.
- The `caseId` route parameter is either missing (absent, empty or not a string) or a natural number. `Number()` on other strings (NaN, negatives, fractions, hexadecimal) is JavaScript floating-point territory and is not modelled.
- JSON bodies are reduced to the shapes the handlers test: strings, arrays, undefined, and "other" for every other value. `request.body.text()` is a string parameter.
- The engine's TypeError texts from `validateProcessorMetadata` are modelled as the tags `PolicyListUnset` and `MetadataMissing`. Bodies built with `JSON.stringify` are modelled as structured payloads, not as text.
- Base64, UTF-8 encoding, SHA-256 and the SNP attestation verifier are function parameters, with no properties assumed. How the verifier checks signatures and certificate chains is out of scope.
- Caller identity extraction and `acl.authz.actionAllowed` are parameters. `getCallerCert` only returns that identity and is not modelled separately.
- The replicated store's transactions, replication and rollback are not modelled. Each handler is one atomic method, and writes happen in the code's literal order, including the writes before a 500 or 404.
- `SINGLETON_KEY` and `MAP_PREFIX` only name table keys. Each singleton is a field here.
- cl_fastapi.py (ledger SDK client, HTTP routing, file hashing), manage.py (cloud provisioning) and all.js (re-exports) are not part of this model.
