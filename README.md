# AgentBox email-subdomain provisioning, modelled in Dafny

AgentBox provisions email subdomains, such as `mail.example.com`, for AI agents. It creates each
subdomain on an email-delivery provider (Mailgun) and pushes the DNS records that provider hands back
to a DNS provider (Porkbun). A background verifier then polls the provider with exponential backoff
until the domain verifies or expires. On top of that sit inboxes (mail users on a subdomain) and a
small table-storage layer backed by CSV files.

This project models that core and proves properties of it:

- **`verification.dfy`** (`Verification`). The verification registry of
  `services/domain_service/dns_verifier.py`:
  - a pending entry per domain, with its status, attempt count, timestamps and callbacks;
  - the backoff schedule, the expiry check, register, remove and status query;
  - one verification cycle: collect the due domains, check them, then dispatch callbacks;
  - the re-arm decision and shutdown.

  The registry's state is a `Registry` value: the domains in dictionary insertion order, plus a map
  from domain to entry. Pure functions define each transition, and the `DnsVerifier` class's methods
  are proved to follow those functions. Each loop of the source is a method with its invariants.

  Time is an integer number of seconds passed into every operation. The answer of the provider check
  for each domain is an input. That answer also carries the clock reading taken after the check,
  which the source uses for the second expiry test. Callbacks are values of an uninterpreted type. A
  callback invocation comes back as an `Invocation` (callback and arguments) in the order the source
  makes the calls.

- **`verification_props.dfy`** (`VerificationProperties`). Properties of the registry:
  - the backoff values;
  - register followed by remove;
  - what a cycle checks and whom it notifies;
  - status only ever moving forward;
  - the rule that, over any run, a domain's callbacks fire at most once.

- **`domain_service.dfy`** and **`domain_service_props.dfy`** (`Provisioning`,
  `ProvisioningProperties`). `DomainService` from `services/domain_service/domain_service.py`. Each
  operation is a pure flow function giving:
  - the sequence of port calls it makes;
  - its result;
  - the registry it leaves behind.

  The class methods are proved to follow these flows. The lemmas state which calls happen, in which
  order, and under which answers.

- **`ports.dfy`** (`Ports`). The collaborators: the DNS port, the email-delivery port and the
  email-account store. Every call goes over one shared `Wire`. The wire records each call and the
  answer it got. The answers come from an oracle indexed by the call's position, and any answer,
  including an exception, is possible.

- **`domain_utils.dfy`** (`DomainUtils`). `split_domain` and `parse_email` from
  `util/domain_utils.py`, over a model of Python's `str.split` / `str.join`.

- **`porkbun.dfy`** and **`mailgun.dfy`** (`Porkbun`, `Mailgun`). The record logic of the two
  provider adapters.
  - The HTTP clients are objects that log requests. Their replies (status code, record list) come
    from an oracle.
  - Each loop of the source (push every record, delete the matching records, parse records, count
    invalid records) is a method proved against a specification function.
  - The in-place renaming of nameless records is an array method.

- **`inbox_service.dfy`** (`Inboxes`). `InboxService` from `services/inbox_service/inbox_service.py`,
  in the same flow style as the domain service.

- **`storage_manager.dfy`** (`Storage`). `StorageManager`: a map from table name to row sequence.
  What building a table or validating an entry produces is an input.

- **`csv_storage.dfy`** (`CsvStorage`). The CSV backend:
  - value (de)serialisation for int, str and bool;
  - type-name resolution;
  - the `col:type` schema sidecar format;
  - `create_table` / `insert_entry` / `read_entries` over an abstract disk, a map from path to CSV
    file (header and rows) and a map from path to sidecar lines.

- **`email_service_provider.dfy`** (`ServiceProvider`). The memoising `get` of
  `EmailServiceProvider`, with the factory's calls logged.

- **`common.dfy`** (`Common`). Shared values: `Option`, `Result`, the error kinds the source raises,
  `DnsRecord`, and row values.

## Model

| member | source | states |
|---|---|---|
| Common.NatText | storage/writer/csv_storage.py:143 | the decimal text of a natural is non-empty, all digits, and has no leading zero |
| DomainUtils.Split | util/domain_utils.py:11 | splitting on a separator gives at least one part |
| DomainUtils.JoinSplit | util/domain_utils.py:11-14 | joining the parts of a split with the same separator gives back the string |
| DomainUtils.SplitLength | util/domain_utils.py:11 | a split has one part more than the string has separators |
| DomainUtils.SplitJoin | util/domain_utils.py:11-14 | splitting a join of separator-free parts gives back those parts |
| DomainUtils.CountJoin | util/domain_utils.py:14 | a join of n separator-free parts contains exactly n-1 separators |
| DomainUtils.SplitDomain | util/domain_utils.py:8-14 | fewer than three labels give ("", input); otherwise sub + "." + apex is the input |
| DomainUtils.SplitDomainLabels | util/domain_utils.py:11-14 | with n ≥ 3 labels the apex is the last two labels and has exactly one dot; the subdomain is the first n-2 labels joined by "." and has exactly n-3 dots |
| DomainUtils.FirstIndex | util/domain_utils.py:5 | None iff the character is absent; otherwise the position of its first occurrence |
| DomainUtils.ParseEmail | util/domain_utils.py:3-6 | ValueError iff there is no "@"; otherwise the local part has no "@" and local + "@" + domain is the address |
| Verification.NextDelay | services/domain_service/dns_verifier.py:49-53 | the delay lies between 30 and 300, is 30 at attempt 1 and 300 from attempt 7 on |
| Verification.RawDelayStep | services/domain_service/dns_verifier.py:51 | the uncapped delay 30·1.5^k (floored) never decreases from one attempt to the next |
| Verification.ShouldRetry | services/domain_service/dns_verifier.py:36-47 | true iff the entry is pending and at most max_completion_time has passed since its last attempt; only the status can change, and it becomes EXPIRED exactly when a pending entry answers false |
| Verification.NewEntry | services/domain_service/dns_verifier.py:21-30 | a new entry is PENDING with one attempt, created and last tried now, no error, the given callbacks, and a 600-second limit |

| Verification.Register | services/domain_service/dns_verifier.py:75-109 | accepted iff the domain is not present as VERIFIED or FAILED (EXPIRED is accepted); an unknown domain is appended in order with a fresh entry; a rejected one leaves the registry unchanged; an accepted existing one keeps status and attempts and replaces only the given callbacks; other entries are untouched and the registry stays well formed |
| Verification.Without | services/domain_service/dns_verifier.py:115 | removing a domain from the order keeps every other domain and keeps the order duplicate-free |
| Verification.Remove | services/domain_service/dns_verifier.py:111-118 | true iff the domain was present; afterwards it is absent and every other entry is unchanged |
| Verification.DomainStatus | services/domain_service/dns_verifier.py:69-73 | None iff the domain is absent; "verified" iff its status is VERIFIED; "pending" for every other status |
| Verification.Eligible | services/domain_service/dns_verifier.py:171-178 | no contract; specified by VerificationProperties.CollectFacts and VerificationProperties.CycleEntries |
| Verification.Collect | services/domain_service/dns_verifier.py:169-179 | collecting keeps the domains and their names; every domain it selects is one it looked at |
| Verification.CollectLoop | services/domain_service/dns_verifier.py:169-179 | the collection loop, updating each entry by the expiry check, gives exactly the entries and due list of the collection function |
| Verification.Attempt | services/domain_service/dns_verifier.py:190-211 | one check bumps attempts and sets last_attempt to now; a confirmed answer marks VERIFIED and completes; otherwise last_error is set and the entry fails iff the clock after the call is past the limit; never both |
| Verification.Process | services/domain_service/dns_verifier.py:185-211 | processing keeps the domains; completed and failed domains are among those checked |
| Verification.ProcessLoop | services/domain_service/dns_verifier.py:185-211 | the processing loop gives exactly the entries and completed/failed lists of the processing function |
| Verification.CheckDomain | services/domain_service/dns_verifier.py:190-211 | checking one domain gives the entry and the completed/failed flags that the attempt function defines |
| Verification.Cycle | services/domain_service/dns_verifier.py:162-215 | a cycle keeps the registry well formed, with the same order and the same set of domains |
| Verification.CompletionCalls | services/domain_service/dns_verifier.py:217-231 | no contract; specified by VerificationProperties.CompletionCallsCount and VerificationProperties.CompletionCallsMembers |
| Verification.ErrorCalls | services/domain_service/dns_verifier.py:233-255 | no contract; specified by VerificationProperties.ErrorCallsCount and VerificationProperties.ErrorCallsMembers |
| Verification.Rearm | services/domain_service/dns_verifier.py:145-155 | no contract; specified by VerificationProperties.RearmIff |
| Verification.ShutdownCalls | services/domain_service/dns_verifier.py:277-283 | no contract; specified by VerificationProperties.ShutdownCallsFacts |
| Verification.DnsVerifier.constructor | services/domain_service/dns_verifier.py:55-67 | an empty registry, timer not armed, shutdown not requested |
| Verification.DnsVerifier.GetDomainStatus | services/domain_service/dns_verifier.py:69-73 | answers what the status function gives for the current registry |
| Verification.DnsVerifier.EnsureTimerRunning | services/domain_service/dns_verifier.py:120-123 | the registry is unchanged; the timer is armed unless shutdown was requested |
| Verification.DnsVerifier.AddPendingDnsVerification | services/domain_service/dns_verifier.py:75-109 | the new registry and result are those of the register function; the timer gets armed iff a new domain was added and shutdown is not set |
| Verification.DnsVerifier.RemoveDomain | services/domain_service/dns_verifier.py:111-118 | the new registry and result are those of the remove function; the timer is untouched |
| Verification.DnsVerifier.CollectDue | services/domain_service/dns_verifier.py:169-179 | the entries and the due list are those of the collection function on the insertion order |
| Verification.DnsVerifier.ProcessDue | services/domain_service/dns_verifier.py:185-211 | the entries and the completed/failed lists are those of the processing function |
| Verification.DnsVerifier.HandleCompletedDomains | services/domain_service/dns_verifier.py:217-231 | one completion-callback invocation per completed domain that has one, in order |
| Verification.DnsVerifier.HandleFailedDomains | services/domain_service/dns_verifier.py:233-255 | one error-callback invocation (domain, message) per failed domain that has one, in order |
| Verification.DnsVerifier.VerifyDomains | services/domain_service/dns_verifier.py:162-215 | the new registry, the checked entries and the callback invocations are those of the cycle function |
| Verification.DnsVerifier.VerificationCycle | services/domain_service/dns_verifier.py:139-160 | runs the cycle, then the timer is re-armed exactly when the re-arm rule says so |
| Verification.DnsVerifier.Shutdown | services/domain_service/dns_verifier.py:265-285 | the registry is unchanged, shutdown is set, the timer is disarmed, and one error callback is attempted per pending entry |
| VerificationProperties.RawDelayMonotonic | services/domain_service/dns_verifier.py:51 | the uncapped delay is monotone in the attempt count |
| VerificationProperties.RawDelayPastCap | services/domain_service/dns_verifier.py:51-53 | from exponent 6 on, the uncapped delay is at least the 300-second cap |
| VerificationProperties.NextDelayIsCappedRaw | services/domain_service/dns_verifier.py:49-53 | the delay is the minimum of the uncapped delay and 300 |
| VerificationProperties.NextDelayMonotonic | services/domain_service/dns_verifier.py:49-53 | more attempts never give a shorter delay |
| VerificationProperties.NextDelayValues | services/domain_service/dns_verifier.py:49-53 | the schedule is 30, 45, 67, 101, 151, 227, then 300 for every later attempt |
| VerificationProperties.WithoutAppended | services/domain_service/dns_verifier.py:98-115 | removing the domain that was just appended restores the order |
| VerificationProperties.RegisterThenRemove | services/domain_service/dns_verifier.py:75-118 | registering an unknown domain, then removing it, restores the registry; in between its status reads "pending" |
| VerificationProperties.RegisterKeepsStatus | services/domain_service/dns_verifier.py:83-95 | registering never changes the status or attempt count of an existing entry |
| VerificationProperties.CollectFacts | services/domain_service/dns_verifier.py:169-179 | each entry after collection is the expiry-checked entry; a domain is due iff it was eligible (retry allowed and its backoff delay has passed); the due list has no repeats |
| VerificationProperties.ProcessFacts | services/domain_service/dns_verifier.py:185-211 | each processed entry is the attempted entry; a domain completes iff it is due and confirmed; it fails iff it is due, not confirmed, and past its limit after the call |
| VerificationProperties.CompletionCallsCount | services/domain_service/dns_verifier.py:217-231 | each completed domain with a completion callback gets exactly one invocation; no other domain gets any |
| VerificationProperties.CompletionCallsMembers | services/domain_service/dns_verifier.py:217-231 | an invocation is dispatched iff it is a completed domain's completion callback with the domain as its one argument |
| VerificationProperties.ErrorCallsCount | services/domain_service/dns_verifier.py:233-255 | each failed domain with an error callback gets exactly one invocation; no other domain gets any |
| VerificationProperties.ErrorCallsMembers | services/domain_service/dns_verifier.py:233-255 | an invocation is dispatched iff it is a failed domain's error callback with the domain and its error message |
| VerificationProperties.CycleEntries | services/domain_service/dns_verifier.py:162-215 | in a cycle, a domain is checked iff it is eligible; an eligible entry becomes the attempted entry, any other the expiry-checked entry |
| VerificationProperties.CycleParts | services/domain_service/dns_verifier.py:162-215 | a cycle is the collection, then processing of the due domains, then the completion calls followed by the error calls |
| VerificationProperties.CycleNotifiesOnce | services/domain_service/dns_verifier.py:169-255 | a cycle invokes at most one callback per domain, and only for an entry that was PENDING, was checked, and left PENDING in that cycle |
| VerificationProperties.CycleCalls | services/domain_service/dns_verifier.py:185-255 | a cycle's invocations are exactly the completion callbacks of confirmed due domains and the error callbacks of due, unconfirmed domains past their limit |
| VerificationProperties.CallsOfAttempts | services/domain_service/dns_verifier.py:190-255 | the completion and error invocations of a batch of attempts are characterised by each domain's own answer |
| VerificationProperties.CycleStatusMonotonic | services/domain_service/dns_verifier.py:162-215 | a cycle moves a status only from PENDING, to VERIFIED or EXPIRED; a non-pending entry is left exactly as it was |
| VerificationProperties.EntryAdvances | services/domain_service/dns_verifier.py:36-47 | neither the expiry check nor an attempt moves a status backwards; a non-pending entry is never eligible |
| VerificationProperties.ExpiryWhileCollectingIsSilent | services/domain_service/dns_verifier.py:171-172 | a pending entry found past its limit while collecting becomes EXPIRED, is not checked, and gets no callback |
| VerificationProperties.RaisedIsRefusal | services/domain_service/dns_verifier.py:257-263 | a provider exception counts as a negative answer: the attempt is recorded the same way, and a failure carries the fixed text "Domain verification failed", not the exception's message |
| VerificationProperties.PendingAmongPositive | services/domain_service/dns_verifier.py:145-149 | the count of pending entries is positive iff some listed entry is pending |
| VerificationProperties.RearmIff | services/domain_service/dns_verifier.py:145-155 | another cycle is scheduled iff shutdown is not set and some entry is PENDING |
| VerificationProperties.ShutdownCallsFacts | services/domain_service/dns_verifier.py:277-283 | shutdown invokes exactly the error callbacks of pending entries, each with the one-argument shutdown message |
| VerificationProperties.Step | services/domain_service/dns_verifier.py:75-215 | a registration or a cycle keeps the registry well formed |
| VerificationProperties.Run | services/domain_service/dns_verifier.py:75-215 | any sequence of registrations and cycles keeps the registry well formed |
| VerificationProperties.StepBudget | services/domain_service/dns_verifier.py:162-255 | the invocations of one registration or cycle for a domain, plus what it has left to receive afterwards (one while absent or PENDING, none otherwise), never exceed what it had left before |
| VerificationProperties.NotifiedAtMostOnce | services/domain_service/dns_verifier.py:162-255 | over any sequence of registrations and cycles, a domain's callbacks fire at most once, and never once it has left PENDING |
| Provisioning.RunHandler | services/domain_service/domain_service.py:114-123 | no contract of its own; specified by ProvisioningProperties.HandlersBehave |
| Provisioning.CreateSubdomainFlow | services/domain_service/domain_service.py:125-146 | no contract; specified by ProvisioningProperties.CreateSubdomainCreates, CreateSubdomainCreatesOnlyWhenAbsent, CreateSubdomainPending and RegisterAlreadyExists |
| Provisioning.RegisterDomainFlow | services/domain_service/domain_service.py:54-79 | no contract; specified by ProvisioningProperties.RegisterProbeFailure, RegisterApexOnly, RegisterCreates, RegisterCreatesFlow, RegisterCreatesOnlyWhenAbsent and RegisterPendingIsTracked |
| Provisioning.DeleteDomainFlow | services/domain_service/domain_service.py:90-111 | no contract; specified by ProvisioningProperties.DeleteAttemptsBoth and DeleteApexOnly |
| Provisioning.VerifyDomainFlow | services/domain_service/domain_service.py:82-88 | no contract; specified by ProvisioningProperties.VerifyPassesThrough |
| Provisioning.RegisterOutcome | services/domain_service/domain_service.py:76-79 | an error passes through; otherwise the result names the domain with status "verified" iff the creation step answered true |
| Provisioning.DomainService.constructor | services/domain_service/domain_service.py:44-52 | the service owns a fresh, empty verifier and shares one wire between its two ports |
| Provisioning.DomainService.CreateSubdomain | services/domain_service/domain_service.py:125-146 | the port calls, the result and the verifier's new registry are those of the `_create_subdomain` flow; shutdown is untouched, and the verifier's timer becomes armed exactly when it was armed already or a new "sub.apex" entry was registered while shutdown is not set |
| Provisioning.DomainService.RegisterDomain | services/domain_service/domain_service.py:54-79 | the port calls, the result and the verifier's new registry are those of the `register_domain` flow; shutdown is untouched, and the verifier's timer becomes armed exactly when it was armed already or a new entry for the domain was registered while shutdown is not set |
| Provisioning.DomainService.DeleteDomain | services/domain_service/domain_service.py:90-111 | the port calls and the result are those of the `delete_domain` flow; the verifier is untouched |
| Provisioning.DomainService.VerifyDomain | services/domain_service/domain_service.py:82-88 | the port call and the result are those of the `verify_domain` flow |
| ProvisioningProperties.RegisterProbeFailure | services/domain_service/domain_service.py:64-68 | if the probe raises, the result is DomainAccessError with its message, and after the probe nothing is called, created or registered |
| ProvisioningProperties.RegisterApexOnly | services/domain_service/domain_service.py:62-74 | a name with no subdomain is probed with "@" and then raises NotImplementedError; nothing is created or registered |
| ProvisioningProperties.RegisterAlreadyExists | services/domain_service/domain_service.py:62-146 | if the DNS provider has records, or else the email provider has the subdomain, the result is "verified" without creating or registering; the DNS check short-circuits the email check |
| ProvisioningProperties.CreateSubdomainCreates | services/domain_service/domain_service.py:132-143 | when neither provider has the subdomain: the four calls in order, the created records pushed unchanged; a failed push raises SubdomainCreationError and registers nothing; a successful one registers "sub.apex" |
| ProvisioningProperties.CreateSubdomainCreatesOnlyWhenAbsent | services/domain_service/domain_service.py:132-143 | for every answer: something is created only after both providers said it does not exist, and the registry changes only after a successful push, by that one registration |
| ProvisioningProperties.RegisterCreates | services/domain_service/domain_service.py:62-143 | for a fresh subdomain: the five calls in order; a failed push raises SubdomainCreationError; after a successful one the name is registered and the result is "pending" iff the verifier accepted it, else "verified" |
| ProvisioningProperties.RegisterCreatesFlow | services/domain_service/domain_service.py:62-79 | with a subdomain, `register_domain` is the probe followed by `_create_subdomain` on sub and apex, whose dotted join is the given name |
| ProvisioningProperties.RegisterCreatesOnlyWhenAbsent | services/domain_service/domain_service.py:54-143 | for every answer: something is created only for a name with at least three labels after both providers said it is absent, and the registry changes only by registering that name after a successful push |
| ProvisioningProperties.RegisterPendingIsTracked | services/domain_service/domain_service.py:76-143 | a "pending" result leaves the domain registered, not VERIFIED or FAILED, and its status reads "pending" |
| ProvisioningProperties.CreateSubdomainPending | services/domain_service/domain_service.py:137-143 | `_create_subdomain` returns false only when the verifier accepted the registration |
| ProvisioningProperties.DeleteAttemptsBoth | services/domain_service/domain_service.py:94-111 | both deletions are attempted in order whatever the first answered; the result is true iff both succeeded; only an exception stops early |
| ProvisioningProperties.DeleteApexOnly | services/domain_service/domain_service.py:94-109 | a name without a subdomain raises NotImplementedError with no call |
| ProvisioningProperties.VerifyPassesThrough | services/domain_service/domain_service.py:82-88 | one verify call to the email provider, whose answer is returned unchanged |
| ProvisioningProperties.HandlersBehave | services/domain_service/domain_service.py:114-123 | the completion handler runs the hook iff one was given and ignores its domain; the error handler does nothing; the one-argument shutdown call raises TypeError |
| Ports.DnsPort.CreateRecords | adapters/dns/dns_porkbun.py:7-8 | one create call on the wire, answered by the oracle |
| Ports.DnsPort.DeleteRecords | adapters/dns/dns_porkbun.py:10-11 | one delete call on the wire, answered by the oracle |
| Ports.DnsPort.ExistsRecords | adapters/dns/dns_porkbun.py:13-14 | one existence call on the wire, answered by the oracle |
| Ports.EmailDeliveryPort.CreateSubdomain | adapters/email_delivery/email_delivery_mailgun.py:12-13 | one subdomain-creation call, answered with a record list or an exception |
| Ports.EmailDeliveryPort.DeleteSubdomain | adapters/email_delivery/email_delivery_mailgun.py:15-16 | one subdomain-deletion call, answered with a flag or an exception |
| Ports.EmailDeliveryPort.SubdomainExists | adapters/email_delivery/email_delivery_mailgun.py:18-19 | one existence call, answered with a flag or an exception |
| Ports.EmailDeliveryPort.VerifyDomain | adapters/email_delivery/email_delivery_mailgun.py:21-22 | one verify call, answered with a flag or an exception |
| Ports.EmailDeliveryPort.CreateUser | adapters/email_delivery/email_delivery_mailgun.py:24-25 | one user-creation call, answered with a password or an exception |
| Ports.EmailDeliveryPort.DeleteUser | adapters/email_delivery/email_delivery_mailgun.py:27-28 | one user-deletion call, answered with a flag or an exception |
| Ports.AccountStore.SaveAccount | storage/email_account_storage.py:28-39 | one save call, answered with the new id or an exception |
| Ports.AccountStore.GetInboxId | storage/email_account_storage.py:47-60 | one lookup, answered with an optional id or an exception |
| Ports.AccountStore.GetEmailAddress | storage/email_account_storage.py:44-45 | one lookup, answered with an optional address or an exception |
| Inboxes.CreateUserEmailFlow | services/inbox_service/inbox_service.py:87-94 | no contract; specified by Inboxes.CreateInboxEmptyPassword and Inboxes.CreateInboxSaves |
| Inboxes.CreateInboxFlow | services/inbox_service/inbox_service.py:55-69 | no contract; specified by Inboxes.CreateInboxUnparsable, Inboxes.CreateInboxChecksFirst and Inboxes.CreateInboxSaves |
| Inboxes.GetInboxFlow | services/inbox_service/inbox_service.py:71-72 | no contract; specified by Inboxes.GetInboxPassesThrough |
| Inboxes.DeleteInboxFlow | services/inbox_service/inbox_service.py:77-84 | no contract; specified by Inboxes.DeleteInboxDelegates |
| Inboxes.CreateUserEmail | services/inbox_service/inbox_service.py:87-94 | the port calls and the result are those of the `_create_user_email` flow |
| Inboxes.InboxService.CreateInbox | services/inbox_service/inbox_service.py:55-69 | the port calls and the result are those of the `create_inbox` flow |
| Inboxes.InboxService.GetInbox | services/inbox_service/inbox_service.py:71-72 | the port call and the result are those of the `get_inbox` flow |
| Inboxes.InboxService.DeleteInbox | services/inbox_service/inbox_service.py:77-84 | the port calls and the result are those of the `delete_inbox` flow |
| Inboxes.CreateInboxUnparsable | services/inbox_service/inbox_service.py:56 | an address without "@" raises ValueError before any call |
| Inboxes.CreateInboxChecksFirst | services/inbox_service/inbox_service.py:56-61 | the first call asks the email provider about the split of the address's domain; if it is absent, ValueError is raised and nothing else is called |
| Inboxes.CreateInboxEmptyPassword | services/inbox_service/inbox_service.py:88-90 | an empty password raises UserCreationError and no account is saved |
| Inboxes.CreateInboxSaves | services/inbox_service/inbox_service.py:55-94 | an account is saved, or a result is returned, only after the subdomain check and a non-empty password; it is saved once, under exactly the given address; success carries that save's id and "inbox created" |
| Inboxes.GetInboxPassesThrough | services/inbox_service/inbox_service.py:71-72 | one lookup, whose answer is returned unchanged |
| Inboxes.DeleteInboxDelegates | services/inbox_service/inbox_service.py:77-84 | the user of the stored address is deleted and the provider's answer returned; with no stored address, AttributeError and no deletion |
| Porkbun.PorkbunClient.CreateDnsRecord | adapters/dns/porkbun_wrapper/client.py:32-59 | one create request logged; success as the reply says |
| Porkbun.PorkbunClient.GetDnsRecords | adapters/dns/porkbun_wrapper/client.py:61-83 | one retrieve request logged; the reply's record list |
| Porkbun.PorkbunClient.DeleteDnsRecord | adapters/dns/porkbun_wrapper/client.py:85-100 | one delete-by-id request logged; success as the reply says |
| Porkbun.RStrip | adapters/dns/porkbun_wrapper/domain_management.py:80 | the result is a prefix not ending in the character, and only that character was removed |
| Porkbun.ExtractSubdomain | adapters/dns/porkbun_wrapper/domain_management.py:74-80 | a name without the domain suffix is returned unchanged; an empty domain gives ""; otherwise the result is the name with the domain cut off and then only trailing dots removed, and it never ends in "." |
| Porkbun.ExtractSubdomainOfQualified | adapters/dns/porkbun_wrapper/domain_management.py:74-80 | stripping the domain from sub + "." + domain gives back sub |
| Porkbun.CreateRequestsAt | adapters/dns/porkbun_wrapper/domain_management.py:18-29 | request i pushes record i under its extracted name, with its type, value and priority |
| Porkbun.SuccessesAll | adapters/dns/porkbun_wrapper/domain_management.py:30-36 | every call succeeded iff the success count equals the record count |
| Porkbun.MatchingMembers | adapters/dns/porkbun_wrapper/domain_management.py:47-50 | a fetched record is targeted iff its name ends with the suffix |
| Porkbun.DeleteRequestsAt | adapters/dns/porkbun_wrapper/domain_management.py:50-55 | the i-th deletion is by the i-th target's id |
| Porkbun.AnyNamed | adapters/dns/porkbun_wrapper/domain_management.py:66-72 | true iff some record has exactly the name |
| Porkbun.CreateDnsRecords | adapters/dns/porkbun_wrapper/domain_management.py:10-36 | one request per record, in order, with no early exit; true iff every one succeeded (so true for none) |
| Porkbun.DeleteIfMatching | adapters/dns/porkbun_wrapper/domain_management.py:47-56 | one loop step: adds a deletion iff the record matches, and keeps the all-succeeded flag in step |
| Porkbun.DeleteDnsRecords | adapters/dns/porkbun_wrapper/domain_management.py:38-58 | retrieves once, then deletes exactly the records whose name ends with sub + "." + domain, in order; true iff every deletion succeeded |
| Porkbun.ExistsDnsRecords | adapters/dns/porkbun_wrapper/domain_management.py:60-72 | retrieves once; true iff some record's name is exactly sub + "." + domain |
| Mailgun.ParseType | adapters/email_delivery/mailgun_wrapper/domain.py:146 | a type is accepted iff it is MX, TXT or CNAME |
| Mailgun.ParseRecord | adapters/email_delivery/mailgun_wrapper/domain.py:136-146 | a record without type or value is dropped; an unknown type raises a validation error; otherwise the fields are copied, with name "" and priority None when missing |
| Mailgun.Kept | adapters/email_delivery/mailgun_wrapper/domain.py:148-155 | the parsed list is never longer than the input |
| Mailgun.KeptMembers | adapters/email_delivery/mailgun_wrapper/domain.py:148-155 | the parsed records are exactly the parses of the complete inputs, and nothing is dropped when all are complete |
| Mailgun.ParseAll | adapters/email_delivery/mailgun_wrapper/domain.py:135-155 | no contract; specified by Mailgun.KeptMembers (what is kept) and ParseRecord (which record is refused) |
| Mailgun.ParseDnsRecords | adapters/email_delivery/mailgun_wrapper/domain.py:135-155 | the parsing loop gives what the parsing function defines, never more records than it was given |
| Mailgun.RenamedFacts | adapters/email_delivery/mailgun_wrapper/domain.py:41-43 | renaming changes only names: an empty name becomes the subdomain, others stay; with a non-empty subdomain no record is nameless |
| Mailgun.RenameEmpty | adapters/email_delivery/mailgun_wrapper/domain.py:41-43 | renames the records in place, leaving the array equal to the renamed list |
| Mailgun.CreateResult | adapters/email_delivery/mailgun_wrapper/domain.py:29-45 | no contract; specified by Mailgun.CreateResultShape |
| Mailgun.CreateResultShape | adapters/email_delivery/mailgun_wrapper/domain.py:29-45 | the result is the parsed receiving records then the parsed sending records, renamed |
| Mailgun.CreateSubdomainOnEds | adapters/email_delivery/mailgun_wrapper/domain.py:11-45 | one create request for sub.domain; the result follows the reply as the creation-result function defines |
| Mailgun.DeleteSubdomainOnEds | adapters/email_delivery/mailgun_wrapper/domain.py:48-57 | one delete request for sub.domain; true iff the status is 200 |
| Mailgun.ExistsAnswer | adapters/email_delivery/mailgun_wrapper/domain.py:66-71 | 200 gives true, 404 gives false, any other status raises |
| Mailgun.SubdomainExistsOnEds | adapters/email_delivery/mailgun_wrapper/domain.py:59-71 | one request for sub.domain, answered by the status mapping |
| Mailgun.InvalidCountZero | adapters/email_delivery/mailgun_wrapper/domain.py:122-131 | no record is counted as invalid iff every record's validity is "valid" |
| Mailgun.CountInvalid | adapters/email_delivery/mailgun_wrapper/domain.py:122-131 | the counting loop gives the invalid count, which is zero iff every record is valid |
| Mailgun.VerifyResult | adapters/email_delivery/mailgun_wrapper/domain.py:91-131 | no contract; specified by Mailgun.VerifyResultMeaning |
| Mailgun.VerifyResultMeaning | adapters/email_delivery/mailgun_wrapper/domain.py:91-131 | a non-200 status gives false; on 200 the domain is verified iff every sending and receiving record is valid (true for none) |
| Mailgun.VerifyDomainOnEds | adapters/email_delivery/mailgun_wrapper/domain.py:91-131 | one verify request; the result follows the reply as the verification-result function defines |
| Storage.GetTable | storage/storage_manager.py:75-79 | ValueError "Table not found" iff the name is unknown; otherwise that table |
| Storage.Filtered | storage/storage_manager.py:67-70 | never more rows than the table; the content is specified by Storage.FilteredSubsequence and Storage.FilteredMembers |
| Storage.FilteredSubsequence | storage/storage_manager.py:59-72 | the matching entries are a subsequence of the table, in table order |
| Storage.FilteredMembers | storage/storage_manager.py:67-70 | an entry is kept iff it is in the table and its column is present and equal to the value |
| Storage.FilteredAll | storage/storage_manager.py:67-70 | when every entry matches, all are returned |
| Storage.FilteredNone | storage/storage_manager.py:67-70 | when no entry matches, none are returned |
| Storage.StorageManager.CreateTable | storage/storage_manager.py:18-40 | a registered name gives false with nothing changed; for a new name a built table is registered, giving true; a build error propagates with the name unregistered |
| Storage.StorageManager.InsertEntry | storage/storage_manager.py:43-50 | an unknown table gives None with nothing changed; otherwise only that table gets the validated row, which is returned |
| Storage.StorageManager.ReadEntries | storage/storage_manager.py:53-56 | ValueError iff the table is unknown; otherwise its rows |
| Storage.StorageManager.GetEntry | storage/storage_manager.py:59-72 | ValueError iff the table is unknown; otherwise, in order, exactly the matching rows |
| ServiceProvider.GetStep | services/email_service/email_service_provider.py:21-30 | no contract; specified by ServiceProvider.GetStepEffect, GetStepValid and GetStepTwice |
| ServiceProvider.GetStepEffect | services/email_service/email_service_provider.py:21-30 | the factory runs iff the id is not cached; afterwards the id is cached, the result is its entry, and every other entry is unchanged |
| ServiceProvider.GetStepValid | services/email_service/email_service_provider.py:21-30 | `get` keeps the cache's invariant: a key exactly when built, each entry the one built for it |
| ServiceProvider.GetStepTwice | services/email_service/email_service_provider.py:21-30 | a second `get` of the same id returns the same service and changes nothing |
| ServiceProvider.GetAllBuildsOnce | services/email_service/email_service_provider.py:21-30 | over any sequence of `get` calls the factory builds each id at most once, only for requested ids, and every result is the cached entry |
| ServiceProvider.EmailServiceProvider.Build | services/email_service/email_service_provider.py:25-28 | the factory call is logged and builds a new service for the id |
| ServiceProvider.EmailServiceProvider.Get | services/email_service/email_service_provider.py:21-30 | the result and the new cache are those of the `get` step |
| ServiceProvider.RepeatedGet | services/email_service/email_service_provider.py:21-30 | two `get` calls with one id return the same service, and the factory runs at most once between them |
| CsvStorage.TypeName | storage/writer/csv_storage.py:59-60 | a column type's `__name__` is one of int, float, str, bool, datetime |
| CsvStorage.ResolveType | storage/writer/csv_storage.py:158-166 | the five known names map to their types; any other name maps to str |
| CsvStorage.ResolveTypeName | storage/writer/csv_storage.py:158-166 | resolving a type's name gives back the type |
| CsvStorage.LStrip | storage/writer/csv_storage.py:45 | the result does not start with whitespace; what it keeps is specified by CsvStorage.LStripRemovesOnlySpace |
| CsvStorage.LStripRemovesOnlySpace | storage/writer/csv_storage.py:45 | the result of `lstrip()` is a suffix of the input, and everything cut off is whitespace |
| CsvStorage.RStripSpace | storage/writer/csv_storage.py:45 | the result does not end with whitespace; what it keeps is specified by CsvStorage.RStripRemovesOnlySpace |
| CsvStorage.RStripRemovesOnlySpace | storage/writer/csv_storage.py:45 | the result of `rstrip()` is a prefix of the input, and everything cut off is whitespace |
| CsvStorage.Strip | storage/writer/csv_storage.py:45 | the stripped text neither starts nor ends with whitespace and is never longer than the input |
| CsvStorage.StripRemovesOnlySpace | storage/writer/csv_storage.py:45 | the result of `strip()` is a contiguous piece of the input, and everything cut off before and after it is whitespace |
| CsvStorage.ParseInt | storage/writer/csv_storage.py:147-148 | the only failure of `int()` is the invalid-literal ValueError |
| CsvStorage.ParseIntDigits | storage/writer/csv_storage.py:147-148 | an optionally signed run of digits parses to its value |
| CsvStorage.ParseIntText | storage/writer/csv_storage.py:143-148 | `int(str(n)) == n` for every integer |
| CsvStorage.Serialize | storage/writer/csv_storage.py:140-143 | no contract; specified by CsvStorage.SerializeRoundTrip and CsvStorage.StrIdentity |
| CsvStorage.Deserialize | storage/writer/csv_storage.py:146-155 | no contract; specified by CsvStorage.SerializeRoundTrip and CsvStorage.StrIdentity |
| CsvStorage.SerializeRoundTrip | storage/writer/csv_storage.py:140-155 | deserialising a serialised int, str or bool with its own type gives it back (bool through "true"/"1"/"yes") |
| CsvStorage.StrIdentity | storage/writer/csv_storage.py:146-155 | for str (and any unknown type name) both directions are the identity |
| CsvStorage.SidecarLines | storage/writer/csv_storage.py:72-74 | one sidecar line per column, in schema order |
| CsvStorage.ParseSidecarForCreate | storage/writer/csv_storage.py:42-49 | the sidecar parse of `create_table` fails only by a line without ":" |
| CsvStorage.ParseSidecarForRead | storage/writer/csv_storage.py:102-106 | the sidecar parse of `read_entries` fails only by a line with too few or too many ":" |
| CsvStorage.SidecarRoundTrip | storage/writer/csv_storage.py:42-60 | for column names without ":" or surrounding whitespace, both parses of the written sidecar give back the schema's types |
| CsvStorage.DecodeRows | storage/writer/csv_storage.py:108-116 | no contract; specified by CsvStorage.DecodeRowsSticky, CsvStorage.DecodeRowOfEntry and CsvStorage.InsertThenRead |
| CsvStorage.DecodeRowsSticky | storage/writer/csv_storage.py:111-115 | the first row that fails to convert decides the error of the whole read |
| CsvStorage.DecodeRowOfEntry | storage/writer/csv_storage.py:86-113 | a row written for an entry that fits the schema reads back as that entry |
| CsvStorage.PathJoin | storage/writer/csv_storage.py:21-22 | no contract; specified by CsvStorage.PathJoinShape |
| CsvStorage.PathJoinShape | storage/writer/csv_storage.py:21-22 | the path ends with the name; an absolute name discards the folder; otherwise the path starts with the folder and a "/" stands right before the name, and an empty folder gives the name itself |
| CsvStorage.CreateTableSpec | storage/writer/csv_storage.py:16-74 | no contract; specified by CsvStorage.CreateTableReady, CreateTableFiles, CreateTableBranches and CreateTableTwice |
| CsvStorage.InsertSpec | storage/writer/csv_storage.py:76-87 | no contract; specified by CsvStorage.InsertThenRead |
| CsvStorage.ReadSpec | storage/writer/csv_storage.py:89-116 | no contract; specified by CsvStorage.ReadSpecOfFile and CsvStorage.InsertThenRead |
| CsvStorage.InsertThenRead | storage/writer/csv_storage.py:76-116 | on a table created with a schema, inserting a fitting entry succeeds and the next read returns the earlier rows followed by that entry |
| CsvStorage.ReadSpecOfFile | storage/writer/csv_storage.py:94-116 | with a file and a parsable sidecar, a read is the decoding of the file's rows under the sidecar's types |
| CsvStorage.CreateTableReady | storage/writer/csv_storage.py:16-74 | `create_table` fails only with ValueError; on success the file has the schema's header and the sidecar parses to the schema's types |
| CsvStorage.CreateTableFiles | storage/writer/csv_storage.py:16-74 | on success the file carries the schema's header and the sidecar is either freshly written or already agrees |
| CsvStorage.CreateTableBranches | storage/writer/csv_storage.py:24-74 | a new file gets a header and a fresh sidecar; an empty header is rewritten; a different header raises and changes nothing; a matching header with a sidecar succeeds iff the sidecar agrees, and changes nothing |
| CsvStorage.CreateTableTwice | storage/writer/csv_storage.py:16-74 | creating a table again with the same schema succeeds and changes nothing |
| CsvStorage.Disk.CreateCsvFile | storage/writer/csv_storage.py:123-127 | the path holds a file with the given header and no rows |
| CsvStorage.Disk.WriteSidecar | storage/writer/csv_storage.py:72-74 | the sidecar path holds the given lines |
| CsvStorage.Disk.AppendRow | storage/writer/csv_storage.py:85-87 | the file at the path gets one more row at its end |
| CsvStorage.SchemaLines | storage/writer/csv_storage.py:72-74 | the writing loop produces the sidecar lines of the schema |
| CsvStorage.ReadExistingSchema | storage/writer/csv_storage.py:42-49 | the reading loop of `create_table` gives what its sidecar parse defines |
| CsvStorage.StickyCreate | storage/writer/csv_storage.py:43-49 | the first unparsable line decides the error of `create_table`'s sidecar parse |
| CsvStorage.StickyRead | storage/writer/csv_storage.py:103-106 | the first unparsable line decides the error of `read_entries`' sidecar parse |
| CsvStorage.ReadSchema | storage/writer/csv_storage.py:102-106 | the reading loop of `read_entries` gives what its sidecar parse defines |
| CsvStorage.ReadRows | storage/writer/csv_storage.py:108-116 | the row loop gives what the row decoding defines |
| CsvStorage.CsvStore.CreateTable | storage/writer/csv_storage.py:16-74 | the disk changes as the create-table function says; the table is registered under its path exactly on success |
| CsvStorage.CsvStore.InsertEntry | storage/writer/csv_storage.py:76-87 | KeyError for an unregistered table, FileNotFoundError for a missing file, else one serialised row appended |
| CsvStorage.CsvStore.ReadEntries | storage/writer/csv_storage.py:89-116 | KeyError, FileNotFoundError, a bad sidecar's ValueError, or the decoded rows, as the read function defines |

## Behaviour of the code worth knowing

The model follows the code as written, including the places where its behaviour is not what its names
or comments suggest:

- Expiry is measured from `last_attempt`, not from `created_at`
  (services/domain_service/dns_verifier.py:42). A domain that is polled regularly never expires.
- A pending entry found expired while collecting (services/domain_service/dns_verifier.py:171) becomes
  EXPIRED with no error callback. The error callback fires only when the clock reading after a failed
  check is already past the limit (lines 202-205).
- Re-adding an EXPIRED domain is accepted and replaces its callbacks. Only VERIFIED and FAILED are
  refused (services/domain_service/dns_verifier.py:86). The entry stays EXPIRED, so it is never checked
  again.
- Removing a domain and then registering it again gives it a fresh PENDING entry, which can be notified again. So `VerificationProperties.NotifiedAtMostOnce` is stated over runs of registrations and cycles.
- FAILED is never assigned anywhere, so the FAILED cases of the model never occur from a fresh
  registry.
- `_verify_dns_domain` catches every exception from the provider and answers false. So the `except`
  around it (services/domain_service/dns_verifier.py:206) is unreachable, and a provider exception
  counts as a negative answer.
- `shutdown` calls each error callback with one argument where two are expected
  (services/domain_service/dns_verifier.py:281). With the domain service's handler this raises
  TypeError, which shutdown catches.
- `create_subdomain_on_eds` never looks at the status code of the creation request. A missing record
  list in the reply raises.
- The sidecar parse of `read_entries` is stricter than the one of `create_table`: it does not skip
  blank lines, and it refuses a second ":".
- `insert_entry` writes the cells in the entry's own key order, not in header order.
- `_parse_dns_records` lets a record type outside MX/TXT/CNAME raise a validation error, which
  propagates out of the adapter.
- Because expiry counts from the last attempt, a domain that keeps getting a negative answer stays
  PENDING and reaches attempt 1752 after about 1751 × 300 s, roughly six days. From then on
  `get_next_delay` raises OverflowError (services/domain_service/dns_verifier.py:52) inside the
  collection loop of `_verify_domains` (line 176). `_verification_cycle` catches it and re-arms the
  timer (lines 156-160), so every later cycle aborts before any domain is checked. The model's
  integer delay does not reproduce this (see Verification.NextDelay under "## Left out").

## Left out

- Threads, timers, locks, `Event` and `time.sleep` in the verifier (services/domain_service/dns_verifier.py:65-67, 120-137, 265-275): concurrency. A cycle is one method call, and the pending timer is an `armed` flag.
- `shutdown`'s timeout wait and sleep: wall-clock waiting. Callback exceptions are not modelled as aborting anything, because the source catches and logs them (dns_verifier.py:226-231, 246-253, 282-283).
- `datetime.now()` is the `now` parameter plus the `clockAfter` reading in each provider answer.
- Verification.NextDelay: the integer form `min(30·3^(a-1) div 2^(a-1), 300)` of the float formula. It equals the float result for every attempt up to 1751; from attempt 1752 on, `1.5 ** k` raises OverflowError in the source, and the model does not reproduce that.
- Logging everywhere: it has no effect on state.
- The HTTP clients and the Mailgun SDK (adapters/dns/porkbun_wrapper/client.py, adapters/email_delivery/mailgun_wrapper/client.py, email.py, user.py, webhook.py): network. They are replaced by request logs with oracle replies. JSON shapes beyond the record lists and status codes are not modelled.
- `get_domains_on_eds` and `get_subdomains_on_eds` (domain.py:73-89): the modelled core never calls them.
- `list_inboxes` (services/inbox_service/inbox_service.py:74-75): a stub with no body.
- storage/table.py (pydantic validation, coercion, uuid ids): building a table and validating an entry are inputs of the storage-manager operations.
- The internals of email_account_storage.py: it is a port here, and the model lets any answer come back. `get_inbox_id` (storage/email_account_storage.py:47-60) looks the address up through the storage manager's `get_entry`; `get_email_address` and `get_inboxes` are stubs in the source.
- `build_email_service` and the email service itself: the factory is abstracted to a numbered build.
- Routers, the webhook's HMAC check, main.py, demo.py, the password generator and the compose/`__init__` wiring: web framework, cryptography, randomness and composition.
- The text of error messages is kept where the code builds it from names. Python reprs of dictionaries and lists inside messages are not modelled.
- CsvStorage.ParseInt: Python's `int()` also accepts underscores between digits and non-ASCII digits and whitespace; the model accepts an optional sign and ASCII digits surrounded by ASCII whitespace.
- CsvStorage.Strip: strips the ASCII characters `str.isspace()` accepts (tab to carriage return, 0x1C-0x1F and the space) only; the non-ASCII whitespace Python also strips, such as U+0085, U+00A0 and U+2028, is kept.
- Float and datetime cells (csv_storage.py:149-154): floating point and date parsing. They are carried as text.
- The CSV format itself (quoting, ragged rows, `DictReader`'s `restkey`) and the `os.path.join` / `os.makedirs` path handling: file I/O. A file is a header plus rows of cells. `os.path.join` is modelled for POSIX paths; `os.makedirs` is not modelled.
- Storage.StorageManager.InsertEntry: the stored rows are whatever validation produced; the per-table uuid and primary-key handling of storage/table.py are not modelled.
