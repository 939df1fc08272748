/**
 * Properties of the provisioning flows of
 * services/domain_service/domain_service.py: which port calls happen, in
 * which order and under which answers, and what the caller gets back.
 */
module ProvisioningProperties {
  import opened Common
  import opened DomainUtils
  import opened Verification
  import opened Ports
  import opened Provisioning

  /** A call that creates something on a provider. */
  predicate Creates(c: Call)
  {
    c.DnsCreate? || c.EdsCreateSubdomain?
  }

  predicate NoCreation(ex: seq<Exchange>)
  {
    forall e | e in ex :: !Creates(e.call)
  }

  /** If the access probe raises, the caller gets DomainAccessError with its message, and nothing else is asked or changed. */
  lemma RegisterProbeFailure(domain: string, hook: Option<Hook>, now: int, k: nat, answer: nat -> Answer, reg: Registry<Handler>)
    requires answer(k).raised.Some?
    ensures var f := RegisterDomainFlow(domain, hook, now, k, answer, reg);
            var (sub, apex) := SplitDomain(domain);
            && Calls(f.exchanges) == [DnsExists(apex, ProbeName(sub))]
            && f.result == Err(DomainAccessError(answer(k).raised.value))
            && f.registry == reg && NoCreation(f.exchanges)
  {
  }

  /**
   * A name whose split gives no subdomain (fewer than three labels, or an
   * empty first label) is probed with "@", then NotImplementedError is
   * raised, with nothing created and nothing registered; for fewer than
   * three labels the probe is on the whole name.
   */
  lemma RegisterApexOnly(domain: string, hook: Option<Hook>, now: int, k: nat, answer: nat -> Answer, reg: Registry<Handler>)
    requires SplitDomain(domain).0 == "" && answer(k).raised.None?
    ensures var f := RegisterDomainFlow(domain, hook, now, k, answer, reg);
            && Calls(f.exchanges) == [DnsExists(SplitDomain(domain).1, "@")]
            && (LabelCount(domain) < 3 ==> SplitDomain(domain).1 == domain)
            && f.result.Err? && f.result.error.NotImplementedError?
            && f.registry == reg && NoCreation(f.exchanges)
  {
  }

  /**
   * When the DNS provider already has records for the subdomain the result
   * is "verified" and the email provider is not even asked; when only the
   * email provider has the subdomain the result is also "verified". Neither
   * case creates or registers anything.
   */
  lemma RegisterAlreadyExists(domain: string, hook: Option<Hook>, now: int, k: nat, answer: nat -> Answer, reg: Registry<Handler>)
    requires SplitDomain(domain).0 != "" && answer(k).raised.None?
    requires AsFlag(answer(k + 1)) == Ok(true) || (AsFlag(answer(k + 1)) == Ok(false) && AsFlag(answer(k + 2)) == Ok(true))
    ensures var f := RegisterDomainFlow(domain, hook, now, k, answer, reg);
            var (sub, apex) := SplitDomain(domain);
            && f.result == Ok(RegisterResult(domain, VerifiedText))
            && f.registry == reg && NoCreation(f.exchanges)
            && Calls(f.exchanges) ==
                 (if AsFlag(answer(k + 1)) == Ok(true) then [DnsExists(apex, sub), DnsExists(apex, sub)]
                  else [DnsExists(apex, sub), DnsExists(apex, sub), EdsSubdomainExists(sub, apex)])
  {
  }

  /**
   * `_create_subdomain` when neither provider has the subdomain: the four
   * calls in order, the records the creation returned pushed unchanged, and
   * the registry changed only by registering "sub.apex" after a successful
   * push.
   */
  lemma CreateSubdomainCreates(sub: string, apex: string, hook: Option<Hook>, now: int, k: nat, answer: nat -> Answer,
                               reg: Registry<Handler>, records: seq<DnsRecord>)
    requires AsFlag(answer(k)) == Ok(false) && AsFlag(answer(k + 1)) == Ok(false)
    requires AsRecords(answer(k + 2)) == Ok(records)
    ensures var f := CreateSubdomainFlow(sub, apex, hook, now, k, answer, reg);
            && Calls(f.exchanges) ==
                 [DnsExists(apex, sub), EdsSubdomainExists(sub, apex), EdsCreateSubdomain(sub, apex), DnsCreate(apex, sub, records)]
            && (AsFlag(answer(k + 3)) == Ok(false) ==>
                  f.result == Err(SubdomainCreationError(CreationFailedMessage(sub, apex))) && f.registry == reg)
            && (AsFlag(answer(k + 3)) == Ok(true) ==>
                  var (accepted, reg') := Register(reg, Dotted(sub, apex), Some(OnVerified(hook)), Some(OnError), now);
                  f.registry == reg' && f.result == Ok(!accepted))
  {
  }

  /**
   * `_create_subdomain` over all answers: it creates something only after
   * both providers said, without raising, that the subdomain does not
   * exist, and it changes the registry only after four calls of which the
   * last, the push of the records, succeeded, by registering "sub.apex".
   */
  lemma CreateSubdomainCreatesOnlyWhenAbsent(sub: string, apex: string, hook: Option<Hook>, now: int, k: nat,
                                             answer: nat -> Answer, reg: Registry<Handler>)
    ensures var f := CreateSubdomainFlow(sub, apex, hook, now, k, answer, reg);
            && (!NoCreation(f.exchanges) ==> AsFlag(answer(k)) == Ok(false) && AsFlag(answer(k + 1)) == Ok(false))
            && (f.registry != reg ==>
                  && |f.exchanges| == 4 && AsFlag(answer(k + 3)) == Ok(true)
                  && f.registry == Register(reg, Dotted(sub, apex), Some(OnVerified(hook)), Some(OnError), now).1)
  {
  }

  /**
   * When neither provider has the subdomain: it is created on the email
   * provider, exactly the records that call returned are pushed to the DNS
   * provider, and only if that push succeeds is the full name, which is the
   * name given, registered with the verifier, with the two built handlers.
   * The result is "pending" iff the verifier accepted the registration. A
   * failed push raises SubdomainCreationError and registers nothing (the
   * email-side subdomain is not rolled back).
   */
  lemma RegisterCreates(domain: string, hook: Option<Hook>, now: int, k: nat, answer: nat -> Answer, reg: Registry<Handler>,
                        records: seq<DnsRecord>)
    requires SplitDomain(domain).0 != "" && answer(k).raised.None?
    requires AsFlag(answer(k + 1)) == Ok(false) && AsFlag(answer(k + 2)) == Ok(false)
    requires AsRecords(answer(k + 3)) == Ok(records)
    ensures var f := RegisterDomainFlow(domain, hook, now, k, answer, reg);
            var (sub, apex) := SplitDomain(domain);
            && Calls(f.exchanges) ==
                 [DnsExists(apex, sub), DnsExists(apex, sub), EdsSubdomainExists(sub, apex),
                  EdsCreateSubdomain(sub, apex), DnsCreate(apex, sub, records)]
            && (AsFlag(answer(k + 4)) == Ok(false) ==>
                  f.result == Err(SubdomainCreationError(CreationFailedMessage(sub, apex))) && f.registry == reg)
            && (AsFlag(answer(k + 4)) == Ok(true) ==>
                  var (accepted, reg') := Register(reg, domain, Some(OnVerified(hook)), Some(OnError), now);
                  && f.registry == reg'
                  && (f.result == Ok(RegisterResult(domain, PendingText)) <==> accepted)
                  && (f.result == Ok(RegisterResult(domain, VerifiedText)) <==> !accepted))
  {
    RegisterCreatesFlow(domain, hook, now, k, answer, reg);
    var (sub, apex) := SplitDomain(domain);
    var c := CreateSubdomainFlow(sub, apex, hook, now, k + 1, answer, reg);
    CreateSubdomainCreates(sub, apex, hook, now, k + 1, answer, reg, records);
    CallsAppend([Exchange(DnsExists(apex, sub), answer(k))], c.exchanges);
  }

  /** With a subdomain and a probe that did not raise, `register_domain` is the probe followed by `_create_subdomain`. */
  lemma RegisterCreatesFlow(domain: string, hook: Option<Hook>, now: int, k: nat, answer: nat -> Answer, reg: Registry<Handler>)
    requires SplitDomain(domain).0 != "" && answer(k).raised.None?
    ensures var f := RegisterDomainFlow(domain, hook, now, k, answer, reg);
            var (sub, apex) := SplitDomain(domain);
            var c := CreateSubdomainFlow(sub, apex, hook, now, k + 1, answer, reg);
            && Dotted(sub, apex) == domain
            && f == Flow([Exchange(DnsExists(apex, sub), answer(k))] + c.exchanges, RegisterOutcome(domain, c.result), c.registry)
  {
    SplitDomainLabels(domain);
    RegisterDomainFlowCases(domain, hook, now, k, answer, reg);
  }

  /**
   * Over all answers: something is created only for a name with a
   * subdomain after both providers said, without raising, that it does not
   * exist yet; and the verifier's registry changes only after the DNS
   * records were pushed successfully, by registering the given name.
   */
  lemma RegisterCreatesOnlyWhenAbsent(domain: string, hook: Option<Hook>, now: int, k: nat, answer: nat -> Answer, reg: Registry<Handler>)
    ensures var f := RegisterDomainFlow(domain, hook, now, k, answer, reg);
            && (!NoCreation(f.exchanges) ==>
                  SplitDomain(domain).0 != "" && LabelCount(domain) >= 3 && AsFlag(answer(k + 1)) == Ok(false) && AsFlag(answer(k + 2)) == Ok(false))
            && (f.registry != reg ==>
                  && |f.exchanges| == 5 && AsFlag(answer(k + 4)) == Ok(true)
                  && f.registry == Register(reg, domain, Some(OnVerified(hook)), Some(OnError), now).1)
  {
    var (sub, apex) := SplitDomain(domain);
    RegisterDomainFlowCases(domain, hook, now, k, answer, reg);
    var f := RegisterDomainFlow(domain, hook, now, k, answer, reg);
    if answer(k).raised.None? && sub != "" {
      SplitDomainLabels(domain);
      var c := CreateSubdomainFlow(sub, apex, hook, now, k + 1, answer, reg);
      CreateSubdomainCreatesOnlyWhenAbsent(sub, apex, hook, now, k + 1, answer, reg);
      var probe := Exchange(DnsExists(apex, sub), answer(k));
      assert f.exchanges == [probe] + c.exchanges && f.registry == c.registry;
      assert !NoCreation(f.exchanges) ==> !NoCreation(c.exchanges);
      assert Dotted(sub, apex) == domain;
    }
  }

  /** A registration that reports "pending" has left the name registered and not yet verified. */
  lemma RegisterPendingIsTracked(domain: string, hook: Option<Hook>, now: int, k: nat, answer: nat -> Answer, reg: Registry<Handler>)
    requires Wf(reg)
    ensures var f := RegisterDomainFlow(domain, hook, now, k, answer, reg);
            f.result == Ok(RegisterResult(domain, PendingText)) ==>
              && domain in f.registry.entries
              && f.registry.entries[domain].status !in {Verified, Failed}
              && DomainStatus(f.registry, domain) == Some(PendingText)
  {
    var (sub, apex) := SplitDomain(domain);
    RegisterDomainFlowCases(domain, hook, now, k, answer, reg);
    if answer(k).raised.None? && sub != "" {
      SplitDomainLabels(domain);
      assert Dotted(sub, apex) == domain;
      CreateSubdomainPending(sub, apex, hook, now, k + 1, answer, reg);
    }
  }

  /** `_create_subdomain` gives False only when the verifier accepted the registration of "sub.apex". */
  lemma CreateSubdomainPending(sub: string, apex: string, hook: Option<Hook>, now: int, k: nat,
                               answer: nat -> Answer, reg: Registry<Handler>)
    ensures var f := CreateSubdomainFlow(sub, apex, hook, now, k, answer, reg);
            var (accepted, reg') := Register(reg, Dotted(sub, apex), Some(OnVerified(hook)), Some(OnError), now);
            f.result == Ok(false) ==> accepted && f.registry == reg'
  {
  }

  /**
   * `delete_domain` on a name with a subdomain first deletes the DNS records
   * and then, whatever that answered, the email-provider subdomain; the
   * result is true iff both answered true. Only an exception stops it early.
   */
  lemma DeleteAttemptsBoth(domain: string, k: nat, answer: nat -> Answer)
    requires SplitDomain(domain).0 != ""
    ensures var f := DeleteDomainFlow(domain, k, answer);
            var (sub, apex) := SplitDomain(domain);
            && Calls(f.exchanges) ==
                 (if answer(k).raised.Some? then [DnsDelete(apex, sub)]
                  else [DnsDelete(apex, sub), EdsDeleteSubdomain(sub, apex)])
            && (answer(k).raised.None? && answer(k + 1).raised.None? ==>
                  f.result == Ok(answer(k).flag && answer(k + 1).flag))
            && (f.result.Err? <==> answer(k).raised.Some? || answer(k + 1).raised.Some?)
  {
  }

  /** `delete_domain` on a name without a subdomain raises NotImplementedError without any call. */
  lemma DeleteApexOnly(domain: string, k: nat, answer: nat -> Answer)
    requires SplitDomain(domain).0 == ""
    ensures var f := DeleteDomainFlow(domain, k, answer);
            f.exchanges == [] && f.result.Err? && f.result.error.NotImplementedError?
  {
  }

  /** `verify_domain` asks the email provider once and returns its answer unchanged. */
  lemma VerifyPassesThrough(domain: string, k: nat, answer: nat -> Answer)
    ensures var f := VerifyDomainFlow(domain, k, answer);
            && Calls(f.exchanges) == [EdsVerify(domain)]
            && (f.result.Ok? <==> answer(k).raised.None?)
            && (f.result.Ok? ==> f.result.value == answer(k).flag)
  {
  }

  /**
   * The completion handler calls the caller's hook, if one was given, and
   * ignores the domain it is called with; the error handler does nothing.
   * Called with the verifier's one-argument shutdown message, the error
   * handler raises TypeError (which the verifier catches and logs).
   */
  lemma HandlersBehave(hook: Option<Hook>, d: string, d': string, message: string)
    ensures RunHandler(CompletionBuilder(hook), [d]) == Ok(if hook.Some? then [hook.value] else [])
    ensures RunHandler(CompletionBuilder(hook), [d]) == RunHandler(CompletionBuilder(hook), [d'])
    ensures RunHandler(ErrorBuilder(), [d, message]) == Ok([])
    ensures RunHandler(ErrorBuilder(), [ShutdownMessage]).Err?
    ensures RunHandler(ErrorBuilder(), [ShutdownMessage]).error.TypeError?
  {
  }
}
