/**
 * services/domain_service/domain_service.py: `DomainService`, which
 * provisions a subdomain on both the DNS provider and the email-delivery
 * provider and hands it to the verification registry, and deletes it from
 * both again.
 *
 * Each operation is specified by a pure "flow" function: given the position
 * of its first port call on the wire, the wire's oracle and the registry it
 * starts from, the flow lists the port calls made, in order, with the
 * answers they got, the result (or the exception raised) and the registry
 * left behind. The class methods make the same calls through the ports and
 * are proved to follow the flow.
 */
module Provisioning {
  import opened Common
  import opened DomainUtils
  import opened Verification
  import opened Ports

  /** The caller's zero-argument `verified_callback`, known only by its identity. */
  datatype Hook = Hook(id: nat)

  /**
   * The two closures the builders return: `_subdomain_verification_complete`
   * (one argument, calls the hook if there is one) and
   * `_subdomain_verification_error` (two arguments, does nothing).
   */
  datatype Handler = OnVerified(hook: Option<Hook>) | OnError

  /** `_subdomain_verification_complete_builder(verified_callback)`. */
  function CompletionBuilder(hook: Option<Hook>): (h: Handler)
    ensures h.OnVerified? && h.hook == hook
  {
    OnVerified(hook)
  }

  /** `_subdomain_verification_error_builder()`. */
  function ErrorBuilder(): (h: Handler)
    ensures h.OnError?
  {
    OnError
  }

  /**
   * Calling a handler with positional arguments: the hooks it calls, or the
   * TypeError Python raises when the number of arguments is wrong.
   */
  function RunHandler(h: Handler, args: seq<string>): (r: Result<seq<Hook>>)
  {
    match h
    case OnVerified(hook) =>
      if |args| != 1 then Err(TypeError("_subdomain_verification_complete() takes 1 positional argument"))
      else Ok(if hook.Some? then [hook.value] else [])
    case OnError =>
      if |args| != 2 then Err(TypeError("_subdomain_verification_error() takes 2 positional arguments"))
      else Ok([])
  }

  /** `RegisterDomainResult`: the domain as given and "verified" or "pending". */
  datatype RegisterResult = RegisterResult(domain: string, status: string)

  /** The NotImplementedError messages of `register_domain` and `delete_domain` for an apex-only name. */
  const ApexSetupMessage: string := "Setting up apex is not implemented"
  const ApexDeleteMessage: string := "Apex domain not implemented yet"
  const CreationFailedPrefix: string := "DNS creation failed for "

  /** The port calls an operation made, its result, and the registry it left. */
  datatype Flow<T> = Flow(exchanges: seq<Exchange>, result: Result<T>, registry: Registry<Handler>)

  /** The message of the SubdomainCreationError of line 135. */
  function CreationFailedMessage(sub: string, apex: string): string
  {
    CreationFailedPrefix + Dotted(sub, apex)
  }

  /**
   * `_create_subdomain`: unless the DNS provider already has records for
   * the subdomain or (asked only when it has none) the email provider
   * already has the subdomain, create it on the email provider, push the
   * records it returns to the DNS provider, and register "sub.apex" with
   * the verifier. The result is true iff the domain is already usable. An
   * exception from any port call propagates unchanged.
   */
  function CreateSubdomainFlow(sub: string, apex: string, hook: Option<Hook>, now: int, k: nat,
                               answer: nat -> Answer, reg: Registry<Handler>): Flow<bool>
  {
    var dnsHas := Ask(DnsExists(apex, sub), k, answer);
    match AsFlag(dnsHas.answer)
    case Err(e) => Flow([dnsHas], Err(e), reg)
    case Ok(true) => Flow([dnsHas], Ok(true), reg)
    case Ok(false) =>
      var edsHas := Ask(EdsSubdomainExists(sub, apex), k + 1, answer);
      match AsFlag(edsHas.answer)
      case Err(e) => Flow([dnsHas, edsHas], Err(e), reg)
      case Ok(true) => Flow([dnsHas, edsHas], Ok(true), reg)
      case Ok(false) =>
        var made := Ask(EdsCreateSubdomain(sub, apex), k + 2, answer);
        match AsRecords(made.answer)
        case Err(e) => Flow([dnsHas, edsHas, made], Err(e), reg)
        case Ok(records) =>
          var pushed := Ask(DnsCreate(apex, sub, records), k + 3, answer);
          match AsFlag(pushed.answer)
          case Err(e) => Flow([dnsHas, edsHas, made, pushed], Err(e), reg)
          case Ok(false) =>
            Flow([dnsHas, edsHas, made, pushed], Err(SubdomainCreationError(CreationFailedMessage(sub, apex))), reg)
          case Ok(true) =>
            var (pending, reg') := Register(reg, Dotted(sub, apex), Some(CompletionBuilder(hook)), Some(ErrorBuilder()), now);
            Flow([dnsHas, edsHas, made, pushed], Ok(!pending), reg')
  }

  /** Where `_create_subdomain` stops, for each answer, and what it has asked by then. */
  lemma CreateSubdomainFlowCases(sub: string, apex: string, hook: Option<Hook>, now: int, k: nat,
                                 answer: nat -> Answer, reg: Registry<Handler>)
    ensures var f := CreateSubdomainFlow(sub, apex, hook, now, k, answer, reg);
            var e1 := Exchange(DnsExists(apex, sub), answer(k));
            var e2 := Exchange(EdsSubdomainExists(sub, apex), answer(k + 1));
            var e3 := Exchange(EdsCreateSubdomain(sub, apex), answer(k + 2));
            && (AsFlag(answer(k)) != Ok(false) ==> f == Flow([e1], AsFlag(answer(k)), reg))
            && (AsFlag(answer(k)) == Ok(false) && AsFlag(answer(k + 1)) != Ok(false) ==>
                  f == Flow([e1, e2], AsFlag(answer(k + 1)), reg))
            && (AsFlag(answer(k)) == Ok(false) && AsFlag(answer(k + 1)) == Ok(false) && AsRecords(answer(k + 2)).Err? ==>
                  f == Flow([e1, e2, e3], Err(AsRecords(answer(k + 2)).error), reg))
            && (AsFlag(answer(k)) == Ok(false) && AsFlag(answer(k + 1)) == Ok(false) && AsRecords(answer(k + 2)).Ok? ==>
                  var e4 := Exchange(DnsCreate(apex, sub, AsRecords(answer(k + 2)).value), answer(k + 3));
                  var pushed := AsFlag(answer(k + 3));
                  var (pending, reg') := Register(reg, Dotted(sub, apex), Some(CompletionBuilder(hook)), Some(ErrorBuilder()), now);
                  f == if pushed.Err? then Flow([e1, e2, e3, e4], pushed, reg)
                       else if !pushed.value then Flow([e1, e2, e3, e4], Err(SubdomainCreationError(CreationFailedMessage(sub, apex))), reg)
                       else Flow([e1, e2, e3, e4], Ok(!pending), reg'))
  {
  }

  /** The subdomain argument of the access probe: `sub or "@"`. */
  function ProbeName(sub: string): string
  {
    if sub == "" then "@" else sub
  }

  /**
   * `register_domain`: split the name, probe the apex on the DNS provider
   * (an exception there becomes DomainAccessError), refuse an apex-only
   * name with NotImplementedError, otherwise run `_create_subdomain`.
   */
  function RegisterDomainFlow(domain: string, hook: Option<Hook>, now: int, k: nat,
                              answer: nat -> Answer, reg: Registry<Handler>): Flow<RegisterResult>
  {
    var (sub, apex) := SplitDomain(domain);
    var probe := Ask(DnsExists(apex, ProbeName(sub)), k, answer);
    if probe.answer.raised.Some? then
      Flow([probe], Err(DomainAccessError(probe.answer.raised.value)), reg)
    else if sub == "" then
      Flow([probe], Err(NotImplementedError(ApexSetupMessage)), reg)
    else
      var f := CreateSubdomainFlow(sub, apex, hook, now, k + 1, answer, reg);
      Flow([probe] + f.exchanges, RegisterOutcome(domain, f.result), f.registry)
  }

  /** The result of `register_domain` from that of `_create_subdomain`. */
  function RegisterOutcome(domain: string, valid: Result<bool>): (r: Result<RegisterResult>)
    ensures r.Err? <==> valid.Err?
    ensures r.Err? ==> r.error == valid.error
    ensures r.Ok? ==> r.value.domain == domain && (r.value.status == VerifiedText <==> valid.value)
  {
    match valid
    case Ok(v) => Ok(RegisterResult(domain, if v then VerifiedText else PendingText))
    case Err(e) => Err(e)
  }

  /**
   * The three ways `register_domain` goes: the probe raises, the name is
   * apex-only, or the probe is followed by `_create_subdomain`.
   */
  lemma RegisterDomainFlowCases(domain: string, hook: Option<Hook>, now: int, k: nat,
                                answer: nat -> Answer, reg: Registry<Handler>)
    ensures var (sub, apex) := SplitDomain(domain);
            var probe := Exchange(DnsExists(apex, ProbeName(sub)), answer(k));
            var g := RegisterDomainFlow(domain, hook, now, k, answer, reg);
            && (answer(k).raised.Some? ==> g == Flow([probe], Err(DomainAccessError(answer(k).raised.value)), reg))
            && (answer(k).raised.None? && sub == "" ==> g == Flow([probe], Err(NotImplementedError(ApexSetupMessage)), reg))
            && (answer(k).raised.None? && sub != "" ==>
                  var f := CreateSubdomainFlow(sub, apex, hook, now, k + 1, answer, reg);
                  g == Flow([probe] + f.exchanges, RegisterOutcome(domain, f.result), f.registry))
  {
  }

  /**
   * `delete_domain`: for a name with a subdomain, delete its DNS records and
   * then the email-provider subdomain, whatever the first answered, and
   * report whether both succeeded; an apex-only name raises
   * NotImplementedError before any call.
   */
  function DeleteDomainFlow(domain: string, k: nat, answer: nat -> Answer): Outcome<bool>
  {
    var (sub, apex) := SplitDomain(domain);
    if sub == "" then Outcome([], Err(NotImplementedError(ApexDeleteMessage)))
    else
      var dnsGone := Ask(DnsDelete(apex, sub), k, answer);
      match AsFlag(dnsGone.answer)
      case Err(e) => Outcome([dnsGone], Err(e))
      case Ok(dnsOk) =>
        var edsGone := Ask(EdsDeleteSubdomain(sub, apex), k + 1, answer);
        match AsFlag(edsGone.answer)
        case Err(e) => Outcome([dnsGone, edsGone], Err(e))
        case Ok(edsOk) => Outcome([dnsGone, edsGone], Ok(dnsOk && edsOk))
  }

  /** `verify_domain`: one question to the email provider, answered unchanged. */
  function VerifyDomainFlow(domain: string, k: nat, answer: nat -> Answer): Outcome<bool>
  {
    var asked := Ask(EdsVerify(domain), k, answer);
    Outcome([asked], AsFlag(asked.answer))
  }

  class DomainService {
    const wire: Wire
    const dns: DnsPort
    const email: EmailDeliveryPort
    const verifier: DnsVerifier<Handler>

    /** Both ports talk over the one wire, and the registry is well formed. */
    ghost predicate Valid()
      reads verifier
    {
      dns.wire == wire && email.wire == wire && verifier.Valid()
    }

    constructor (dns: DnsPort, email: EmailDeliveryPort)
      requires dns.wire == email.wire
      ensures Valid() && fresh(verifier)
      ensures this.dns == dns && this.email == email && wire == dns.wire
      ensures verifier.State() == Registry([], map[])
    {
      this.wire := dns.wire;
      this.dns := dns;
      this.email := email;
      this.verifier := new DnsVerifier(DefaultCheckInterval);
    }

    method CreateSubdomain(sub: string, apex: string, hook: Option<Hook>, now: int) returns (r: Result<bool>)
      requires Valid()
      modifies wire, verifier
      ensures Valid()
      ensures var f := CreateSubdomainFlow(sub, apex, hook, now, |old(wire.log)|, wire.answer, old(verifier.State()));
              wire.log == old(wire.log) + f.exchanges && r == f.result && verifier.State() == f.registry
      ensures verifier.shutdownRequested == old(verifier.shutdownRequested)
      ensures verifier.armed == (old(verifier.armed) || (!verifier.shutdownRequested &&
                Dotted(sub, apex) !in old(verifier.State()).entries && Dotted(sub, apex) in verifier.State().entries))
    {
      CreateSubdomainFlowCases(sub, apex, hook, now, |wire.log|, wire.answer, verifier.State());
      var dnsHas := dns.ExistsRecords(apex, sub);
      if dnsHas.Err? || dnsHas.value {
        return dnsHas;
      }
      var edsHas := email.SubdomainExists(sub, apex);
      if edsHas.Err? || edsHas.value {
        return edsHas;
      }
      var records := email.CreateSubdomain(sub, apex);
      if records.Err? {
        return Err(records.error);
      }
      var pushed := dns.CreateRecords(apex, sub, records.value);
      if pushed.Err? {
        return pushed;
      }
      if !pushed.value {
        return Err(SubdomainCreationError(CreationFailedMessage(sub, apex)));
      }
      var pending := verifier.AddPendingDnsVerification(Dotted(sub, apex), Some(CompletionBuilder(hook)), Some(ErrorBuilder()), now);
      return Ok(!pending);
    }

    method RegisterDomain(domain: string, hook: Option<Hook>, now: int) returns (r: Result<RegisterResult>)
      requires Valid()
      modifies wire, verifier
      ensures Valid()
      ensures var f := RegisterDomainFlow(domain, hook, now, |old(wire.log)|, wire.answer, old(verifier.State()));
              wire.log == old(wire.log) + f.exchanges && r == f.result && verifier.State() == f.registry
      ensures verifier.shutdownRequested == old(verifier.shutdownRequested)
      ensures verifier.armed == (old(verifier.armed) || (!verifier.shutdownRequested &&
                domain !in old(verifier.State()).entries && domain in verifier.State().entries))
    {
      ghost var start := wire.log;
      ghost var k := |wire.log|;
      ghost var reg := verifier.State();
      RegisterDomainFlowCases(domain, hook, now, k, wire.answer, reg);
      var (sub, apex) := SplitDomain(domain);
      var probe := dns.ExistsRecords(apex, ProbeName(sub));
      if probe.Err? {
        return Err(DomainAccessError(probe.error.message));
      }
      if sub == "" {
        return Err(NotImplementedError(ApexSetupMessage));
      }
      ghost var asked := wire.log;
      var valid := CreateSubdomain(sub, apex, hook, now);
      ghost var f := CreateSubdomainFlow(sub, apex, hook, now, k + 1, wire.answer, reg);
      AppendAssoc(start, [Exchange(DnsExists(apex, sub), wire.answer(k))], f.exchanges);
      r := RegisterOutcome(domain, valid);
    }

    method DeleteDomain(domain: string) returns (r: Result<bool>)
      requires Valid()
      modifies wire
      ensures Valid()
      ensures var f := DeleteDomainFlow(domain, |old(wire.log)|, wire.answer);
              wire.log == old(wire.log) + f.exchanges && r == f.result
    {
      var (sub, apex) := SplitDomain(domain);
      if sub == "" {
        return Err(NotImplementedError(ApexDeleteMessage));
      }
      var dnsGone := dns.DeleteRecords(apex, sub);
      if dnsGone.Err? {
        return dnsGone;
      }
      var edsGone := email.DeleteSubdomain(sub, apex);
      if edsGone.Err? {
        return edsGone;
      }
      if !dnsGone.value || !edsGone.value {
        return Ok(false);
      }
      return Ok(true);
    }

    method VerifyDomain(domain: string) returns (r: Result<bool>)
      requires Valid()
      modifies wire
      ensures Valid()
      ensures var f := VerifyDomainFlow(domain, |old(wire.log)|, wire.answer);
              wire.log == old(wire.log) + f.exchanges && r == f.result
    {
      r := email.VerifyDomain(domain);
    }
  }
}
