/**
 * The collaborators the services talk to: the DNS port and the
 * email-delivery port (adapters/dns, adapters/email_delivery) and the
 * email-account store (storage/email_account_storage.py).
 *
 * Their implementations are HTTP clients and storage code outside this
 * model, so every port call is a message on one shared `Wire`: the wire
 * records each call, in order, together with the answer it got, and the
 * answers come from an oracle indexed by the call's position. Any answer is
 * possible, including an exception (`raised`), so every property proved
 * about the services holds whatever the collaborators do.
 */
module Ports {
  import opened Common

  /** Every call a service can make on a collaborator, with its arguments. */
  datatype Call =
    | DnsExists(domain: string, subdomain: string)
    | DnsCreate(domain: string, subdomain: string, records: seq<DnsRecord>)
    | DnsDelete(domain: string, subdomain: string)
    | EdsCreateSubdomain(subdomain: string, domain: string)
    | EdsDeleteSubdomain(subdomain: string, domain: string)
    | EdsSubdomainExists(subdomain: string, domain: string)
    | EdsVerify(fullDomain: string)
    | EdsCreateUser(localPart: string, domain: string)
    | EdsDeleteUser(localPart: string, domain: string)
    | StoreAccount(address: string)
    | FindInboxId(address: string)
    | FindAddress(inboxId: string)

  /**
   * What a collaborator did: raised an exception with a message, or
   * returned; each kind of call reads the part of the answer of its own
   * return type (a flag, a record list, a text, or an optional text).
   */
  datatype Answer = Answer(raised: Option<string>, flag: bool, records: seq<DnsRecord>, text: string, found: Option<string>)

  /** One call and the answer it got. */
  datatype Exchange = Exchange(call: Call, answer: Answer)

  function AsFlag(a: Answer): (r: Result<bool>)
    ensures r.Err? <==> a.raised.Some?
    ensures r.Ok? ==> r.value == a.flag
  {
    if a.raised.Some? then Err(ProviderError(a.raised.value)) else Ok(a.flag)
  }

  function AsRecords(a: Answer): (r: Result<seq<DnsRecord>>)
    ensures r.Err? <==> a.raised.Some?
    ensures r.Ok? ==> r.value == a.records
  {
    if a.raised.Some? then Err(ProviderError(a.raised.value)) else Ok(a.records)
  }

  function AsText(a: Answer): (r: Result<string>)
    ensures r.Err? <==> a.raised.Some?
    ensures r.Ok? ==> r.value == a.text
  {
    if a.raised.Some? then Err(ProviderError(a.raised.value)) else Ok(a.text)
  }

  function AsFound(a: Answer): (r: Result<Option<string>>)
    ensures r.Err? <==> a.raised.Some?
    ensures r.Ok? ==> r.value == a.found
  {
    if a.raised.Some? then Err(ProviderError(a.raised.value)) else Ok(a.found)
  }

  /** The port calls an operation made and its result, for operations that leave the registry alone. */
  datatype Outcome<T> = Outcome(exchanges: seq<Exchange>, result: Result<T>)

  /** The `k`-th call on the wire, with the answer the oracle gives it. */
  function Ask(call: Call, k: nat, answer: nat -> Answer): (e: Exchange)
    ensures e.call == call && e.answer == answer(k)
  {
    Exchange(call, answer(k))
  }

  /** The calls of a list of exchanges, in order. */
  function Calls(ex: seq<Exchange>): (cs: seq<Call>)
    ensures |cs| == |ex| && forall i | 0 <= i < |ex| :: cs[i] == ex[i].call
  {
    seq(|ex|, i requires 0 <= i < |ex| => ex[i].call)
  }

  /** The calls of two batches of exchanges, one after the other. */
  lemma CallsAppend(a: seq<Exchange>, b: seq<Exchange>)
    ensures Calls(a + b) == Calls(a) + Calls(b)
  {
  }

  /** The call log shared by every port of one deployment, and the oracle that answers. */
  class Wire {
    var log: seq<Exchange>
    const answer: nat -> Answer

    constructor (answer: nat -> Answer)
      ensures log == [] && this.answer == answer
    {
      log := [];
      this.answer := answer;
    }

    /** The answer that the next call will get. */
    function Next(): Answer
      reads this
    {
      answer(|log|)
    }

    method Send(call: Call) returns (a: Answer)
      modifies this
      ensures a == old(Next())
      ensures log == old(log) + [Exchange(call, a)]
    {
      a := answer(|log|);
      log := log + [Exchange(call, a)];
    }
  }

  /** `DnsPort`: records under a domain, addressed by subdomain. */
  class DnsPort {
    const wire: Wire

    constructor (wire: Wire)
      ensures this.wire == wire
    {
      this.wire := wire;
    }

    method CreateRecords(domain: string, subdomain: string, records: seq<DnsRecord>) returns (r: Result<bool>)
      modifies wire
      ensures wire.log == old(wire.log) + [Exchange(DnsCreate(domain, subdomain, records), old(wire.Next()))]
      ensures r == AsFlag(old(wire.Next()))
    {
      var a := wire.Send(DnsCreate(domain, subdomain, records));
      r := AsFlag(a);
    }

    method DeleteRecords(domain: string, subdomain: string) returns (r: Result<bool>)
      modifies wire
      ensures wire.log == old(wire.log) + [Exchange(DnsDelete(domain, subdomain), old(wire.Next()))]
      ensures r == AsFlag(old(wire.Next()))
    {
      var a := wire.Send(DnsDelete(domain, subdomain));
      r := AsFlag(a);
    }

    method ExistsRecords(domain: string, subdomain: string) returns (r: Result<bool>)
      modifies wire
      ensures wire.log == old(wire.log) + [Exchange(DnsExists(domain, subdomain), old(wire.Next()))]
      ensures r == AsFlag(old(wire.Next()))
    {
      var a := wire.Send(DnsExists(domain, subdomain));
      r := AsFlag(a);
    }
  }

  /** `EmailDeliveryPort`: subdomains, their verification, and mail users. */
  class EmailDeliveryPort {
    const wire: Wire

    constructor (wire: Wire)
      ensures this.wire == wire
    {
      this.wire := wire;
    }

    method CreateSubdomain(subdomain: string, domain: string) returns (r: Result<seq<DnsRecord>>)
      modifies wire
      ensures wire.log == old(wire.log) + [Exchange(EdsCreateSubdomain(subdomain, domain), old(wire.Next()))]
      ensures r == AsRecords(old(wire.Next()))
    {
      var a := wire.Send(EdsCreateSubdomain(subdomain, domain));
      r := AsRecords(a);
    }

    method DeleteSubdomain(subdomain: string, domain: string) returns (r: Result<bool>)
      modifies wire
      ensures wire.log == old(wire.log) + [Exchange(EdsDeleteSubdomain(subdomain, domain), old(wire.Next()))]
      ensures r == AsFlag(old(wire.Next()))
    {
      var a := wire.Send(EdsDeleteSubdomain(subdomain, domain));
      r := AsFlag(a);
    }

    method SubdomainExists(subdomain: string, domain: string) returns (r: Result<bool>)
      modifies wire
      ensures wire.log == old(wire.log) + [Exchange(EdsSubdomainExists(subdomain, domain), old(wire.Next()))]
      ensures r == AsFlag(old(wire.Next()))
    {
      var a := wire.Send(EdsSubdomainExists(subdomain, domain));
      r := AsFlag(a);
    }

    method VerifyDomain(fullDomain: string) returns (r: Result<bool>)
      modifies wire
      ensures wire.log == old(wire.log) + [Exchange(EdsVerify(fullDomain), old(wire.Next()))]
      ensures r == AsFlag(old(wire.Next()))
    {
      var a := wire.Send(EdsVerify(fullDomain));
      r := AsFlag(a);
    }

    /** The new user's password; the Mailgun adapter answers "" when creation fails. */
    method CreateUser(localPart: string, domain: string) returns (r: Result<string>)
      modifies wire
      ensures wire.log == old(wire.log) + [Exchange(EdsCreateUser(localPart, domain), old(wire.Next()))]
      ensures r == AsText(old(wire.Next()))
    {
      var a := wire.Send(EdsCreateUser(localPart, domain));
      r := AsText(a);
    }

    method DeleteUser(localPart: string, domain: string) returns (r: Result<bool>)
      modifies wire
      ensures wire.log == old(wire.log) + [Exchange(EdsDeleteUser(localPart, domain), old(wire.Next()))]
      ensures r == AsFlag(old(wire.Next()))
    {
      var a := wire.Send(EdsDeleteUser(localPart, domain));
      r := AsFlag(a);
    }
  }

  /** `EmailAccountStorage`: inbox ids for email addresses. */
  class AccountStore {
    const wire: Wire

    constructor (wire: Wire)
      ensures this.wire == wire
    {
      this.wire := wire;
    }

    /** The id given to the saved address. */
    method SaveAccount(address: string) returns (r: Result<string>)
      modifies wire
      ensures wire.log == old(wire.log) + [Exchange(StoreAccount(address), old(wire.Next()))]
      ensures r == AsText(old(wire.Next()))
    {
      var a := wire.Send(StoreAccount(address));
      r := AsText(a);
    }

    method GetInboxId(address: string) returns (r: Result<Option<string>>)
      modifies wire
      ensures wire.log == old(wire.log) + [Exchange(FindInboxId(address), old(wire.Next()))]
      ensures r == AsFound(old(wire.Next()))
    {
      var a := wire.Send(FindInboxId(address));
      r := AsFound(a);
    }

    /** The address stored for an inbox id; None is what the source's stub returns. */
    method GetEmailAddress(inboxId: string) returns (r: Result<Option<string>>)
      modifies wire
      ensures wire.log == old(wire.log) + [Exchange(FindAddress(inboxId), old(wire.Next()))]
      ensures r == AsFound(old(wire.Next()))
    {
      var a := wire.Send(FindAddress(inboxId));
      r := AsFound(a);
    }
  }
}
