/**
 * adapters/email_delivery/mailgun_wrapper/domain.py: the Mailgun adapter's
 * domain logic over an abstract HTTP client.
 *
 * The Mailgun SDK client is a `MailgunClient` class here that records every
 * request and answers from an oracle indexed by the request's position: a
 * status code and, for the JSON body, the two record lists, each of which
 * may be missing from the body.
 */
module Mailgun {
  import opened Common

  /**
   * A record object of a Mailgun JSON body, each key possibly missing.
   * `statusFields` says whether `is_active` and `cached` are present and
   * well typed (they matter only to the verification response's schema).
   */
  datatype RawRecord = RawRecord(
    name: Option<string>,
    priority: Option<int>,
    recordType: Option<string>,
    value: Option<string>,
    valid: Option<string>,
    statusFields: bool)

  /** A response: its status code and the record lists of its JSON body. */
  datatype HttpReply = HttpReply(status: nat, receiving: Option<seq<RawRecord>>, sending: Option<seq<RawRecord>>)

  /** The requests the adapter sends through `client.domains`. */
  datatype DomainRequest =
    | CreateDomain(name: string)
    | DeleteDomain(name: string)
    | GetDomain(name: string)
    | VerifyDomain(name: string)

  class MailgunClient {
    var requests: seq<DomainRequest>
    const reply: nat -> HttpReply

    constructor (reply: nat -> HttpReply)
      ensures requests == [] && this.reply == reply
    {
      requests := [];
      this.reply := reply;
    }

    /** One request through `client.domains`, answered by the oracle. */
    method Send(request: DomainRequest) returns (response: HttpReply)
      modifies this
      ensures requests == old(requests) + [request]
      ensures response == reply(|old(requests)|)
    {
      response := reply(|requests|);
      requests := requests + [request];
    }
  }

  /** The `Literal["MX", "TXT", "CNAME"]` check of `DNSRecord`. */
  function ParseType(t: string): (r: Option<RecordType>)
    ensures r.Some? <==> t in {"MX", "TXT", "CNAME"}
  {
    if t == "MX" then Some(MX)
    else if t == "TXT" then Some(TXT)
    else if t == "CNAME" then Some(CNAME)
    else None
  }

  /** Both required keys are present, so the KeyError path is not taken. */
  predicate Complete(raw: RawRecord)
  {
    raw.recordType.Some? && raw.value.Some?
  }

  /** A complete record whose type `DNSRecord` refuses: the ValidationError escapes the parser. */
  predicate Rejected(raw: RawRecord)
  {
    Complete(raw) && ParseType(raw.recordType.value).None?
  }

  /** The error a refused record type raises. */
  const RecordTypeError := ValidationError("record_type must be one of MX, TXT, CNAME")

  /** The KeyErrors for a response without one of the two record lists. */
  const MissingReceiving := KeyError("receiving_dns_records")
  const MissingSending := KeyError("sending_dns_records")

  /** `_parse_dns_record` on one record: dropped (None), built with defaults, or refused. */
  function ParseRecord(raw: RawRecord): (r: Result<Option<DnsRecord>>)
    ensures r.Err? <==> Rejected(raw)
    ensures r == Ok(None) <==> !Complete(raw)
    ensures r.Ok? && r.value.Some? ==>
              var rec := r.value.value;
              && rec.name == (if raw.name.Some? then raw.name.value else "")
              && rec.priority == raw.priority
              && Some(rec.recordType) == ParseType(raw.recordType.value)
              && rec.value == raw.value.value
  {
    var name := if raw.name.Some? then raw.name.value else "";
    if raw.recordType.None? || raw.value.None? then Ok(None)
    else match ParseType(raw.recordType.value)
      case None => Err(RecordTypeError)
      case Some(t) => Ok(Some(DnsRecord(name, t, raw.value.value, raw.priority)))
  }

  /** What one record contributes to the parsed list when nothing is refused. */
  function KeepOne(raw: RawRecord): seq<DnsRecord>
  {
    match ParseRecord(raw)
    case Ok(Some(rec)) => [rec]
    case _ => []
  }

  /** The parsed records, in input order: one per complete record. */
  function Kept(raws: seq<RawRecord>): (rs: seq<DnsRecord>)
    ensures |rs| <= |raws|
  {
    if raws == [] then [] else KeepOne(raws[0]) + Kept(raws[1..])
  }

  lemma {:induction false} KeptSnoc(raws: seq<RawRecord>, raw: RawRecord)
    ensures Kept(raws + [raw]) == Kept(raws) + KeepOne(raw)
  {
    if raws == [] {
      assert [raw][1..] == [];
    } else {
      assert (raws + [raw])[1..] == raws[1..] + [raw];
      KeptSnoc(raws[1..], raw);
    }
  }

  /**
   * The records kept are exactly the conversions of the complete ones: a
   * kept record comes from some complete input at or after the previous
   * one's, so it keeps only complete records and keeps them all.
   */
  lemma {:induction false} KeptMembers(raws: seq<RawRecord>)
    requires forall i | 0 <= i < |raws| :: !Rejected(raws[i])
    ensures forall rec :: rec in Kept(raws) <==> exists i | 0 <= i < |raws| :: Complete(raws[i]) && ParseRecord(raws[i]) == Ok(Some(rec))
    ensures (forall i | 0 <= i < |raws| :: Complete(raws[i])) ==> |Kept(raws)| == |raws|
  {
    if raws != [] {
      KeptMembers(raws[1..]);
      forall rec
        ensures rec in Kept(raws) <==> exists i | 0 <= i < |raws| :: Complete(raws[i]) && ParseRecord(raws[i]) == Ok(Some(rec))
      {
        if rec in Kept(raws[1..]) {
          var i :| 0 <= i < |raws[1..]| && Complete(raws[1..][i]) && ParseRecord(raws[1..][i]) == Ok(Some(rec));
          assert raws[i + 1] == raws[1..][i];
        }
        if exists i | 0 <= i < |raws| :: Complete(raws[i]) && ParseRecord(raws[i]) == Ok(Some(rec)) {
          var i :| 0 <= i < |raws| && Complete(raws[i]) && ParseRecord(raws[i]) == Ok(Some(rec));
          if i > 0 {
            assert raws[1..][i - 1] == raws[i];
          }
        }
      }
    }
  }

  /** `_parse_dns_records`: the kept records, or the ValidationError of a refused one. */
  function ParseAll(raws: seq<RawRecord>): Result<seq<DnsRecord>>
  {
    if exists i | 0 <= i < |raws| :: Rejected(raws[i]) then Err(RecordTypeError) else Ok(Kept(raws))
  }

  /**
   * `_parse_dns_records`: append each record the inner parser returns,
   * skip the ones it drops, and let a refused record's error escape.
   */
  method ParseDnsRecords(raws: seq<RawRecord>) returns (r: Result<seq<DnsRecord>>)
    ensures r == ParseAll(raws)
    ensures r.Ok? ==> |r.value| <= |raws|
  {
    var results := [];
    var i := 0;
    while i < |raws|
      invariant 0 <= i <= |raws|
      invariant forall j | 0 <= j < i :: !Rejected(raws[j])
      invariant results == Kept(raws[..i])
    {
      var one := ParseRecord(raws[i]);
      if one.Err? {
        return Err(one.error);
      }
      assert raws[..i + 1] == raws[..i] + [raws[i]];
      KeptSnoc(raws[..i], raws[i]);
      if one.value.Some? {
        results := results + [one.value.value];
      }
      i := i + 1;
    }
    assert raws[..i] == raws;
    return Ok(results);
  }

  /** The records after the rename loop: an empty name becomes `subdomain`. */
  function Renamed(rs: seq<DnsRecord>, subdomain: string): (out: seq<DnsRecord>)
    ensures |out| == |rs|
  {
    seq(|rs|, i requires 0 <= i < |rs| => if rs[i].name == "" then rs[i].(name := subdomain) else rs[i])
  }

  /**
   * The rename changes names only: a record keeps its type, value and
   * priority, a non-empty name is kept, an empty one becomes `subdomain`,
   * so for a non-empty subdomain no record is left nameless.
   */
  lemma RenamedFacts(rs: seq<DnsRecord>, subdomain: string)
    ensures forall i | 0 <= i < |rs| ::
              && Renamed(rs, subdomain)[i].(name := rs[i].name) == rs[i]
              && Renamed(rs, subdomain)[i].name == (if rs[i].name == "" then subdomain else rs[i].name)
    ensures subdomain != "" ==> forall rec | rec in Renamed(rs, subdomain) :: rec.name != ""
  {
  }

  /** The rename loop of `create_subdomain_on_eds`, updating each record in place. */
  method RenameEmpty(a: array<DnsRecord>, subdomain: string)
    modifies a
    ensures a[..] == Renamed(old(a[..]), subdomain)
  {
    var i := 0;
    while i < a.Length
      invariant 0 <= i <= a.Length
      invariant forall j | 0 <= j < i :: a[j] == Renamed(old(a[..]), subdomain)[j]
      invariant forall j | i <= j < a.Length :: a[j] == old(a[j])
    {
      if a[i].name == "" {
        a[i] := a[i].(name := subdomain);
      }
      i := i + 1;
    }
  }

  /** What `create_subdomain_on_eds` makes of the creation response. */
  function CreateResult(response: HttpReply, subdomain: string): Result<seq<DnsRecord>>
  {
    match response.receiving
    case None => Err(MissingReceiving)
    case Some(rx) =>
      match ParseAll(rx)
      case Err(e) => Err(e)
      case Ok(received) =>
        match response.sending
        case None => Err(MissingSending)
        case Some(sx) =>
          match ParseAll(sx)
          case Err(e) => Err(e)
          case Ok(sent) => Ok(Renamed(received + sent, subdomain))
  }

  /**
   * When the body has both lists and no record type is refused, the result
   * is the kept receiving records followed by the kept sending records, with
   * empty names replaced by the subdomain; the status code is never looked at.
   */
  lemma CreateResultShape(response: HttpReply, subdomain: string)
    requires response.receiving.Some? && response.sending.Some?
    requires forall i | 0 <= i < |response.receiving.value| :: !Rejected(response.receiving.value[i])
    requires forall i | 0 <= i < |response.sending.value| :: !Rejected(response.sending.value[i])
    ensures CreateResult(response, subdomain) ==
              Ok(Renamed(Kept(response.receiving.value) + Kept(response.sending.value), subdomain))
    ensures |CreateResult(response, subdomain).value| <= |response.receiving.value| + |response.sending.value|
  {
  }

  /** `create_subdomain_on_eds`: create "subdomain.domain", parse both record lists, merge, rename. */
  method CreateSubdomainOnEds(client: MailgunClient, subdomain: string, domain: string) returns (r: Result<seq<DnsRecord>>)
    modifies client
    ensures client.requests == old(client.requests) + [CreateDomain(Dotted(subdomain, domain))]
    ensures r == CreateResult(client.reply(|old(client.requests)|), subdomain)
  {
    var response := client.Send(CreateDomain(Dotted(subdomain, domain)));
    if response.receiving.None? {
      return Err(MissingReceiving);
    }
    var received := ParseDnsRecords(response.receiving.value);
    if received.Err? {
      return Err(received.error);
    }
    if response.sending.None? {
      return Err(MissingSending);
    }
    var sent := ParseDnsRecords(response.sending.value);
    if sent.Err? {
      return Err(sent.error);
    }
    var all := received.value + sent.value;
    var a := new DnsRecord[|all|](i requires 0 <= i < |all| => all[i]);
    assert a[..] == all;
    RenameEmpty(a, subdomain);
    return Ok(a[..]);
  }

  /** `delete_subdomain_on_eds`: true iff the status is 200. */
  method DeleteSubdomainOnEds(client: MailgunClient, subdomain: string, domain: string) returns (deleted: bool)
    modifies client
    ensures client.requests == old(client.requests) + [DeleteDomain(Dotted(subdomain, domain))]
    ensures deleted <==> client.reply(|old(client.requests)|).status == 200
  {
    var response := client.Send(DeleteDomain(Dotted(subdomain, domain)));
    deleted := response.status == 200;
  }

  /** The status mapping of `subdomain_exists_on_eds`: 200 is true, 404 false, anything else raises. */
  function ExistsAnswer(status: nat, domainName: string): (r: Result<bool>)
    ensures r == Ok(true) <==> status == 200
    ensures r == Ok(false) <==> status == 404
    ensures r.Err? <==> status != 200 && status != 404
  {
    if status == 200 then Ok(true)
    else if status == 404 then Ok(false)
    else Err(ProviderError("Unexpected response code=" + NatText(status) + " for domain=" + domainName))
  }

  /** `subdomain_exists_on_eds`: ask for "subdomain.domain" and map the status. */
  method SubdomainExistsOnEds(client: MailgunClient, subdomain: string, domain: string) returns (r: Result<bool>)
    modifies client
    ensures client.requests == old(client.requests) + [GetDomain(Dotted(subdomain, domain))]
    ensures r == ExistsAnswer(client.reply(|old(client.requests)|).status, Dotted(subdomain, domain))
  {
    var response := client.Send(GetDomain(Dotted(subdomain, domain)));
    if response.status == 200 {
      return Ok(true);
    } else if response.status == 404 {
      return Ok(false);
    }
    return Err(ProviderError("Unexpected response code=" + NatText(response.status) + " for domain=" + Dotted(subdomain, domain)));
  }

  /** The schema of `DnsRecordVerification`: the required keys are there and `valid` is "unknown" or "valid". */
  predicate Checkable(raw: RawRecord)
  {
    raw.statusFields && raw.recordType.Some? && raw.value.Some? && raw.valid in {Some("unknown"), Some("valid")}
  }

  const VerificationSchemaError := ValidationError("DnsRecordVerification")

  /** Number of records whose `valid` is not "valid". */
  function InvalidCount(raws: seq<RawRecord>): (n: nat)
    ensures n <= |raws|
  {
    if raws == [] then 0
    else InvalidCount(raws[..|raws| - 1]) + (if raws[|raws| - 1].valid != Some("valid") then 1 else 0)
  }

  /** No record is invalid iff the invalid count is zero. */
  lemma {:induction false} InvalidCountZero(raws: seq<RawRecord>)
    ensures InvalidCount(raws) == 0 <==> forall i | 0 <= i < |raws| :: raws[i].valid == Some("valid")
  {
    if raws != [] {
      var init := raws[..|raws| - 1];
      InvalidCountZero(init);
      assert forall i | 0 <= i < |init| :: init[i] == raws[i];
    }
  }

  /** The counting loop of `verify_domain_on_eds`. */
  method CountInvalid(raws: seq<RawRecord>) returns (count: nat)
    ensures count == InvalidCount(raws)
    ensures count == 0 <==> forall i | 0 <= i < |raws| :: raws[i].valid == Some("valid")
  {
    count := 0;
    var i := 0;
    while i < |raws|
      invariant 0 <= i <= |raws|
      invariant count == InvalidCount(raws[..i])
    {
      assert raws[..i + 1][..i] == raws[..i];
      if raws[i].valid != Some("valid") {
        count := count + 1;
      }
      i := i + 1;
    }
    assert raws[..i] == raws;
    InvalidCountZero(raws);
  }

  /** What `verify_domain_on_eds` makes of the verification response. */
  function VerifyResult(response: HttpReply): Result<bool>
  {
    if response.status != 200 then Ok(false)
    else match response.sending
      case None => Err(MissingSending)
      case Some(sx) =>
        if exists i | 0 <= i < |sx| :: !Checkable(sx[i]) then Err(VerificationSchemaError)
        else match response.receiving
          case None => Err(MissingReceiving)
          case Some(rx) =>
            if exists i | 0 <= i < |rx| :: !Checkable(rx[i]) then Err(VerificationSchemaError)
            else Ok(InvalidCount(sx + rx) == 0)
  }

  /**
   * A non-200 answer is "not verified"; a 200 answer with well-formed
   * lists is "verified" iff every sending and receiving record is "valid",
   * which holds in particular when both lists are empty.
   */
  lemma VerifyResultMeaning(response: HttpReply)
    ensures response.status != 200 ==> VerifyResult(response) == Ok(false)
    ensures response.status == 200 && VerifyResult(response).Ok? ==>
              && response.sending.Some? && response.receiving.Some?
              && (VerifyResult(response).value <==>
                    forall rec | rec in response.sending.value + response.receiving.value :: rec.valid == Some("valid"))
  {
    if response.status == 200 && VerifyResult(response).Ok? {
      var all := response.sending.value + response.receiving.value;
      InvalidCountZero(all);
      assert (forall i | 0 <= i < |all| :: all[i].valid == Some("valid")) <==> (forall rec | rec in all :: rec.valid == Some("valid"));
    }
  }

  /** `verify_domain_on_eds`: ask Mailgun to verify `domain` and count the records not yet valid. */
  method VerifyDomainOnEds(client: MailgunClient, domain: string) returns (r: Result<bool>)
    modifies client
    ensures client.requests == old(client.requests) + [VerifyDomain(domain)]
    ensures r == VerifyResult(client.reply(|old(client.requests)|))
  {
    var response := client.Send(VerifyDomain(domain));
    if response.status != 200 {
      return Ok(false);
    }
    if response.sending.None? {
      return Err(MissingSending);
    }
    var sx := response.sending.value;
    if exists i | 0 <= i < |sx| :: !Checkable(sx[i]) {
      return Err(VerificationSchemaError);
    }
    if response.receiving.None? {
      return Err(MissingReceiving);
    }
    var rx := response.receiving.value;
    if exists i | 0 <= i < |rx| :: !Checkable(rx[i]) {
      return Err(VerificationSchemaError);
    }
    var invalidRecordCount := CountInvalid(sx + rx);
    return Ok(invalidRecordCount == 0);
  }
}
