/**
 * adapters/dns/porkbun_wrapper/domain_management.py: the Porkbun DNS
 * adapter's record logic over an abstract HTTP client.
 *
 * The client (client.py) is a `PorkbunClient` class here that records every
 * request it is sent and answers from an oracle indexed by the request's
 * position: whether the status was 200, and for a retrieval the records
 * listed (client.py already turns a non-200 retrieval into an empty list).
 */
module Porkbun {
  import opened Common

  /** A record as Porkbun lists it: its id and fully qualified name, type and content. */
  datatype HostedRecord = HostedRecord(id: string, name: string, recordType: string, content: string)

  /** The three requests the adapter sends. */
  datatype Request =
    | CreateRecord(domain: string, recordType: RecordType, value: string, name: string, priority: Option<int>)
    | Retrieve(domain: string)
    | DeleteById(domain: string, id: string)

  /** The client's answer to one request. */
  datatype Reply = Reply(ok: bool, records: seq<HostedRecord>)

  class PorkbunClient {
    var requests: seq<Request>
    const reply: nat -> Reply

    constructor (reply: nat -> Reply)
      ensures requests == [] && this.reply == reply
    {
      requests := [];
      this.reply := reply;
    }

    /** `create_dns_record`: true iff the status was 200. */
    method CreateDnsRecord(domain: string, recordType: RecordType, value: string, name: string, priority: Option<int>)
      returns (ok: bool)
      modifies this
      ensures requests == old(requests) + [CreateRecord(domain, recordType, value, name, priority)]
      ensures ok == reply(|old(requests)|).ok
    {
      ok := reply(|requests|).ok;
      requests := requests + [CreateRecord(domain, recordType, value, name, priority)];
    }

    /** `get_dns_records`. */
    method GetDnsRecords(domain: string) returns (records: seq<HostedRecord>)
      modifies this
      ensures requests == old(requests) + [Retrieve(domain)]
      ensures records == reply(|old(requests)|).records
    {
      records := reply(|requests|).records;
      requests := requests + [Retrieve(domain)];
    }

    /** `delete_dns_record`: true iff the status was 200. */
    method DeleteDnsRecord(domain: string, id: string) returns (ok: bool)
      modifies this
      ensures requests == old(requests) + [DeleteById(domain, id)]
      ensures ok == reply(|old(requests)|).ok
    {
      ok := reply(|requests|).ok;
      requests := requests + [DeleteById(domain, id)];
    }
  }

  predicate EndsWith(s: string, suffix: string)
  {
    |suffix| <= |s| && s[|s| - |suffix|..] == suffix
  }

  /** Python's `s.rstrip(c)` for one character. */
  function RStrip(s: string, c: char): (r: string)
    ensures |r| <= |s| && r == s[..|r|]
    ensures r == [] || r[|r| - 1] != c
    ensures forall i | |r| <= i < |s| :: s[i] == c
  {
    if s == [] || s[|s| - 1] != c then s else RStrip(s[..|s| - 1], c)
  }

  /**
   * `_extract_subdomain`: a name that does not end with the domain is kept;
   * otherwise the domain suffix is cut off and trailing dots are stripped.
   * Python's `full_name[:-0]` is empty, so an empty domain yields "".
   */
  function ExtractSubdomain(fullName: string, domain: string): (r: string)
    ensures !EndsWith(fullName, domain) ==> r == fullName
    ensures EndsWith(fullName, domain) ==> r == [] || r[|r| - 1] != '.'
    ensures EndsWith(fullName, domain) ==> |r| <= |fullName|
    ensures fullName == domain ==> r == ""
    ensures EndsWith(fullName, domain) && domain == "" ==> r == ""
    ensures EndsWith(fullName, domain) && domain != "" ==>
      var remaining := fullName[..|fullName| - |domain|];
      |r| <= |remaining| && r == remaining[..|r|] && forall i | |r| <= i < |remaining| :: remaining[i] == '.'
  {
    if !EndsWith(fullName, domain) then fullName
    else
      var remaining := if |domain| == 0 then "" else fullName[..|fullName| - |domain|];
      RStrip(remaining, '.')
  }

  /** The name a record is sent with is the label part before the domain. */
  lemma ExtractSubdomainOfQualified(sub: string, domain: string)
    requires domain != "" && (sub == "" || sub[|sub| - 1] != '.')
    ensures ExtractSubdomain(sub + "." + domain, domain) == sub
  {
    var full := sub + "." + domain;
    assert full[|full| - |domain|..] == domain;
    assert full[..|full| - |domain|] == sub + ".";
    assert (sub + ".")[..|sub|] == sub;
  }

  /** The create request for one record: its extracted name, with type, value and priority copied. */
  function CreateRequest(domain: string, rec: DnsRecord): Request
  {
    CreateRecord(domain, rec.recordType, rec.value, ExtractSubdomain(rec.name, domain), rec.priority)
  }

  function CreateRequests(domain: string, records: seq<DnsRecord>): (rs: seq<Request>)
    ensures |rs| == |records|
  {
    if records == [] then []
    else CreateRequests(domain, records[..|records| - 1]) + [CreateRequest(domain, records[|records| - 1])]
  }

  /** The i-th create request is for the i-th record. */
  lemma {:induction false} CreateRequestsAt(domain: string, records: seq<DnsRecord>)
    ensures forall i | 0 <= i < |records| :: CreateRequests(domain, records)[i] == CreateRequest(domain, records[i])
  {
    if records != [] {
      CreateRequestsAt(domain, records[..|records| - 1]);
    }
  }

  /** How many of the `n` requests from position `k` on got a 200. */
  function Successes(reply: nat -> Reply, k: nat, n: nat): (c: nat)
    ensures c <= n
  {
    if n == 0 then 0 else Successes(reply, k, n - 1) + (if reply(k + n - 1).ok then 1 else 0)
  }

  /** Every one of the `n` requests from position `k` on got a 200. */
  predicate AllOk(reply: nat -> Reply, k: nat, n: nat)
  {
    forall j: nat | k <= j < k + n :: reply(j).ok
  }

  lemma AllOkStep(reply: nat -> Reply, k: nat, n: nat)
    ensures AllOk(reply, k, n + 1) <==> AllOk(reply, k, n) && reply(k + n).ok
  {
  }

  /** All `n` succeeded iff the success count is `n`. */
  lemma {:induction false} SuccessesAll(reply: nat -> Reply, k: nat, n: nat)
    ensures Successes(reply, k, n) == n <==> AllOk(reply, k, n)
  {
    if n > 0 {
      SuccessesAll(reply, k, n - 1);
      if !reply(k + n - 1).ok {
        assert Successes(reply, k, n - 1) <= n - 1;
      }
    }
  }

  /** The records whose name ends with `suffix`, in listing order. */
  function Matching(records: seq<HostedRecord>, suffix: string): (ms: seq<HostedRecord>)
    ensures |ms| <= |records|
  {
    if records == [] then []
    else
      var last := records[|records| - 1];
      Matching(records[..|records| - 1], suffix) + if EndsWith(last.name, suffix) then [last] else []
  }

  /** The records deleted are exactly the listed ones whose name ends with the suffix. */
  lemma {:induction false} MatchingMembers(records: seq<HostedRecord>, suffix: string)
    ensures forall r :: r in Matching(records, suffix) <==> r in records && EndsWith(r.name, suffix)
  {
    if records != [] {
      var init := records[..|records| - 1];
      MatchingMembers(init, suffix);
      assert records == init + [records[|records| - 1]];
    }
  }

  function DeleteRequests(domain: string, targets: seq<HostedRecord>): (rs: seq<Request>)
    ensures |rs| == |targets|
  {
    if targets == [] then []
    else DeleteRequests(domain, targets[..|targets| - 1]) + [DeleteById(domain, targets[|targets| - 1].id)]
  }

  /** The i-th delete request is for the i-th target's id. */
  lemma {:induction false} DeleteRequestsAt(domain: string, targets: seq<HostedRecord>)
    ensures forall i | 0 <= i < |targets| :: DeleteRequests(domain, targets)[i] == DeleteById(domain, targets[i].id)
  {
    if targets != [] {
      DeleteRequestsAt(domain, targets[..|targets| - 1]);
    }
  }

  /** Some listed record has exactly the name `name`. */
  function AnyNamed(records: seq<HostedRecord>, name: string): (b: bool)
    ensures b <==> exists i | 0 <= i < |records| :: records[i].name == name
  {
    if records == [] then false
    else records[0].name == name || AnyNamed(records[1..], name)
  }

  /**
   * `create_dns_records`: one create request per record, in order, with no
   * early exit; true iff every request succeeded (so true for no records).
   */
  method CreateDnsRecords(client: PorkbunClient, domain: string, subdomain: string, records: seq<DnsRecord>)
    returns (ok: bool)
    modifies client
    ensures client.requests == old(client.requests) + CreateRequests(domain, records)
    ensures ok <==> AllOk(client.reply, |old(client.requests)|, |records|)
  {
    ghost var k := |client.requests|;
    var recordsCreated := 0;
    var i := 0;
    while i < |records|
      invariant 0 <= i <= |records|
      invariant client.requests == old(client.requests) + CreateRequests(domain, records[..i])
      invariant recordsCreated == Successes(client.reply, k, i)
    {
      assert records[..i + 1][..i] == records[..i];
      assert CreateRequests(domain, records[..i + 1]) == CreateRequests(domain, records[..i]) + [CreateRequest(domain, records[i])];
      var name := ExtractSubdomain(records[i].name, domain);
      var success := client.CreateDnsRecord(domain, records[i].recordType, records[i].value, name, records[i].priority);
      AppendAssoc(old(client.requests), CreateRequests(domain, records[..i]), [CreateRequest(domain, records[i])]);
      if success {
        recordsCreated := recordsCreated + 1;
      }
      i := i + 1;
    }
    assert records[..i] == records;
    SuccessesAll(client.reply, k, |records|);
    ok := recordsCreated == |records|;
  }

  lemma MatchingSnoc(records: seq<HostedRecord>, r: HostedRecord, suffix: string)
    ensures Matching(records + [r], suffix) == Matching(records, suffix) + (if EndsWith(r.name, suffix) then [r] else [])
  {
    assert (records + [r])[..|records|] == records;
  }

  lemma DeleteRequestsSnoc(domain: string, targets: seq<HostedRecord>, t: HostedRecord)
    ensures DeleteRequests(domain, targets + [t]) == DeleteRequests(domain, targets) + [DeleteById(domain, t.id)]
  {
    assert (targets + [t])[..|targets|] == targets;
  }

  /**
   * One turn of the deletion loop: a delete is sent iff the record's name
   * ends with the suffix; the requests and the all-succeeded flag move from
   * the records seen so far to those plus `rec`.
   */
  method DeleteIfMatching(client: PorkbunClient, domain: string, suffix: string, rec: HostedRecord,
                          ghost start: seq<Request>, ghost seen: seq<HostedRecord>)
    returns (success: bool)
    requires client.requests == start + DeleteRequests(domain, Matching(seen, suffix))
    modifies client
    ensures client.requests == start + DeleteRequests(domain, Matching(seen + [rec], suffix))
    ensures AllOk(client.reply, |start|, |Matching(seen + [rec], suffix)|) <==>
              AllOk(client.reply, |start|, |Matching(seen, suffix)|) && success
  {
    ghost var done := Matching(seen, suffix);
    MatchingSnoc(seen, rec, suffix);
    AllOkStep(client.reply, |start|, |done|);
    success := true;
    if EndsWith(rec.name, suffix) {
      DeleteRequestsSnoc(domain, done, rec);
      success := client.DeleteDnsRecord(domain, rec.id);
    } else {
      assert done + [] == done;
    }
  }

  /**
   * `delete_dns_records`: list the domain's records, send a delete for
   * exactly those whose name ends with "subdomain.domain", in listing order,
   * and return false iff some delete failed.
   */
  method DeleteDnsRecords(client: PorkbunClient, domain: string, subdomain: string) returns (ok: bool)
    modifies client
    ensures var k := |old(client.requests)|;
            var targets := Matching(client.reply(k).records, subdomain + "." + domain);
            && client.requests == old(client.requests) + [Retrieve(domain)] + DeleteRequests(domain, targets)
            && (ok <==> AllOk(client.reply, k + 1, |targets|))
  {
    var listed := client.GetDnsRecords(domain);
    ghost var start := client.requests;
    var suffix := subdomain + "." + domain;
    var failureRecorded := false;
    var i := 0;
    while i < |listed|
      invariant 0 <= i <= |listed|
      invariant client.requests == start + DeleteRequests(domain, Matching(listed[..i], suffix))
      invariant failureRecorded <==> !AllOk(client.reply, |start|, |Matching(listed[..i], suffix)|)
    {
      assert listed[..i + 1] == listed[..i] + [listed[i]];
      var success := DeleteIfMatching(client, domain, suffix, listed[i], start, listed[..i]);
      if !success {
        failureRecorded := true;
      }
      i := i + 1;
    }
    assert listed[..i] == listed;
    ok := !failureRecorded;
  }

  /** `exists_dns_records`: true iff a listed record is named exactly "subdomain.domain". */
  method ExistsDnsRecords(client: PorkbunClient, domain: string, subdomain: string) returns (found: bool)
    modifies client
    ensures client.requests == old(client.requests) + [Retrieve(domain)]
    ensures found <==> exists r | r in client.reply(|old(client.requests)|).records :: r.name == subdomain + "." + domain
  {
    var listed := client.GetDnsRecords(domain);
    found := AnyNamed(listed, subdomain + "." + domain);
  }
}
