/**
 * services/email_service/email_service_provider.py: `EmailServiceProvider`,
 * which hands out one email service per inbox id and builds it on first use.
 *
 * The factory `build_email_service` is abstracted: a built service records
 * the inbox id it serves and a serial number, the count of builds before it,
 * which stands for the identity of the new object. The provider also keeps
 * a log of the ids the factory was called for, so that "built at most once"
 * can be stated.
 */
module ServiceProvider {
  /** A service the factory built for one inbox; `serial` tells builds apart. */
  datatype EmailService = EmailService(inboxId: string, serial: nat)

  /** The provider's state: the `email_services` dictionary and the factory's call log. */
  datatype Cache = Cache(services: map<string, EmailService>, builds: seq<string>)

  /** The ids in the log are distinct. */
  predicate NoDup(s: seq<string>)
  {
    forall i, j | 0 <= i < j < |s| :: s[i] != s[j]
  }

  /**
   * The invariant the provider keeps: the log has no repeats, an id is a
   * key exactly when the factory was called for it, and each cached
   * service is the one built for its key, numbered by its place in the log.
   */
  ghost predicate CacheValid(c: Cache)
  {
    && NoDup(c.builds)
    && (forall id :: id in c.services <==> id in c.builds)
    && (forall i | 0 <= i < |c.builds| :: c.builds[i] in c.services && c.services[c.builds[i]] == EmailService(c.builds[i], i))
  }

  /**
   * `get`: on a miss the factory builds a service for the id, which is
   * stored under it; the stored entry is returned.
   */
  function GetStep(c: Cache, inboxId: string): (EmailService, Cache)
  {
    var c' := if inboxId in c.services then c
              else Cache(c.services[inboxId := EmailService(inboxId, |c.builds|)], c.builds + [inboxId]);
    (c'.services[inboxId], c')
  }

  /**
   * `get` calls the factory iff the id is not a key; afterwards the id is a
   * key, the result is its entry, and every other key and its value are
   * unchanged.
   */
  lemma GetStepEffect(c: Cache, inboxId: string)
    ensures var (s, c') := GetStep(c, inboxId);
            && inboxId in c'.services && s == c'.services[inboxId]
            && (inboxId in c.services <==> c'.builds == c.builds)
            && (inboxId !in c.services <==> c'.builds == c.builds + [inboxId])
            && (inboxId in c.services ==> s == c.services[inboxId])
            && c'.services.Keys == c.services.Keys + {inboxId}
            && (forall id | id in c.services && id != inboxId :: c'.services[id] == c.services[id])
  {
    var (s, c') := GetStep(c, inboxId);
    if inboxId !in c.services {
      assert |c'.builds| == |c.builds| + 1;
    }
  }

  /** `get` keeps the provider's invariant. */
  lemma GetStepValid(c: Cache, inboxId: string)
    requires CacheValid(c)
    ensures CacheValid(GetStep(c, inboxId).1)
  {
    var c' := GetStep(c, inboxId).1;
    if inboxId !in c.services {
      assert inboxId !in c.builds;
      forall i | 0 <= i < |c'.builds|
        ensures c'.builds[i] in c'.services && c'.services[c'.builds[i]] == EmailService(c'.builds[i], i)
      {
        if i < |c.builds| {
          assert c'.builds[i] == c.builds[i];
        }
      }
    }
  }

  /** A second `get` of the same id returns the same service and builds nothing. */
  lemma GetStepTwice(c: Cache, inboxId: string)
    ensures var (s1, c1) := GetStep(c, inboxId);
            var (s2, c2) := GetStep(c1, inboxId);
            s2 == s1 && c2 == c1
  {
  }

  /** A run of `get` calls, one per id, in order: the returned services and the final state. */
  function GetAll(c: Cache, ids: seq<string>): (seq<EmailService>, Cache)
  {
    if ids == [] then ([], c)
    else
      var (got, c1) := GetAll(c, ids[..|ids| - 1]);
      var (s, c2) := GetStep(c1, ids[|ids| - 1]);
      (got + [s], c2)
  }

  /**
   * Over any run of `get` calls from a valid state: the invariant holds at
   * the end, so the factory was called at most once per id; it was called
   * for exactly the ids that were new; and every call for the same id
   * returned the same service.
   */
  lemma {:induction false} GetAllBuildsOnce(c: Cache, ids: seq<string>)
    requires CacheValid(c)
    ensures var (got, c') := GetAll(c, ids);
            && CacheValid(c') && NoDup(c'.builds)
            && |got| == |ids|
            && c.builds <= c'.builds
            && (forall id :: id in c'.builds <==> id in c.builds || id in ids)
            && (forall i | 0 <= i < |ids| :: got[i] == c'.services[ids[i]])
  {
    if ids != [] {
      var init := ids[..|ids| - 1];
      var id := ids[|ids| - 1];
      GetAllBuildsOnce(c, init);
      var (got, c1) := GetAll(c, init);
      GetStepValid(c1, id);
      GetStepEffect(c1, id);
      var (s, c2) := GetStep(c1, id);
      forall i | 0 <= i < |ids|
        ensures (got + [s])[i] == c2.services[ids[i]]
      {
        if i < |init| {
          assert ids[i] == init[i] && (got + [s])[i] == got[i];
          assert got[i] == c1.services[init[i]];
          assert init[i] in c1.services;
          assert c2.services[init[i]] == c1.services[init[i]];
        } else {
          assert i == |got|;
          assert (got + [s])[|got|] == s;
        }
      }
    }
  }

  class EmailServiceProvider {
    var services: map<string, EmailService>
    var builds: seq<string>

    function State(): Cache
      reads this
    {
      Cache(services, builds)
    }

    ghost predicate Valid()
      reads this
    {
      CacheValid(State())
    }

    constructor ()
      ensures Valid() && services == map[] && builds == []
    {
      services := map[];
      builds := [];
    }

    /** `build_email_service`: a new service for the id, logged. */
    method Build(inboxId: string) returns (s: EmailService)
      modifies this
      ensures s == EmailService(inboxId, |old(builds)|)
      ensures builds == old(builds) + [inboxId] && services == old(services)
    {
      s := EmailService(inboxId, |builds|);
      builds := builds + [inboxId];
    }

    method Get(inboxId: string) returns (s: EmailService)
      requires Valid()
      modifies this
      ensures Valid()
      ensures (s, State()) == GetStep(old(State()), inboxId)
    {
      GetStepValid(State(), inboxId);
      if inboxId !in services {
        var built := Build(inboxId);
        services := services[inboxId := built];
      }
      s := services[inboxId];
    }
  }

  /** Two calls of `get` with the same id return the same service, with at most one build between them. */
  method RepeatedGet(p: EmailServiceProvider, inboxId: string) returns (first: EmailService, second: EmailService)
    requires p.Valid()
    modifies p
    ensures p.Valid() && first == second
    ensures p.builds == old(p.builds) || p.builds == old(p.builds) + [inboxId]
  {
    first := p.Get(inboxId);
    GetStepEffect(old(p.State()), inboxId);
    second := p.Get(inboxId);
    GetStepTwice(old(p.State()), inboxId);
  }
}
