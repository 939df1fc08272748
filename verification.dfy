/**
 * services/domain_service/dns_verifier.py: the verification registry.
 *
 * A map from domain name to `PendingDomain`, kept in the insertion order of
 * the Python dict, and a periodic cycle that rechecks every eligible PENDING
 * domain with the email-delivery provider under exponential backoff.
 *
 * Time is an integer number of seconds passed into each operation; the
 * provider's answers for one cycle are an oracle from domain to answer; the
 * timer, the lock and the sleep are replaced by the `armed` flag and one
 * method call per cycle. Callbacks are opaque values of type `C`; every
 * attempted callback call is returned as an `Invocation` (its exceptions are
 * caught by the source, so a call never affects the state or the rest of
 * the cycle).
 */
module Verification {
  import opened Common

  datatype Status = Pending | Verified | Failed | Expired

  /** Attempt counts: they start at 1 and only ever grow. */
  type Positive = n: int | n >= 1 witness 1

  /** `max_completion_time` default: ten minutes. */
  const DefaultMaxCompletionTime: int := 600
  const BaseDelay: nat := 30
  const MaxDelay: nat := 300
  const DefaultCheckInterval: int := 10

  const VerificationFailedMessage: string := "Domain verification failed"
  const ShutdownMessage: string := "DNS verifier shutting down"
  /** The two statuses `get_domain_status` reports. */
  const VerifiedText: string := "verified"
  const PendingText: string := "pending"
  /** The beginnings of the two messages the error callback is given. */
  const ExpiredPrefix: string := "Domain verification expired for "
  const FailedPrefix: string := "Domain verification failed for "

  datatype PendingDomain<C> = PendingDomain(
    domain: string,
    createdAt: int,
    lastAttempt: int,
    attempts: Positive,
    maxCompletionTime: int,
    completion: Option<C>,
    error: Option<C>,
    status: Status,
    lastError: Option<string>)

  /** One attempted callback call with its arguments. */
  datatype Invocation<C> = Invocation(callback: C, args: seq<string>)

  /** What `email_delivery.verify_domain` did; `Raised` is an exception. */
  datatype VerifyOutcome = Confirmed | NotConfirmed | Raised(message: string)

  /**
   * The provider's reply for one domain in one cycle, with the clock reading
   * taken just after it (the `datetime.now()` of the second `should_retry`).
   */
  datatype ProviderAnswer = ProviderAnswer(outcome: VerifyOutcome, clockAfter: int)

  type Entries<C> = map<string, PendingDomain<C>>

  /** The registry's state: the dict's keys in insertion order and its entries. */
  datatype Registry<C> = Registry(order: seq<string>, entries: Entries<C>)

  predicate NoDup(s: seq<string>)
  {
    forall i, j | 0 <= i < j < |s| :: s[i] != s[j]
  }

  lemma NoDupCons(x: string, t: seq<string>)
    requires x !in t && NoDup(t)
    ensures NoDup([x] + t)
  {
    var s := [x] + t;
    forall i, j | 0 <= i < j < |s| ensures s[i] != s[j] {
      assert s[j] == t[j - 1];
      if i > 0 { assert s[i] == t[i - 1]; }
    }
  }

  lemma NoDupAppend(t: seq<string>, x: string)
    requires x !in t && NoDup(t)
    ensures NoDup(t + [x])
  {
  }

  /** At most one entry per domain, listed once in `order`, keyed by its own name. */
  predicate Wf<C>(r: Registry<C>)
  {
    && NoDup(r.order)
    && (forall d | d in r.order :: d in r.entries)
    && (forall d | d in r.entries :: d in r.order)
    && (forall d | d in r.entries :: r.entries[d].domain == d)
  }

  function Pow(b: nat, e: nat): (p: nat)
    ensures p >= 1 || b == 0
  {
    if e == 0 then 1 else b * Pow(b, e - 1)
  }

  lemma {:induction false} PowGrowth(k: nat)
    ensures Pow(3, k) >= Pow(2, k)
    ensures k >= 6 ==> Pow(3, k) >= 10 * Pow(2, k)
  {
    if k > 0 {
      PowGrowth(k - 1);
      if k == 6 {
        assert Pow(3, 6) == 729 && Pow(2, 6) == 64;
      }
    }
  }

  /** `base_delay * 1.5 ** k` rounded down, in exact arithmetic. */
  function RawDelay(k: nat): nat
  {
    BaseDelay * Pow(3, k) / Pow(2, k)
  }

  lemma {:induction false} MulMono(a: nat, b: nat, c: nat)
    ensures a <= b ==> a * c <= b * c
  {
    if c > 0 {
      MulMono(a, b, c - 1);
      assert a * c == a * (c - 1) + a;
      assert b * c == b * (c - 1) + b;
    }
  }

  lemma DivAtLeast(q: nat, n: nat, d: nat)
    requires d > 0 && q * d <= n
    ensures q <= n / d
  {
    var r, m := n / d, n % d;
    assert n == r * d + m && m < d;
    MulMono(r + 1, q, d);
    assert (r + 1) * d == r * d + d;
  }

  /** The quotient times the divisor does not exceed the dividend. */
  lemma DivBound(x: nat, y: nat)
    requires y > 0
    ensures (x / y) * y <= x
  {
  }

  /** From `q * y <= x` follows `q * (2 * y) <= 3 * x`. */
  lemma DoubleBound(q: nat, y: nat, x: nat)
    requires q * y <= x
    ensures q * (2 * y) <= 3 * x
  {
    assert q * (2 * y) == 2 * (q * y);
  }

  /** Multiplying by 1.5 never lowers the rounded-down delay. */
  lemma RawDelayStep(k: nat)
    ensures RawDelay(k) <= RawDelay(k + 1)
  {
    var x, y := BaseDelay * Pow(3, k), Pow(2, k);
    PowGrowth(k);
    var q := x / y;
    DivBound(x, y);
    assert BaseDelay * Pow(3, k + 1) == 3 * x;
    assert Pow(2, k + 1) == 2 * y;
    DoubleBound(q, y, x);
    DivAtLeast(q, 3 * x, 2 * y);
  }

  /**
   * `get_next_delay`: `int(min(30 * 1.5 ** (attempts - 1), 300))`, which is
   * exact in floating point for every value below the cap.
   */
  function NextDelay(attempts: Positive): (d: nat)
    ensures BaseDelay <= d <= MaxDelay
    ensures attempts == 1 ==> d == BaseDelay
    ensures attempts >= 7 ==> d == MaxDelay
  {
    var k := attempts - 1;
    PowGrowth(k);
    DivAtLeast(BaseDelay, BaseDelay * Pow(3, k), Pow(2, k));
    if k >= 6 then DivAtLeast(MaxDelay, BaseDelay * Pow(3, k), Pow(2, k)); MaxDelay
    else if RawDelay(k) < MaxDelay then RawDelay(k) else MaxDelay
  }

  /**
   * `should_retry`: a non-PENDING entry is never retried and not touched; a
   * PENDING entry older than `max_completion_time` since its LAST ATTEMPT
   * becomes EXPIRED; only the status can change, and only to EXPIRED.
   */
  function ShouldRetry<C>(e: PendingDomain<C>, now: int): (r: (bool, PendingDomain<C>))
    ensures r.0 <==> e.status == Pending && now - e.lastAttempt <= e.maxCompletionTime
    ensures r.1 == e.(status := r.1.status)
    ensures r.1.status == (if e.status == Pending && !r.0 then Expired else e.status)
  {
    if e.status != Pending then (false, e)
    else if now - e.lastAttempt > e.maxCompletionTime then (false, e.(status := Expired))
    else (true, e)
  }

  /** Picked for a check in this cycle (line 171 and line 178). */
  predicate Eligible<C>(e: PendingDomain<C>, now: int)
  {
    ShouldRetry(e, now).0 && now - e.lastAttempt >= NextDelay(e.attempts)
  }

  /** A fresh `PendingDomain(domain=..., completion_function=..., error_function=...)`. */
  function NewEntry<C>(domain: string, completion: Option<C>, error: Option<C>, now: int): (e: PendingDomain<C>)
    ensures e.domain == domain && e.status == Pending && e.attempts == 1
    ensures e.createdAt == now && e.lastAttempt == now && e.lastError == None
    ensures e.completion == completion && e.error == error
    ensures e.maxCompletionTime == DefaultMaxCompletionTime
  {
    PendingDomain(domain, now, now, 1, DefaultMaxCompletionTime, completion, error, Pending, None)
  }

  /** The rejection test of line 86: only VERIFIED and FAILED are "already processed". */
  predicate Resolved(s: Status)
  {
    s == Verified || s == Failed
  }

  /**
   * `add_pending_dns_verification`: an unknown domain gets exactly one new
   * PENDING entry (appended to the dict order); a VERIFIED or FAILED entry
   * makes the call return false and changes nothing; any other existing
   * entry, EXPIRED included, keeps everything but has its callbacks replaced
   * by the ones given (a None leaves the old one).
   */
  function Register<C>(r: Registry<C>, domain: string, completion: Option<C>, error: Option<C>, now: int): (out: (bool, Registry<C>))
    ensures Wf(r) ==> Wf(out.1)
    ensures out.0 <==> !(domain in r.entries && Resolved(r.entries[domain].status))
    ensures out.1.entries.Keys == r.entries.Keys + {domain}
    ensures forall d | d in r.entries && d != domain :: out.1.entries[d] == r.entries[d]
    ensures domain !in r.entries ==>
      out.1.order == r.order + [domain] && out.1.entries[domain] == NewEntry(domain, completion, error, now)
    ensures domain in r.entries ==> out.1.order == r.order
    ensures domain in r.entries && !out.0 ==> out.1 == r
    ensures domain in r.entries && out.0 ==>
      var (old_, new_) := (r.entries[domain], out.1.entries[domain]);
      && new_ == old_.(completion := new_.completion, error := new_.error)
      && new_.completion == (if completion.Some? then completion else old_.completion)
      && new_.error == (if error.Some? then error else old_.error)
  {
    if domain in r.entries then
      var existing := r.entries[domain];
      if Resolved(existing.status) then (false, r)
      else
        var updated := existing.(
          completion := if completion.Some? then completion else existing.completion,
          error := if error.Some? then error else existing.error);
        (true, r.(entries := r.entries[domain := updated]))
    else
      (true, Registry(r.order + [domain], r.entries[domain := NewEntry(domain, completion, error, now)]))
  }

  /** `s` with every occurrence of `d` removed. */
  function Without(s: seq<string>, d: string): (t: seq<string>)
    ensures forall x :: x in t <==> x in s && x != d
    ensures NoDup(s) ==> NoDup(t)
  {
    if s == [] then []
    else if s[0] == d then Without(s[1..], d)
    else
      var rest := Without(s[1..], d);
      if NoDup(s) then
        assert s[0] !in s[1..];
        NoDupCons(s[0], rest);
        [s[0]] + rest
      else [s[0]] + rest
  }

  /**
   * `remove_domain`: true iff the domain was present; afterwards it is absent
   * and every other entry is as it was.
   */
  function Remove<C>(r: Registry<C>, domain: string): (out: (bool, Registry<C>))
    ensures Wf(r) ==> Wf(out.1)
    ensures out.0 <==> domain in r.entries
    ensures out.1.entries == r.entries - {domain}
    ensures domain !in r.entries && Wf(r) ==> out.1 == r
  {
    if domain in r.entries then (true, Registry(Without(r.order, domain), r.entries - {domain}))
    else (false, r)
  }

  /**
   * `get_domain_status`: None iff the domain is unknown, "verified" iff its
   * entry is VERIFIED, and "pending" for PENDING, FAILED and EXPIRED alike.
   */
  function DomainStatus<C>(r: Registry<C>, domain: string): (s: Option<string>)
    ensures s.None? <==> domain !in r.entries
    ensures s == Some(VerifiedText) <==> domain in r.entries && r.entries[domain].status == Verified
    ensures s.Some? ==> s == Some(VerifiedText) || s == Some(PendingText)
  {
    if domain in r.entries then
      Some(if r.entries[domain].status == Verified then VerifiedText else PendingText)
    else None
  }

  /**
   * The collection loop of `_verify_domains` over the first |ds| keys: each
   * is passed through `should_retry` (possibly marking it EXPIRED) and kept
   * when its backoff delay has elapsed.
   */
  function Collect<C>(ds: seq<string>, m: Entries<C>, now: int): (out: (Entries<C>, seq<string>))
    requires forall d | d in ds :: d in m
    ensures out.0.Keys == m.Keys
    ensures forall d | d in out.0 :: out.0[d].domain == m[d].domain
    ensures forall d | d in out.1 :: d in ds
    decreases |ds|
  {
    if ds == [] then (m, [])
    else
      var d := ds[|ds| - 1];
      var prior := Collect(ds[..|ds| - 1], m, now);
      var (retry, e) := ShouldRetry(prior.0[d], now);
      var due := retry && now - e.lastAttempt >= NextDelay(e.attempts);
      (prior.0[d := e], if due then prior.1 + [d] else prior.1)
  }

  /** Collecting over one more domain: the step the loop of `_verify_domains` takes. */
  lemma CollectSnoc<C>(ds: seq<string>, d: string, m: Entries<C>, now: int)
    requires forall x | x in ds + [d] :: x in m
    ensures forall x | x in ds :: x in m
    ensures var prior := Collect(ds, m, now).0;
            Collect(ds + [d], m, now).0 == prior[d := ShouldRetry(prior[d], now).1]
    ensures var prior := Collect(ds, m, now);
            var r := ShouldRetry(prior.0[d], now);
            Collect(ds + [d], m, now).1 == if r.0 && now - r.1.lastAttempt >= NextDelay(r.1.attempts) then prior.1 + [d] else prior.1
  {
    assert forall x | x in ds :: x in ds + [d];
    assert (ds + [d])[..|ds|] == ds;
  }

  /** One turn of the loop of lines 169-179: `should_retry`, then keep the domain if its delay has elapsed. */
  method CollectOne<C>(m: Entries<C>, due: seq<string>, d: string, now: int) returns (m': Entries<C>, due': seq<string>)
    requires d in m
    ensures var r := ShouldRetry(m[d], now);
            && m' == m[d := r.1]
            && due' == if r.0 && now - r.1.lastAttempt >= NextDelay(r.1.attempts) then due + [d] else due
  {
    var (retry, e) := ShouldRetry(m[d], now);
    m' := m[d := e];
    due' := due;
    if retry && now - e.lastAttempt >= NextDelay(e.attempts) {
      due' := due + [d];
    }
  }

  /** The loop of lines 169-179 over the dictionary's domains, in order. */
  method CollectLoop<C>(ds: seq<string>, start: Entries<C>, now: int) returns (m: Entries<C>, due: seq<string>)
    requires forall d | d in ds :: d in start
    ensures (m, due) == Collect(ds, start, now)
  {
    m := start;
    due := [];
    var i := 0;
    while i < |ds|
      invariant 0 <= i <= |ds|
      invariant m == Collect(ds[..i], start, now).0
      invariant due == Collect(ds[..i], start, now).1
    {
      var d := ds[i];
      assert ds[..i + 1] == ds[..i] + [d];
      CollectSnoc(ds[..i], d, start, now);
      m, due := CollectOne(m, due, d, now);
      i := i + 1;
    }
    assert ds[..i] == ds;
  }

  /**
   * One check of one domain (lines 190-211): the attempt is counted and
   * stamped; a confirmation makes it VERIFIED; anything else (a refusal or,
   * through `_verify_dns_domain`, an exception) records the failure and
   * re-runs `should_retry` at the clock reading after the call. Returns the
   * new entry and whether the domain joins the completed or the failed list.
   */
  function Attempt<C>(e: PendingDomain<C>, now: int, answer: ProviderAnswer): (out: (PendingDomain<C>, bool, bool))
    ensures out.0.lastAttempt == now && out.0.attempts == e.attempts + 1
    ensures !(out.1 && out.2)
    ensures answer.outcome == Confirmed ==> out.0 == e.(lastAttempt := now, attempts := e.attempts + 1, status := Verified) && out.1
    ensures answer.outcome != Confirmed ==>
      && !out.1
      && out.0 == e.(lastAttempt := now, attempts := e.attempts + 1, lastError := Some(VerificationFailedMessage), status := out.0.status)
      && (e.status == Pending ==> (out.2 <==> answer.clockAfter - now > e.maxCompletionTime))
      && out.0.status == (if e.status == Pending && out.2 then Expired else e.status)
  {
    var tried := e.(lastAttempt := now, attempts := e.attempts + 1);
    if answer.outcome == Confirmed then (tried.(status := Verified), true, false)
    else
      var (retry, after) := ShouldRetry(tried.(lastError := Some(VerificationFailedMessage)), answer.clockAfter);
      (after, false, !retry)
  }

  /** The processing loop of `_verify_domains` over the domains `ds` picked for checking. */
  function Process<C>(ds: seq<string>, m: Entries<C>, now: int, provider: string -> ProviderAnswer)
    : (out: (Entries<C>, seq<string>, seq<string>))
    requires forall d | d in ds :: d in m
    ensures out.0.Keys == m.Keys
    ensures forall d | d in out.0 :: out.0[d].domain == m[d].domain
    ensures forall d | d in out.1 :: d in ds
    ensures forall d | d in out.2 :: d in ds
    decreases |ds|
  {
    if ds == [] then (m, [], [])
    else
      var d := ds[|ds| - 1];
      var prior := Process(ds[..|ds| - 1], m, now, provider);
      var (e, completed, failed) := Attempt(prior.0[d], now, provider(d));
      (prior.0[d := e],
       if completed then prior.1 + [d] else prior.1,
       if failed then prior.2 + [d] else prior.2)
  }

  /** The processing loop over `ds + [d]` is the loop over `ds` followed by the attempt on `d`. */
  lemma ProcessSnoc<C>(ds: seq<string>, d: string, m: Entries<C>, now: int, provider: string -> ProviderAnswer)
    requires forall x | x in ds + [d] :: x in m
    ensures forall x | x in ds :: x in m
    ensures var prior := Process(ds, m, now, provider);
            var a := Attempt(prior.0[d], now, provider(d));
            Process(ds + [d], m, now, provider) ==
              (prior.0[d := a.0], if a.1 then prior.1 + [d] else prior.1, if a.2 then prior.2 + [d] else prior.2)
  {
    assert forall x | x in ds :: x in ds + [d];
    assert (ds + [d])[..|ds|] == ds;
  }

  /** `_handle_completed_domains`: `completion_function(domain)` where one is set. */
  function CompletionCalls<C>(ds: seq<string>, m: Entries<C>): seq<Invocation<C>>
    requires forall d | d in ds :: d in m
    decreases |ds|
  {
    if ds == [] then []
    else
      var e := m[ds[|ds| - 1]];
      CompletionCalls(ds[..|ds| - 1], m) +
        match e.completion
        case Some(cb) => [Invocation(cb, [e.domain])]
        case None => []
  }

  /** Python's f-string rendering of `last_error`. */
  function ErrorText(lastError: Option<string>): string
  {
    match lastError
    case Some(s) => s
    case None => "None"
  }

  /** The message that `_handle_failed_domains` passes to the error callback. */
  function ErrorMessage<C>(e: PendingDomain<C>): string
  {
    if e.status == Expired then ExpiredPrefix + e.domain
    else FailedPrefix + e.domain + ": " + ErrorText(e.lastError)
  }

  /** `_handle_failed_domains`: `error_function(domain, message)` where one is set. */
  function ErrorCalls<C>(ds: seq<string>, m: Entries<C>): seq<Invocation<C>>
    requires forall d | d in ds :: d in m
    decreases |ds|
  {
    if ds == [] then []
    else
      var e := m[ds[|ds| - 1]];
      ErrorCalls(ds[..|ds| - 1], m) +
        match e.error
        case Some(cb) => [Invocation(cb, [e.domain, ErrorMessage(e)])]
        case None => []
  }

  /** What one cycle leaves behind: the new state, the domains asked, the callback calls made. */
  datatype CycleOutcome<C> = CycleOutcome(registry: Registry<C>, checked: seq<string>, calls: seq<Invocation<C>>)

  /** `_verify_domains`: collect, check, then dispatch completion and error callbacks. */
  function Cycle<C>(r: Registry<C>, now: int, provider: string -> ProviderAnswer): (out: CycleOutcome<C>)
    requires Wf(r)
    ensures Wf(out.registry)
    ensures out.registry.order == r.order
    ensures out.registry.entries.Keys == r.entries.Keys
  {
    var (collected, due) := Collect(r.order, r.entries, now);
    var (checked, completed, failed) := Process(due, collected, now, provider);
    CycleOutcome(Registry(r.order, checked), due, CompletionCalls(completed, checked) + ErrorCalls(failed, checked))
  }

  /** How many entries among the keys `ds` are PENDING. */
  function PendingAmong<C>(ds: seq<string>, m: Entries<C>): nat
    requires forall d | d in ds :: d in m
  {
    if ds == [] then 0
    else (if m[ds[0]].status == Pending then 1 else 0) + PendingAmong(ds[1..], m)
  }

  /** `pending_count` of `_verification_cycle`. */
  function PendingCount<C>(r: Registry<C>): nat
    requires Wf(r)
  {
    PendingAmong(r.order, r.entries)
  }

  /** The re-arm decision of lines 145-155. */
  predicate Rearm<C>(r: Registry<C>, shutdown: bool)
    requires Wf(r)
  {
    PendingCount(r) > 0 && !shutdown
  }

  /** `shutdown`: an error callback attempt, with ONE argument, for every PENDING entry that has one. */
  function ShutdownCalls<C>(ds: seq<string>, m: Entries<C>): seq<Invocation<C>>
    requires forall d | d in ds :: d in m
    decreases |ds|
  {
    if ds == [] then []
    else
      var e := m[ds[|ds| - 1]];
      ShutdownCalls(ds[..|ds| - 1], m) +
        if e.status == Pending && e.error.Some? then [Invocation(e.error.value, [ShutdownMessage])] else []
  }

  /** The body of the processing loop for one domain (lines 190-211). */
  method CheckDomain<C>(before: PendingDomain<C>, now: int, answer: ProviderAnswer)
    returns (pending: PendingDomain<C>, isCompleted: bool, isFailed: bool)
    ensures (pending, isCompleted, isFailed) == Attempt(before, now, answer)
  {
    pending := before.(lastAttempt := now, attempts := before.attempts + 1);
    isCompleted, isFailed := false, false;
    if answer.outcome == Confirmed {
      pending := pending.(status := Verified);
      isCompleted := true;
    } else {
      pending := pending.(lastError := Some(VerificationFailedMessage));
      var (retry, after) := ShouldRetry(pending, answer.clockAfter);
      pending := after;
      isFailed := !retry;
    }
  }

  /** One turn of the loop of lines 185-211: check `d` and list it as completed or failed. */
  method ProcessOne<C>(ds: seq<string>, d: string, start: Entries<C>, now: int, provider: string -> ProviderAnswer,
                       m: Entries<C>, completed: seq<string>, failed: seq<string>)
    returns (m': Entries<C>, completed': seq<string>, failed': seq<string>)
    requires forall x | x in ds + [d] :: x in start
    requires (m, completed, failed) == Process(ds, start, now, provider)
    ensures (m', completed', failed') == Process(ds + [d], start, now, provider)
  {
    ProcessSnoc(ds, d, start, now, provider);
    var pending, isCompleted, isFailed := CheckDomain(m[d], now, provider(d));
    m', completed', failed' := m[d := pending], completed, failed;
    if isCompleted {
      completed' := completed + [d];
    }
    if isFailed {
      failed' := failed + [d];
    }
  }

  /** The loop of lines 185-211 over the domains picked for checking, in order. */
  method ProcessLoop<C>(ds: seq<string>, start: Entries<C>, now: int, provider: string -> ProviderAnswer)
    returns (m: Entries<C>, completed: seq<string>, failed: seq<string>)
    requires forall d | d in ds :: d in start
    ensures (m, completed, failed) == Process(ds, start, now, provider)
  {
    m, completed, failed := start, [], [];
    var j := 0;
    while j < |ds|
      invariant 0 <= j <= |ds|
      invariant (m, completed, failed) == Process(ds[..j], start, now, provider)
    {
      assert ds[..j + 1] == ds[..j] + [ds[j]];
      m, completed, failed := ProcessOne(ds[..j], ds[j], start, now, provider, m, completed, failed);
      j := j + 1;
    }
    assert ds[..j] == ds;
  }

  /**
   * `DnsVerifier`: the registry's dict, the scheduling flag that stands for
   * `_verification_timer` being set and alive, and the `_shutdown` event.
   */
  class DnsVerifier<C> {
    var order: seq<string>
    var entries: Entries<C>
    var armed: bool
    var shutdownRequested: bool
    const checkInterval: int

    function State(): Registry<C>
      reads this
    {
      Registry(order, entries)
    }

    ghost predicate Valid()
      reads this
    {
      Wf(State())
    }

    constructor (checkInterval: int)
      ensures Valid()
      ensures State() == Registry([], map[])
      ensures !armed && !shutdownRequested && this.checkInterval == checkInterval
    {
      this.checkInterval := checkInterval;
      order, entries := [], map[];
      armed, shutdownRequested := false, false;
    }

    method GetDomainStatus(domain: string) returns (s: Option<string>)
      requires Valid()
      ensures s == DomainStatus(State(), domain)
    {
      if domain in entries {
        s := Some(if entries[domain].status == Verified then VerifiedText else PendingText);
      } else {
        s := None;
      }
    }

    /** `_ensure_verification_timer_running` with `_start_verification_timer`. */
    method EnsureTimerRunning()
      modifies this
      ensures State() == old(State()) && shutdownRequested == old(shutdownRequested)
      ensures armed == (old(armed) || !shutdownRequested)
    {
      if !armed && !shutdownRequested {
        armed := true;
      }
    }

    method AddPendingDnsVerification(domain: string, completion: Option<C>, error: Option<C>, now: int)
      returns (accepted: bool)
      requires Valid()
      modifies this
      ensures Valid()
      ensures (accepted, State()) == Register(old(State()), domain, completion, error, now)
      ensures shutdownRequested == old(shutdownRequested)
      ensures armed == (old(armed) || (domain !in old(entries) && !shutdownRequested))
    {
      if domain in entries {
        var existing := entries[domain];
        if existing.status == Verified || existing.status == Failed {
          return false;
        }
        if completion.Some? {
          existing := existing.(completion := completion);
        }
        if error.Some? {
          existing := existing.(error := error);
        }
        entries := entries[domain := existing];
        return true;
      }
      entries := entries[domain := NewEntry(domain, completion, error, now)];
      order := order + [domain];
      EnsureTimerRunning();
      accepted := true;
    }

    method RemoveDomain(domain: string) returns (removed: bool)
      requires Valid()
      modifies this
      ensures Valid()
      ensures (removed, State()) == Remove(old(State()), domain)
      ensures armed == old(armed) && shutdownRequested == old(shutdownRequested)
    {
      if domain in entries {
        entries := entries - {domain};
        order := Without(order, domain);
        return true;
      }
      return false;
    }

    /** The collection loop of `_verify_domains` (lines 169-179). */
    method CollectDue(now: int) returns (due: seq<string>)
      requires Valid()
      modifies this
      ensures Valid() && order == old(order)
      ensures (entries, due) == Collect(order, old(entries), now)
      ensures armed == old(armed) && shutdownRequested == old(shutdownRequested)
    {
      var m;
      m, due := CollectLoop(order, entries, now);
      entries := m;
    }

    /** The processing loop of `_verify_domains` (lines 185-211). */
    method ProcessDue(due: seq<string>, now: int, provider: string -> ProviderAnswer)
      returns (completed: seq<string>, failed: seq<string>)
      requires Valid() && forall d | d in due :: d in entries
      modifies this
      ensures Valid() && order == old(order)
      ensures (entries, completed, failed) == Process(due, old(entries), now, provider)
      ensures armed == old(armed) && shutdownRequested == old(shutdownRequested)
    {
      var m;
      m, completed, failed := ProcessLoop(due, entries, now, provider);
      entries := m;
    }

    /** `_handle_completed_domains`. */
    method HandleCompletedDomains(domains: seq<string>) returns (calls: seq<Invocation<C>>)
      requires forall d | d in domains :: d in entries
      ensures calls == CompletionCalls(domains, entries)
    {
      calls := [];
      var k := 0;
      while k < |domains|
        invariant 0 <= k <= |domains|
        invariant calls == CompletionCalls(domains[..k], entries)
      {
        assert domains[..k + 1][..k] == domains[..k];
        var pending := entries[domains[k]];
        if pending.completion.Some? {
          calls := calls + [Invocation(pending.completion.value, [pending.domain])];
        }
        k := k + 1;
      }
      assert domains[..k] == domains;
    }

    /** `_handle_failed_domains`. */
    method HandleFailedDomains(domains: seq<string>) returns (calls: seq<Invocation<C>>)
      requires forall d | d in domains :: d in entries
      ensures calls == ErrorCalls(domains, entries)
    {
      calls := [];
      var n := 0;
      while n < |domains|
        invariant 0 <= n <= |domains|
        invariant calls == ErrorCalls(domains[..n], entries)
      {
        assert domains[..n + 1][..n] == domains[..n];
        var pending := entries[domains[n]];
        var message := if pending.status == Expired
          then ExpiredPrefix + pending.domain
          else FailedPrefix + pending.domain + ": " + ErrorText(pending.lastError);
        if pending.error.Some? {
          calls := calls + [Invocation(pending.error.value, [pending.domain, message])];
        }
        n := n + 1;
      }
      assert domains[..n] == domains;
    }

    /**
     * `_verify_domains`: returns the domains asked, in order, and the
     * callback calls made, in order.
     */
    method VerifyDomains(now: int, provider: string -> ProviderAnswer)
      returns (checked: seq<string>, calls: seq<Invocation<C>>)
      requires Valid()
      modifies this
      ensures Valid()
      ensures CycleOutcome(State(), checked, calls) == Cycle(old(State()), now, provider)
      ensures armed == old(armed) && shutdownRequested == old(shutdownRequested)
    {
      checked := CollectDue(now);
      var completed, failed := ProcessDue(checked, now, provider);
      var completionCalls := HandleCompletedDomains(completed);
      var errorCalls := HandleFailedDomains(failed);
      calls := completionCalls + errorCalls;
    }

    /** `_verification_cycle`: one cycle, then re-arm iff some entry is still PENDING and no shutdown. */
    method VerificationCycle(now: int, provider: string -> ProviderAnswer)
      returns (checked: seq<string>, calls: seq<Invocation<C>>)
      requires Valid()
      modifies this
      ensures Valid()
      ensures CycleOutcome(State(), checked, calls) == Cycle(old(State()), now, provider)
      ensures armed == Rearm(State(), shutdownRequested)
      ensures shutdownRequested == old(shutdownRequested)
    {
      checked, calls := VerifyDomains(now, provider);
      var pendingCount := 0;
      var i := 0;
      while i < |order|
        invariant 0 <= i <= |order|
        invariant pendingCount + PendingAmong(order[i..], entries) == PendingCount(State())
      {
        assert order[i..][1..] == order[i + 1..];
        if entries[order[i]].status == Pending {
          pendingCount := pendingCount + 1;
        }
        i := i + 1;
      }
      armed := pendingCount > 0 && !shutdownRequested;
    }

    /** `shutdown`: stop scheduling and attempt the error callbacks of the PENDING entries. */
    method Shutdown() returns (calls: seq<Invocation<C>>)
      requires Valid()
      modifies this
      ensures Valid() && State() == old(State())
      ensures shutdownRequested && !armed
      ensures calls == ShutdownCalls(order, entries)
    {
      shutdownRequested := true;
      armed := false;
      calls := [];
      var i := 0;
      while i < |order|
        invariant 0 <= i <= |order|
        invariant calls == ShutdownCalls(order[..i], entries)
      {
        assert order[..i + 1][..i] == order[..i];
        var pending := entries[order[i]];
        if pending.status == Pending && pending.error.Some? {
          calls := calls + [Invocation(pending.error.value, [ShutdownMessage])];
        }
        i := i + 1;
      }
      assert order[..i] == order;
    }
  }
}
