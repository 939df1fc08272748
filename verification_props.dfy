/**
 * Properties of the verification registry of
 * services/domain_service/dns_verifier.py: the backoff schedule, what one
 * verification cycle does to every entry, the callbacks it dispatches, the
 * monotonicity of statuses, and that across any run of cycles and
 * registrations each domain is notified at most once.
 */
module VerificationProperties {
  import opened Common
  import opened Verification

  // ---------------------------------------------------------------- backoff

  /** Rounding down `30 * 1.5 ** k` never decreases as `k` grows. */
  lemma {:induction false} RawDelayMonotonic(j: nat, k: nat)
    requires j <= k
    ensures RawDelay(j) <= RawDelay(k)
    decreases k - j
  {
    if j < k {
      RawDelayStep(j);
      RawDelayMonotonic(j + 1, k);
    }
  }

  /** From attempt 7 on the uncapped delay is past the cap. */
  lemma RawDelayPastCap(k: nat)
    requires k >= 6
    ensures RawDelay(k) >= MaxDelay
  {
    PowGrowth(k);
    DivAtLeast(MaxDelay, BaseDelay * Pow(3, k), Pow(2, k));
  }

  /** `get_next_delay` is `min(RawDelay(attempts - 1), 300)` for every attempt count. */
  lemma NextDelayIsCappedRaw(attempts: Positive)
    ensures NextDelay(attempts) == if RawDelay(attempts - 1) < MaxDelay then RawDelay(attempts - 1) else MaxDelay
  {
    if attempts - 1 >= 6 {
      RawDelayPastCap(attempts - 1);
    }
  }

  /** The backoff delay never decreases as attempts accumulate. */
  lemma NextDelayMonotonic(a: Positive, b: Positive)
    requires a <= b
    ensures NextDelay(a) <= NextDelay(b)
  {
    NextDelayIsCappedRaw(a);
    NextDelayIsCappedRaw(b);
    RawDelayMonotonic(a - 1, b - 1);
  }

  /** The schedule: 30, 45, 67, 101, 151, 227 seconds, then 300 for good. */
  lemma NextDelayValues(attempts: Positive)
    ensures attempts == 1 ==> NextDelay(attempts) == 30
    ensures attempts == 2 ==> NextDelay(attempts) == 45
    ensures attempts == 3 ==> NextDelay(attempts) == 67
    ensures attempts == 4 ==> NextDelay(attempts) == 101
    ensures attempts == 5 ==> NextDelay(attempts) == 151
    ensures attempts == 6 ==> NextDelay(attempts) == 227
    ensures attempts >= 7 ==> NextDelay(attempts) == 300
  {
    assert Pow(3, 1) == 3 && Pow(2, 1) == 2;
    assert Pow(3, 2) == 9 && Pow(2, 2) == 4;
    assert Pow(3, 3) == 27 && Pow(2, 3) == 8;
    assert Pow(3, 4) == 81 && Pow(2, 4) == 16;
    assert Pow(3, 5) == 243 && Pow(2, 5) == 32;
  }

  // ------------------------------------------------- registration and removal

  /** `s` without an element it never held, after appending that element. */
  lemma {:induction false} WithoutAppended(s: seq<string>, d: string)
    requires d !in s
    ensures Without(s + [d], d) == s
  {
    if s != [] {
      assert (s + [d])[1..] == s[1..] + [d];
      WithoutAppended(s[1..], d);
    } else {
      assert [d][1..] == [];
    }
  }

  /** Removing a domain that was just registered restores the registry exactly. */
  lemma RegisterThenRemove<C>(r: Registry<C>, domain: string, completion: Option<C>, error: Option<C>, now: int)
    requires Wf(r) && domain !in r.entries
    ensures var added := Register(r, domain, completion, error, now);
            added.0 && DomainStatus(added.1, domain) == Some(PendingText) && Remove(added.1, domain) == (true, r)
  {
    var added := Register(r, domain, completion, error, now);
    WithoutAppended(r.order, domain);
    assert added.1.entries - {domain} == r.entries;
  }

  /** Status changes allowed anywhere: none, PENDING to VERIFIED, PENDING to EXPIRED. */
  predicate Advances(before: Status, after: Status)
  {
    before == after || (before == Pending && (after == Verified || after == Expired))
  }

  /** Registration never changes the status of an existing entry. */
  lemma RegisterKeepsStatus<C>(r: Registry<C>, domain: string, completion: Option<C>, error: Option<C>, now: int)
    ensures var out := Register(r, domain, completion, error, now).1;
            && (forall d | d in r.entries :: out.entries[d].status == r.entries[d].status)
            && (forall d | d in r.entries :: out.entries[d].attempts == r.entries[d].attempts)
            && (domain !in r.entries ==> out.entries[domain].status == Pending)
  {
  }

  // ------------------------------------------------------------ the cycle

  /** What the collection loop does to key `d` when the keys `ds` have no repeats. */
  lemma {:induction false} CollectFacts<C>(ds: seq<string>, m: Entries<C>, now: int)
    requires NoDup(ds) && forall d | d in ds :: d in m
    ensures var out := Collect(ds, m, now);
            && (forall d | d in m :: out.0[d] == if d in ds then ShouldRetry(m[d], now).1 else m[d])
            && (forall d :: d in out.1 <==> d in ds && Eligible(m[d], now))
            && NoDup(out.1)
    decreases |ds|
  {
    if ds != [] {
      var n := |ds| - 1;
      var d := ds[n];
      var init := ds[..n];
      assert ds == init + [d];
      assert NoDup(init) by {
        forall i, j | 0 <= i < j < |init| ensures init[i] != init[j] {
          assert init[i] == ds[i] && init[j] == ds[j];
        }
      }
      assert d !in init by {
        forall i | 0 <= i < |init| ensures init[i] != d {
          assert init[i] == ds[i];
        }
      }
      CollectFacts(init, m, now);
      var prior := Collect(init, m, now);
      assert prior.0[d] == m[d];
      var (retry, e) := ShouldRetry(m[d], now);
      if retry {
        assert e == m[d];
      }
      if retry && now - e.lastAttempt >= NextDelay(e.attempts) {
        NoDupAppend(prior.1, d);
      }
    }
  }

  /** What the processing loop does to key `d` when the keys `ds` have no repeats. */
  lemma {:induction false} ProcessFacts<C>(ds: seq<string>, m: Entries<C>, now: int, provider: string -> ProviderAnswer)
    requires NoDup(ds) && forall d | d in ds :: d in m
    ensures var out := Process(ds, m, now, provider);
            && (forall d | d in m :: out.0[d] == if d in ds then Attempt(m[d], now, provider(d)).0 else m[d])
            && (forall d :: d in out.1 <==> d in ds && Attempt(m[d], now, provider(d)).1)
            && (forall d :: d in out.2 <==> d in ds && Attempt(m[d], now, provider(d)).2)
            && NoDup(out.1) && NoDup(out.2)
    decreases |ds|
  {
    if ds != [] {
      var n := |ds| - 1;
      var d := ds[n];
      var init := ds[..n];
      assert ds == init + [d];
      assert NoDup(init) by {
        forall i, j | 0 <= i < j < |init| ensures init[i] != init[j] {
          assert init[i] == ds[i] && init[j] == ds[j];
        }
      }
      assert d !in init by {
        forall i | 0 <= i < |init| ensures init[i] != d {
          assert init[i] == ds[i];
        }
      }
      ProcessFacts(init, m, now, provider);
      var prior := Process(init, m, now, provider);
      assert prior.0[d] == m[d];
      var a := Attempt(m[d], now, provider(d));
      if a.1 {
        NoDupAppend(prior.1, d);
      }
      if a.2 {
        NoDupAppend(prior.2, d);
      }
    }
  }

  /** Number of invocations whose first argument, the domain, is `d`. */
  function CallsFor<C>(calls: seq<Invocation<C>>, d: string): nat
  {
    if calls == [] then 0
    else CallsFor(calls[..|calls| - 1], d) + (if |calls[|calls| - 1].args| > 0 && calls[|calls| - 1].args[0] == d then 1 else 0)
  }

  lemma {:induction false} CallsForAppend<C>(a: seq<Invocation<C>>, b: seq<Invocation<C>>, d: string)
    ensures CallsFor(a + b, d) == CallsFor(a, d) + CallsFor(b, d)
    decreases |b|
  {
    if b == [] {
      assert a + b == a;
    } else {
      var n := |b| - 1;
      assert (a + b)[..|a + b| - 1] == a + b[..n];
      CallsForAppend(a, b[..n], d);
    }
  }

  /** Entries keyed by their own domain name. */
  predicate SelfKeyed<C>(m: Entries<C>)
  {
    forall x | x in m :: m[x].domain == x
  }

  /** Dropping the last key of a list without repeats. */
  lemma NoDupInit(ds: seq<string>)
    requires NoDup(ds) && ds != []
    ensures NoDup(ds[..|ds| - 1]) && ds[|ds| - 1] !in ds[..|ds| - 1]
  {
    var init := ds[..|ds| - 1];
    forall i | 0 <= i < |init| ensures init[i] != ds[|ds| - 1] {
      assert init[i] == ds[i];
    }
  }

  lemma ArgsShape(args: seq<string>)
    ensures |args| == 1 ==> args == [args[0]]
    ensures |args| == 2 ==> args == [args[0], args[1]]
  {
  }

  /** A single call counts once for its own domain only. */
  lemma CallsForSingle<C>(inv: Invocation<C>, d: string)
    ensures CallsFor([inv], d) == if |inv.args| > 0 && inv.args[0] == d then 1 else 0
  {
    assert [inv][..0] == [];
  }

  /** `_handle_completed_domains` calls each listed domain's completion callback, if any, exactly once. */
  lemma {:induction false} CompletionCallsCount<C>(ds: seq<string>, m: Entries<C>, d: string)
    requires NoDup(ds) && SelfKeyed(m) && forall x | x in ds :: x in m
    ensures CallsFor(CompletionCalls(ds, m), d) == if d in ds && m[d].completion.Some? then 1 else 0
    decreases |ds|
  {
    if ds != [] {
      var n := |ds| - 1;
      var x, init := ds[n], ds[..n];
      assert ds == init + [x];
      NoDupInit(ds);
      CompletionCallsCount(init, m, d);
      if m[x].completion.Some? {
        var inv := Invocation(m[x].completion.value, [x]);
        assert CompletionCalls(ds, m) == CompletionCalls(init, m) + [inv];
        CallsForAppend(CompletionCalls(init, m), [inv], d);
        CallsForSingle(inv, d);
      } else {
        assert CompletionCalls(ds, m) == CompletionCalls(init, m);
      }
    }
  }

  /** The calls of `_handle_completed_domains`: each is a listed domain's completion callback applied to that domain. */
  lemma {:induction false} CompletionCallsMembers<C>(ds: seq<string>, m: Entries<C>)
    requires SelfKeyed(m) && forall x | x in ds :: x in m
    ensures forall inv :: inv in CompletionCalls(ds, m) <==>
      |inv.args| == 1 && inv.args[0] in ds && m[inv.args[0]].completion == Some(inv.callback)
    decreases |ds|
  {
    if ds != [] {
      var n := |ds| - 1;
      var x, init := ds[n], ds[..n];
      assert ds == init + [x];
      CompletionCallsMembers(init, m);
      var tail := if m[x].completion.Some? then [Invocation(m[x].completion.value, [x])] else [];
      assert CompletionCalls(ds, m) == CompletionCalls(init, m) + tail;
      forall inv
        ensures inv in CompletionCalls(ds, m) <==>
          |inv.args| == 1 && inv.args[0] in ds && m[inv.args[0]].completion == Some(inv.callback)
      {
        if |inv.args| == 1 && inv.args[0] == x && m[x].completion == Some(inv.callback) {
          assert inv.args == [x];
          assert inv in tail;
        }
      }
    }
  }

  /** `_handle_failed_domains` calls each listed domain's error callback, if any, exactly once. */
  lemma {:induction false} ErrorCallsCount<C>(ds: seq<string>, m: Entries<C>, d: string)
    requires NoDup(ds) && SelfKeyed(m) && forall x | x in ds :: x in m
    ensures CallsFor(ErrorCalls(ds, m), d) == if d in ds && m[d].error.Some? then 1 else 0
    decreases |ds|
  {
    if ds != [] {
      var n := |ds| - 1;
      var x, init := ds[n], ds[..n];
      assert ds == init + [x];
      NoDupInit(ds);
      ErrorCallsCount(init, m, d);
      if m[x].error.Some? {
        var inv := Invocation(m[x].error.value, [x, ErrorMessage(m[x])]);
        assert ErrorCalls(ds, m) == ErrorCalls(init, m) + [inv];
        CallsForAppend(ErrorCalls(init, m), [inv], d);
        CallsForSingle(inv, d);
      } else {
        assert ErrorCalls(ds, m) == ErrorCalls(init, m);
      }
    }
  }

  /** The calls of `_handle_failed_domains`: each is a listed domain's error callback applied to that domain and its message. */
  lemma {:induction false} ErrorCallsMembers<C>(ds: seq<string>, m: Entries<C>)
    requires SelfKeyed(m) && forall x | x in ds :: x in m
    ensures forall inv :: inv in ErrorCalls(ds, m) <==>
      && |inv.args| == 2 && inv.args[0] in ds && m[inv.args[0]].error == Some(inv.callback)
      && inv.args[1] == ErrorMessage(m[inv.args[0]])
    decreases |ds|
  {
    if ds != [] {
      var n := |ds| - 1;
      var x, init := ds[n], ds[..n];
      assert ds == init + [x];
      ErrorCallsMembers(init, m);
      var tail := if m[x].error.Some? then [Invocation(m[x].error.value, [x, ErrorMessage(m[x])])] else [];
      assert ErrorCalls(ds, m) == ErrorCalls(init, m) + tail;
      forall inv
        ensures inv in ErrorCalls(ds, m) <==>
          && |inv.args| == 2 && inv.args[0] in ds && m[inv.args[0]].error == Some(inv.callback)
          && inv.args[1] == ErrorMessage(m[inv.args[0]])
      {
        if |inv.args| == 2 && inv.args[0] == x && m[x].error == Some(inv.callback) && inv.args[1] == ErrorMessage(m[x]) {
          assert inv.args == [x, ErrorMessage(m[x])];
          assert inv in tail;
        }
      }
    }
  }

  /**
   * One cycle, entry by entry: a domain is checked iff it is eligible; a
   * checked domain's entry is the result of one attempt and an unchecked one
   * is only passed through `should_retry`.
   */
  lemma CycleEntries<C>(r: Registry<C>, now: int, provider: string -> ProviderAnswer)
    requires Wf(r)
    ensures var out := Cycle(r, now, provider);
            && (forall d :: d in out.checked <==> d in r.entries && Eligible(r.entries[d], now))
            && (forall d | d in r.entries && !Eligible(r.entries[d], now) ::
                  out.registry.entries[d] == ShouldRetry(r.entries[d], now).1)
            && (forall d | d in r.entries && Eligible(r.entries[d], now) ::
                  out.registry.entries[d] == Attempt(r.entries[d], now, provider(d)).0)
  {
    CollectFacts(r.order, r.entries, now);
    var (collected, due) := Collect(r.order, r.entries, now);
    ProcessFacts(due, collected, now, provider);
    forall d | d in r.entries && Eligible(r.entries[d], now)
      ensures collected[d] == r.entries[d]
    {
      assert ShouldRetry(r.entries[d], now).0;
    }
  }

  /** The intermediate lists of one cycle, described domain by domain. */
  lemma CycleParts<C>(r: Registry<C>, now: int, provider: string -> ProviderAnswer)
    requires Wf(r)
    ensures var (collected, due) := Collect(r.order, r.entries, now);
            var (checked, completed, failed) := Process(due, collected, now, provider);
            && NoDup(completed) && NoDup(failed) && SelfKeyed(checked)
            && (forall d | d in due :: d in r.entries && r.entries[d].status == Pending)
            && (forall d | d in due :: checked[d] == Attempt(r.entries[d], now, provider(d)).0)
            && (forall d :: d in completed <==> d in due && provider(d).outcome == Confirmed)
            && (forall d :: d in failed <==>
                  d in due && provider(d).outcome != Confirmed &&
                  provider(d).clockAfter - now > r.entries[d].maxCompletionTime)
  {
    CollectFacts(r.order, r.entries, now);
    var (collected, due) := Collect(r.order, r.entries, now);
    ProcessFacts(due, collected, now, provider);
    forall d | d in due
      ensures collected[d] == r.entries[d]
    {
      assert ShouldRetry(r.entries[d], now).0;
    }
  }

  /**
   * In one cycle each domain gets at most one callback call, and only a
   * checked PENDING entry that leaves PENDING in this cycle gets one.
   */
  lemma CycleNotifiesOnce<C>(r: Registry<C>, now: int, provider: string -> ProviderAnswer, d: string)
    requires Wf(r)
    ensures var out := Cycle(r, now, provider);
            && CallsFor(out.calls, d) <= 1
            && (CallsFor(out.calls, d) == 1 ==>
                  && d in out.checked && r.entries[d].status == Pending
                  && out.registry.entries[d].status != Pending)
  {
    CycleParts(r, now, provider);
    var (collected, due) := Collect(r.order, r.entries, now);
    var (checked, completed, failed) := Process(due, collected, now, provider);
    CompletionCallsCount(completed, checked, d);
    ErrorCallsCount(failed, checked, d);
    CallsForAppend(CompletionCalls(completed, checked), ErrorCalls(failed, checked), d);
  }

  /**
   * The callbacks of one cycle: a completion callback, with the domain as its
   * only argument, for every checked domain the provider confirmed; an error
   * callback for every checked domain whose check ended past
   * `max_completion_time`. Such an entry is always EXPIRED by then, so the
   * message is always the "expired" one.
   */
  lemma CycleCalls<C>(r: Registry<C>, now: int, provider: string -> ProviderAnswer)
    requires Wf(r)
    ensures var out := Cycle(r, now, provider);
            forall inv :: inv in out.calls <==>
              && |inv.args| > 0 && inv.args[0] in out.checked
              && var d := inv.args[0];
                 if provider(d).outcome == Confirmed then
                   inv.args == [d] && r.entries[d].completion == Some(inv.callback)
                 else
                   && provider(d).clockAfter - now > r.entries[d].maxCompletionTime
                   && inv.args == [d, ExpiredPrefix + d]
                   && r.entries[d].error == Some(inv.callback)
  {
    CycleParts(r, now, provider);
    var (collected, due) := Collect(r.order, r.entries, now);
    var (checked, completed, failed) := Process(due, collected, now, provider);
    var out := Cycle(r, now, provider);
    assert out.calls == CompletionCalls(completed, checked) + ErrorCalls(failed, checked);
    assert out.checked == due;
    forall inv
      ensures inv in out.calls <==>
              && |inv.args| > 0 && inv.args[0] in out.checked
              && var d := inv.args[0];
                 if provider(d).outcome == Confirmed then
                   inv.args == [d] && r.entries[d].completion == Some(inv.callback)
                 else
                   && provider(d).clockAfter - now > r.entries[d].maxCompletionTime
                   && inv.args == [d, ExpiredPrefix + d]
                   && r.entries[d].error == Some(inv.callback)
    {
      CallsOfAttempts(r.entries, due, checked, completed, failed, now, provider, inv);
    }
  }

  /**
   * The callbacks the handlers make, in terms of the entries before the
   * attempts: a completion call with the domain alone for a confirmed one,
   * an error call with the "expired" message for one past its deadline.
   */
  lemma CallsOfAttempts<C>(entries: Entries<C>, due: seq<string>, checked: Entries<C>, completed: seq<string>, failed: seq<string>,
                           now: int, provider: string -> ProviderAnswer, inv: Invocation<C>)
    requires SelfKeyed(checked)
    requires forall d | d in due :: d in entries && d in checked && entries[d].status == Pending
    requires forall d | d in due :: checked[d] == Attempt(entries[d], now, provider(d)).0
    requires forall d :: d in completed <==> d in due && provider(d).outcome == Confirmed
    requires forall d :: d in failed <==>
               d in due && provider(d).outcome != Confirmed && provider(d).clockAfter - now > entries[d].maxCompletionTime
    ensures inv in CompletionCalls(completed, checked) + ErrorCalls(failed, checked) <==>
              && |inv.args| > 0 && inv.args[0] in due
              && var d := inv.args[0];
                 if provider(d).outcome == Confirmed then
                   inv.args == [d] && entries[d].completion == Some(inv.callback)
                 else
                   && provider(d).clockAfter - now > entries[d].maxCompletionTime
                   && inv.args == [d, ExpiredPrefix + d]
                   && entries[d].error == Some(inv.callback)
  {
    CompletionCallsMembers(completed, checked);
    ErrorCallsMembers(failed, checked);
    ArgsShape(inv.args);
    if |inv.args| > 0 && inv.args[0] in due {
      var d := inv.args[0];
      if provider(d).outcome == Confirmed {
        assert d in completed && d !in failed;
        assert checked[d].completion == entries[d].completion;
      } else {
        assert d !in completed;
        if d in failed {
          assert checked[d].status == Expired && checked[d].error == entries[d].error;
          assert ErrorMessage(checked[d]) == ExpiredPrefix + d;
        }
      }
    }
  }



  /**
   * Statuses only move forward: PENDING to VERIFIED or EXPIRED, never back and
   * never to FAILED; an entry that is not PENDING is left exactly as it was.
   */
  lemma CycleStatusMonotonic<C>(r: Registry<C>, now: int, provider: string -> ProviderAnswer)
    requires Wf(r)
    ensures var out := Cycle(r, now, provider).registry;
            && (forall d | d in r.entries :: Advances(r.entries[d].status, out.entries[d].status))
            && (forall d | d in r.entries && r.entries[d].status != Pending :: out.entries[d] == r.entries[d])
  {
    CycleEntries(r, now, provider);
    forall d | d in r.entries
      ensures Advances(r.entries[d].status, Cycle(r, now, provider).registry.entries[d].status)
      ensures r.entries[d].status != Pending ==> Cycle(r, now, provider).registry.entries[d] == r.entries[d]
    {
      EntryAdvances(r.entries[d], now, provider(d));
    }
  }

  /** Each of the two things a cycle may do to one entry moves its status forward only, and not at all from a final one. */
  lemma EntryAdvances<C>(e: PendingDomain<C>, now: int, answer: ProviderAnswer)
    ensures Advances(e.status, ShouldRetry(e, now).1.status)
    ensures e.status != Pending ==> ShouldRetry(e, now).1 == e && !Eligible(e, now)
    ensures Eligible(e, now) ==> e.status == Pending && Advances(e.status, Attempt(e, now, answer).0.status)
  {
  }

  /**
   * Expiry noticed while collecting (the first `should_retry`) marks the
   * entry EXPIRED but calls no callback for it.
   */
  lemma ExpiryWhileCollectingIsSilent<C>(r: Registry<C>, now: int, provider: string -> ProviderAnswer, d: string)
    requires Wf(r) && d in r.entries && r.entries[d].status == Pending
    requires now - r.entries[d].lastAttempt > r.entries[d].maxCompletionTime
    ensures var out := Cycle(r, now, provider);
            && out.registry.entries[d].status == Expired
            && d !in out.checked
            && CallsFor(out.calls, d) == 0
  {
    CycleEntries(r, now, provider);
    CycleNotifiesOnce(r, now, provider, d);
  }

  /**
   * A provider exception counts exactly as a refusal (`_verify_dns_domain`
   * turns it into False).
   */
  lemma RaisedIsRefusal<C>(e: PendingDomain<C>, now: int, message: string, clockAfter: int)
    ensures Attempt(e, now, ProviderAnswer(Raised(message), clockAfter)) ==
            Attempt(e, now, ProviderAnswer(NotConfirmed, clockAfter))
  {
  }

  // --------------------------------------------------------- re-arming

  lemma {:induction false} PendingAmongPositive<C>(ds: seq<string>, m: Entries<C>)
    requires forall d | d in ds :: d in m
    ensures PendingAmong(ds, m) > 0 <==> exists d | d in ds :: m[d].status == Pending
  {
    if ds != [] {
      PendingAmongPositive(ds[1..], m);
      if m[ds[0]].status != Pending {
        forall d | d in ds && m[d].status == Pending ensures d in ds[1..] {
          assert d != ds[0];
        }
      }
    }
  }

  /** Another cycle is scheduled iff some entry is still PENDING and shutdown was not requested. */
  lemma RearmIff<C>(r: Registry<C>, shutdown: bool)
    requires Wf(r)
    ensures Rearm(r, shutdown) <==> !shutdown && exists d | d in r.entries :: r.entries[d].status == Pending
  {
    PendingAmongPositive(r.order, r.entries);
  }

  // --------------------------------------------------------- shutdown

  /** `shutdown` tries the error callback, with the one shutdown message, of every PENDING entry that has one. */
  lemma {:induction false} ShutdownCallsFacts<C>(ds: seq<string>, m: Entries<C>)
    requires forall d | d in ds :: d in m
    ensures forall inv :: inv in ShutdownCalls(ds, m) <==>
      inv.args == [ShutdownMessage] && exists d | d in ds :: m[d].status == Pending && m[d].error == Some(inv.callback)
    decreases |ds|
  {
    if ds != [] {
      var n := |ds| - 1;
      var init := ds[..n];
      assert ds == init + [ds[n]];
      ShutdownCallsFacts(init, m);
      forall inv
        ensures inv in ShutdownCalls(ds, m) <==>
          inv.args == [ShutdownMessage] && exists d | d in ds :: m[d].status == Pending && m[d].error == Some(inv.callback)
      {
        if inv.args == [ShutdownMessage] && m[ds[n]].status == Pending && m[ds[n]].error == Some(inv.callback) {
          assert inv == Invocation(m[ds[n]].error.value, [ShutdownMessage]);
        }
        if exists d | d in ds :: m[d].status == Pending && m[d].error == Some(inv.callback) {
          var d :| d in ds && m[d].status == Pending && m[d].error == Some(inv.callback);
          if d != ds[n] {
            assert d in init;
          }
        }
      }
    }
  }

  // ------------------------------------------------------ runs of events

  /** Something that can happen to the registry between two observations. */
  datatype Event<C> =
    | Tick(now: int, provider: string -> ProviderAnswer)
    | Add(domain: string, completion: Option<C>, error: Option<C>, at: int)

  /** One event: the new registry and the callback calls made. */
  function Step<C>(r: Registry<C>, ev: Event<C>): (out: (Registry<C>, seq<Invocation<C>>))
    requires Wf(r)
    ensures Wf(out.0)
  {
    match ev
    case Tick(now, provider) =>
      var c := Cycle(r, now, provider);
      (c.registry, c.calls)
    case Add(domain, completion, error, at) =>
      (Register(r, domain, completion, error, at).1, [])
  }

  /** A run of events from `r`: the final registry and all callback calls in order. */
  function Run<C>(r: Registry<C>, evs: seq<Event<C>>): (out: (Registry<C>, seq<Invocation<C>>))
    requires Wf(r)
    ensures Wf(out.0)
    decreases |evs|
  {
    if evs == [] then (r, [])
    else
      var first := Step(r, evs[0]);
      var rest := Run(first.0, evs[1..]);
      (rest.0, first.1 + rest.1)
  }

  /** How many more notifications domain `d` can still receive: none once it has left PENDING. */
  function Budget<C>(r: Registry<C>, d: string): nat
  {
    if d in r.entries && r.entries[d].status != Pending then 0 else 1
  }

  lemma StepBudget<C>(r: Registry<C>, ev: Event<C>, d: string)
    requires Wf(r)
    ensures var out := Step(r, ev);
            CallsFor(out.1, d) + Budget(out.0, d) <= Budget(r, d)
  {
    match ev
    case Tick(now, provider) =>
      CycleNotifiesOnce(r, now, provider, d);
      CycleStatusMonotonic(r, now, provider);
    case Add(domain, completion, error, at) =>
  }

  /**
   * Across any sequence of cycles and registrations, each domain receives at
   * most one callback call, and none at all once its entry has left PENDING.
   */
  lemma {:induction false} NotifiedAtMostOnce<C>(r: Registry<C>, evs: seq<Event<C>>, d: string)
    requires Wf(r)
    ensures CallsFor(Run(r, evs).1, d) <= Budget(r, d) <= 1
    decreases |evs|
  {
    if evs != [] {
      var first := Step(r, evs[0]);
      StepBudget(r, evs[0], d);
      NotifiedAtMostOnce(first.0, evs[1..], d);
      CallsForAppend(first.1, Run(first.0, evs[1..]).1, d);
    }
  }
}
