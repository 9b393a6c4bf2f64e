/** What the breaker and the retry loop guarantee, proved about the functions that specify them. */
module HttpProps {
  import opened Web
  import opened Http

  /** Index of the first 2xx attempt at or after `k` among the first `MAX_TRIES`, or `MAX_TRIES`. */
  function FirstSuccess(attempts: seq<Attempt>, k: nat): (i: nat)
    requires k <= MAX_TRIES <= |attempts|
    ensures k <= i <= MAX_TRIES
    ensures forall j :: k <= j < i ==> !Succeeded(attempts[j].reply)
    ensures i < MAX_TRIES ==> Succeeded(attempts[i].reply)
    decreases MAX_TRIES - k
  {
    if k == MAX_TRIES || Succeeded(attempts[k].reply) then k else FirstSuccess(attempts, k + 1)
  }

  /** The sleeps that follow failed attempts number `k + 1` to `i`: 0.5 s times the attempt number. */
  function Backoffs(k: nat, i: nat): (b: seq<nat>)
    requires k <= i
    ensures |b| == i - k
  {
    seq(i - k, j requires 0 <= j < i - k => BACKOFF_STEP_MS * (k + j + 1))
  }

  /** The loop stops at the first 2xx attempt, or after the third; it sleeps once per failed attempt. */
  lemma RetryLoopShape(s: BreakerState, host: string, attempts: seq<Attempt>, k: nat, sl: seq<nat>)
    requires k <= MAX_TRIES <= |attempts|
    ensures var r := RetryLoop(s, host, attempts, k, sl);
            var i := FirstSuccess(attempts, k);
            && r.sleeps == sl + Backoffs(k, i)
            && (i < MAX_TRIES ==> r.result == Returned(attempts[i].reply) && r.tries == i + 1)
            && (i == MAX_TRIES ==> r.result == Exhausted(attempts[MAX_TRIES - 1].reply) && r.tries == MAX_TRIES)
    decreases MAX_TRIES - k
  {
  }

  /** `_record_failure` keeps every count below the threshold. */
  lemma AfterFailureBounded(s: BreakerState, host: string, now: int)
    requires CountsBounded(s)
    ensures CountsBounded(AfterFailure(s, host, now))
  {
  }

  /** `_record_success` keeps every count below the threshold, and doing it twice is doing it once. */
  lemma AfterSuccessBoundedIdempotent(s: BreakerState, host: string)
    ensures CountsBounded(s) ==> CountsBounded(AfterSuccess(s, host))
    ensures AfterSuccess(AfterSuccess(s, host), host) == AfterSuccess(s, host)
  {
  }

  /** The loop touches only `host`'s entries, keeps the counts bounded, and a call that returns leaves
      `host` with no failures and a closed breaker. */
  lemma {:induction false} RetryLoopState(s: BreakerState, host: string, attempts: seq<Attempt>, k: nat, sl: seq<nat>)
    requires k <= MAX_TRIES <= |attempts|
    ensures var r := RetryLoop(s, host, attempts, k, sl);
            && SameElsewhere(s, r.after, host)
            && (CountsBounded(s) ==> CountsBounded(r.after))
            && (r.result.Returned? ==> FailuresOf(r.after, host) == 0 && OpenUntilOf(r.after, host) == 0)
    decreases MAX_TRIES - k
  {
    if k < MAX_TRIES && !Succeeded(attempts[k].reply) {
      var t := AfterFailure(s, host, attempts[k].clock);
      if CountsBounded(s) { AfterFailureBounded(s, host, attempts[k].clock); }
      RetryLoopState(t, host, attempts, k + 1, sl + [BACKOFF_STEP_MS * (k + 1)]);
    } else if k < MAX_TRIES {
      AfterSuccessBoundedIdempotent(s, host);
    }
  }

  /** If the breaker is open, `request` raises at once: no attempt, no sleep, no state change. */
  lemma OpenBreakerShortCircuits(s: BreakerState, url: string, now: int, attempts: seq<Attempt>)
    requires MAX_TRIES <= |attempts|
    requires Host(url).Some? && IsOpen(s, Host(url).value, now)
    ensures RequestCall(s, url, now, attempts) == Call(CircuitOpen(Host(url).value), 0, [], s)
  {
  }

  /** A URL without a host field raises before the breaker is consulted and changes nothing. */
  lemma InvalidUrlChangesNothing(s: BreakerState, url: string, now: int, attempts: seq<Attempt>)
    requires MAX_TRIES <= |attempts|
    requires Strings.Count(url, '/') < 2
    ensures RequestCall(s, url, now, attempts) == Call(InvalidUrl, 0, [], s)
  {
  }

  /** A call that passes the breaker makes between one and three attempts, returns the first 2xx
      reply if any of the three is 2xx and otherwise raises the third failure; after the n-th failed
      attempt it sleeps n * 0.5 s, the third one included. */
  lemma RequestRetries(s: BreakerState, url: string, now: int, attempts: seq<Attempt>)
    requires MAX_TRIES <= |attempts|
    requires Host(url).Some? && !IsOpen(s, Host(url).value, now)
    ensures var r := RequestCall(s, url, now, attempts);
            && 1 <= r.tries <= MAX_TRIES
            && (r.result.Returned? <==> exists j :: 0 <= j < MAX_TRIES && Succeeded(attempts[j].reply))
            && (r.result.Returned? ==>
                  && r.result.response == attempts[r.tries - 1].reply
                  && Succeeded(r.result.response)
                  && (forall j :: 0 <= j < r.tries - 1 ==> !Succeeded(attempts[j].reply))
                  && |r.sleeps| == r.tries - 1)
            && (!r.result.Returned? ==>
                  && r.result == Exhausted(attempts[MAX_TRIES - 1].reply)
                  && r.tries == MAX_TRIES
                  && r.sleeps == [500, 1000, 1500])
            && (forall j :: 0 <= j < |r.sleeps| ==> r.sleeps[j] == BACKOFF_STEP_MS * (j + 1))
  {
  }

  /** `request` changes only the entries of the host it calls and keeps the counts bounded. */
  lemma RequestState(s: BreakerState, url: string, now: int, attempts: seq<Attempt>)
    requires MAX_TRIES <= |attempts|
    ensures var r := RequestCall(s, url, now, attempts);
            && (Host(url).None? ==> r.after == s)
            && (Host(url).Some? ==> SameElsewhere(s, r.after, Host(url).value))
            && (CountsBounded(s) ==> CountsBounded(r.after))
  {
  }

  /** A call whose three attempts all fail opens the breaker during the call, at the attempt that
      takes the count to three, and leaves the count where it started. The breaker check comes only
      once, so the attempts after the opening are still made. */
  lemma FullFailureOpensBreaker(s: BreakerState, host: string, attempts: seq<Attempt>)
    requires MAX_TRIES <= |attempts|
    requires forall j :: 0 <= j < MAX_TRIES ==> !Succeeded(attempts[j].reply)
    requires 0 <= FailuresOf(s, host) < MAX_FAILS
    ensures var r := RetryLoop(s, host, attempts, 0, []);
            var c := FailuresOf(s, host);
            && r.tries == MAX_TRIES
            && FailuresOf(r.after, host) == c
            && OpenUntilOf(r.after, host) == attempts[MAX_FAILS - 1 - c].clock + COOLDOWN_MS
  {
  }

  /** Three failed attempts on a host with no earlier failures make the next call to that host,
      within 10 s of the third failure, fail at once without any attempt. */
  lemma TrippedBreakerRejectsNextCall(s: BreakerState, url: string, now: int, attempts: seq<Attempt>,
                                      later: int, next: seq<Attempt>)
    requires MAX_TRIES <= |attempts| && MAX_TRIES <= |next|
    requires Host(url).Some? && !IsOpen(s, Host(url).value, now) && FailuresOf(s, Host(url).value) == 0
    requires forall j :: 0 <= j < MAX_TRIES ==> !Succeeded(attempts[j].reply)
    requires later < attempts[MAX_TRIES - 1].clock + COOLDOWN_MS
    ensures var r := RequestCall(s, url, now, attempts);
            RequestCall(r.after, url, later, next) == Call(CircuitOpen(Host(url).value), 0, [], r.after)
  {
  }

  /** Once the cooldown has passed, the next call is attempted again, and a 2xx first attempt
      closes the breaker and clears the count. */
  lemma CooledDownBreakerRetries(s: BreakerState, url: string, now: int, attempts: seq<Attempt>)
    requires MAX_TRIES <= |attempts|
    requires Host(url).Some? && 0 <= now && now >= OpenUntilOf(s, Host(url).value)
    ensures var r := RequestCall(s, url, now, attempts);
            && r.tries >= 1
            && (Succeeded(attempts[0].reply) ==>
                  && r.result == Returned(attempts[0].reply)
                  && FailuresOf(r.after, Host(url).value) == 0
                  && !IsOpen(r.after, Host(url).value, now))
  {
  }
}

module HostProps {
  import opened Wrappers
  import Strings
  import opened Http

  /** The breaker key of `scheme//host/path` is `host`, with or without a path. */
  lemma {:induction false} HostOfUrl(scheme: string, host: string, rest: string)
    requires '/' !in scheme && '/' !in host
    requires rest == [] || rest[0] == '/'
    ensures Host(scheme + "//" + host + rest) == Some(host)
  {
    var url := scheme + "//" + host + rest;
    assert url == scheme + ['/'] + ([] + ['/'] + (host + rest));
    Strings.SplitAfter(scheme, [] + ['/'] + (host + rest), '/');
    Strings.SplitAfter([], host + rest, '/');
    if rest == [] {
      assert host + rest == host;
      Strings.SplitNoSep(host, '/');
    } else {
      assert host + rest == host + ['/'] + rest[1..];
      Strings.SplitAfter(host, rest[1..], '/');
    }
  }

  /** The users-service URL of user 5 is keyed by `127.0.0.1:8001`. */
  lemma HostOfUserUrl()
    ensures Host("http://127.0.0.1:8001/5") == Some("127.0.0.1:8001")
  {
    assert "http://127.0.0.1:8001/5" == "http:" + "//" + "127.0.0.1:8001" + "/5";
    HostOfUrl("http:", "127.0.0.1:8001", "/5");
  }
}
