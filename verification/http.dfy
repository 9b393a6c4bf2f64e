/** The resilient outbound client: a per-host circuit breaker (failure count and open-until time per
    host) and a retry loop of at most three attempts with linear backoff.

    Time is an integer number of milliseconds. The network is an input: the attempts a call would
    make, each with the reply it gets and the clock reading at which its outcome is recorded. */
module Http {
  import opened Wrappers
  import opened Web
  import Strings

  /** Failures that open the breaker (`MAX_FAILS`). */
  const MAX_FAILS: int := 3
  /** How long the breaker stays open (`COOLDOWN`, 10 s). */
  const COOLDOWN_MS: int := 10000
  /** Attempts per logical call. */
  const MAX_TRIES: nat := 3
  /** The k-th failed attempt is followed by a sleep of k times this (0.5 s). */
  const BACKOFF_STEP_MS: nat := 500

  /** One attempt as the network answers it: the reply, and the clock when it is recorded. */
  datatype Attempt = Attempt(reply: Reply, clock: int)

  /** The two breaker maps, as a value. */
  datatype BreakerState = BreakerState(failures: map<string, int>, openUntil: map<string, int>)

  /** `_failures.get(host, 0)`. */
  function FailuresOf(s: BreakerState, host: string): int {
    if host in s.failures then s.failures[host] else 0
  }

  /** `_open_until.get(host, 0)`. */
  function OpenUntilOf(s: BreakerState, host: string): int {
    if host in s.openUntil then s.openUntil[host] else 0
  }

  /** `_is_open`: the breaker of `host` is open while the clock is before its open-until time. A
      host never opened has no entry and is closed at every non-negative time. */
  function IsOpen(s: BreakerState, host: string, now: int): (open: bool)
    ensures open <==> now < OpenUntilOf(s, host)
    ensures host !in s.openUntil && now >= 0 ==> !open
  {
    now < OpenUntilOf(s, host)
  }

  /** Every failure count is below the threshold: a count that reaches it is reset at once. */
  ghost predicate CountsBounded(s: BreakerState) {
    forall h :: h in s.failures ==> 0 <= s.failures[h] < MAX_FAILS
  }

  /** The entries of every host other than `host` are the same in `s` and `t`. */
  ghost predicate SameElsewhere(s: BreakerState, t: BreakerState, host: string) {
    forall h :: h != host ==> FailuresOf(t, h) == FailuresOf(s, h) && OpenUntilOf(t, h) == OpenUntilOf(s, h)
  }

  /** `_record_failure` as a function of the state: count one more failure; at the threshold open
      the breaker until `now + COOLDOWN` and reset the count. */
  function AfterFailure(s: BreakerState, host: string, now: int): (t: BreakerState)
    ensures SameElsewhere(s, t, host)
    ensures 0 <= FailuresOf(s, host) < MAX_FAILS ==> FailuresOf(t, host) == (FailuresOf(s, host) + 1) % MAX_FAILS
    ensures FailuresOf(s, host) + 1 < MAX_FAILS ==> OpenUntilOf(t, host) == OpenUntilOf(s, host)
    ensures FailuresOf(s, host) + 1 >= MAX_FAILS ==> OpenUntilOf(t, host) == now + COOLDOWN_MS
  {
    var n := FailuresOf(s, host) + 1;
    if n >= MAX_FAILS then BreakerState(s.failures[host := 0], s.openUntil[host := now + COOLDOWN_MS])
    else BreakerState(s.failures[host := n], s.openUntil)
  }

  /** `_record_success` as a function of the state: both entries of `host` become 0. */
  function AfterSuccess(s: BreakerState, host: string): (t: BreakerState)
    ensures SameElsewhere(s, t, host)
    ensures FailuresOf(t, host) == 0 && OpenUntilOf(t, host) == 0
    ensures forall now :: now >= 0 ==> !IsOpen(t, host, now)
  {
    BreakerState(s.failures[host := 0], s.openUntil[host := 0])
  }

  /** `url.split("/")[2]`: the third `/`-separated field; `None` where Python raises `IndexError`
      (fewer than two slashes). */
  function Host(url: string): (h: Option<string>)
    ensures h.None? <==> Strings.Count(url, '/') < 2
    ensures h.Some? ==> '/' !in h.value
  {
    var fields := Strings.Split(url, '/');
    if |fields| < 3 then None else Some(fields[2])
  }

  /** How a logical call ends: the URL has no host field, the breaker refused it, an attempt got
      a 2xx reply, or every attempt failed and the last failure is raised. */
  datatype CallResult =
    | InvalidUrl
    | CircuitOpen(host: string)
    | Returned(response: Reply)
    | Exhausted(last: Reply)

  /** A whole call: its result, the attempts made, the backoff sleeps taken (ms) and the breaker
      state it leaves behind. */
  datatype Call = Call(result: CallResult, tries: nat, sleeps: seq<nat>, after: BreakerState)

  /** The `while tries < 3` loop from the point where `tries` attempts were made and `sleeps` slept. */
  function RetryLoop(s: BreakerState, host: string, attempts: seq<Attempt>, tries: nat, sleeps: seq<nat>): Call
    requires tries <= MAX_TRIES <= |attempts|
    decreases MAX_TRIES - tries
  {
    if tries == MAX_TRIES then Call(Exhausted(attempts[tries - 1].reply), tries, sleeps, s)
    else
      var a := attempts[tries];
      if Succeeded(a.reply) then Call(Returned(a.reply), tries + 1, sleeps, AfterSuccess(s, host))
      else RetryLoop(AfterFailure(s, host, a.clock), host, attempts, tries + 1, sleeps + [BACKOFF_STEP_MS * (tries + 1)])
  }

  /** `request(method, url)` started at time `now` from breaker state `s`. */
  function RequestCall(s: BreakerState, url: string, now: int, attempts: seq<Attempt>): Call
    requires MAX_TRIES <= |attempts|
  {
    match Host(url)
    case None => Call(InvalidUrl, 0, [], s)
    case Some(host) =>
      if IsOpen(s, host, now) then Call(CircuitOpen(host), 0, [], s)
      else RetryLoop(s, host, attempts, 0, [])
  }

  /** The module-level `_failures` and `_open_until` dictionaries and the functions that use them. */
  class Breaker {
    var failures: map<string, int>
    var openUntil: map<string, int>

    function State(): BreakerState
      reads this
    {
      BreakerState(failures, openUntil)
    }

    constructor ()
      ensures failures == map[] && openUntil == map[]
    {
      failures := map[];
      openUntil := map[];
    }

    /** `_record_failure(host)` with the clock reading `now`. */
    method RecordFailure(host: string, now: int)
      modifies this
      ensures State() == AfterFailure(old(State()), host, now)
    {
      failures := failures[host := FailuresOf(State(), host) + 1];
      if failures[host] >= MAX_FAILS {
        openUntil := openUntil[host := now + COOLDOWN_MS];
        failures := failures[host := 0];
      }
    }

    /** `_record_success(host)`. */
    method RecordSuccess(host: string)
      modifies this
      ensures State() == AfterSuccess(old(State()), host)
    {
      failures := failures[host := 0];
      openUntil := openUntil[host := 0];
    }

    /** `request`: extract the host, check the breaker once, then make up to three attempts,
        recording each outcome and sleeping 0.5 s times the attempt number after each failure. */
    method Request(url: string, now: int, attempts: seq<Attempt>) returns (result: CallResult, tries: nat, sleeps: seq<nat>)
      requires MAX_TRIES <= |attempts|
      modifies this
      ensures Call(result, tries, sleeps, State()) == RequestCall(old(State()), url, now, attempts)
    {
      var fields := Strings.Split(url, '/');
      if |fields| < 3 {
        return InvalidUrl, 0, [];
      }
      var host := fields[2];
      if IsOpen(State(), host, now) {
        return CircuitOpen(host), 0, [];
      }
      tries := 0;
      sleeps := [];
      var last: Option<Reply> := None;
      while tries < MAX_TRIES
        invariant tries <= MAX_TRIES
        invariant tries > 0 ==> last == Some(attempts[tries - 1].reply)
        invariant RetryLoop(State(), host, attempts, tries, sleeps) == RetryLoop(old(State()), host, attempts, 0, [])
      {
        tries := tries + 1;
        var a := attempts[tries - 1];
        if Succeeded(a.reply) {
          RecordSuccess(host);
          return Returned(a.reply), tries, sleeps;
        }
        last := Some(a.reply);
        RecordFailure(host, a.clock);
        sleeps := sleeps + [BACKOFF_STEP_MS * tries];
      }
      result := Exhausted(last.value);
    }
  }
}
