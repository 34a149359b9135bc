/** The two `fetchWithRetry` helpers of app/translator-client.tsx. Both are
    one loop: attempt, return the first response, and after a thrown error
    either rethrow (on the last attempt) or wait and try again. They differ
    in how each attempt is made and how long they wait. The later
    declaration (line 118) is the one every caller gets; the earlier one
    (line 65) is shadowed by it and is modelled on its own terms.

    The outcome of each attempt is an input, one per attempt the loop may
    make; the waits come back as a list of milliseconds. */
module Retry {
  import opened Fetch

  function Pow2(n: nat): (p: nat)
    ensures p >= 1
  {
    if n == 0 then 1 else 2 * Pow2(n - 1)
  }

  /** How long to wait after failed attempt `i` (counting from 0). */
  datatype Policy =
    | Doubling(backoff: nat)           // backoff * 2^i
    | Capped(base: nat, cap: nat)      // min(base * 2^i, cap)

  function Delay(p: Policy, i: nat): nat {
    match p
    case Doubling(backoff) => backoff * Pow2(i)
    case Capped(base, cap) => if base * Pow2(i) < cap then base * Pow2(i) else cap
  }

  /** The waits after the first `n` failed attempts. */
  function Delays(p: Policy, n: nat): (ds: seq<nat>)
    ensures |ds| == n
    ensures forall i :: 0 <= i < n ==> ds[i] == Delay(p, i)
  {
    seq(n, i requires 0 <= i => Delay(p, i))
  }

  /** What a retry loop did: how it settled, how many attempts it made and
      the waits between them. */
  datatype Run = Run(result: Outcome, attempts: nat, delays: seq<nat>)

  /** The error thrown after the loop when it made no attempt at all. */
  const Exhausted := Raised("Error", "fetchWithRetry: exhausted retries")

  /** The loop from attempt `i` on. */
  function Attempt(outcomes: seq<Outcome>, retries: int, p: Policy, i: nat): (r: Run)
    requires retries <= |outcomes| && i <= |outcomes|
    decreases |outcomes| - i
    ensures i < retries ==> r.attempts > i && |r.delays| == r.attempts - 1 - i
    ensures i < retries ==> r.attempts <= retries
    ensures i < retries && r.result.Responded? ==> r.result == outcomes[r.attempts - 1]
    ensures i < retries && r.result.Threw? ==> r.attempts == retries && r.result == outcomes[retries - 1]
    ensures i < retries ==> forall j :: i <= j < r.attempts - 1 ==> outcomes[j].Threw?
    ensures i < retries ==> forall j :: 0 <= j < |r.delays| ==> r.delays[j] == Delay(p, i + j)
    ensures retries <= i ==> r.result == Threw(Exhausted) && r.attempts == i && r.delays == []
  {
    if i >= retries then Run(Threw(Exhausted), i, [])
    else
      match outcomes[i]
      case Responded(res) => Run(Responded(res), i + 1, [])
      case Threw(e) =>
        if i == retries - 1 then Run(Threw(e), i + 1, [])
        else
          var rest := Attempt(outcomes, retries, p, i + 1);
          Run(rest.result, rest.attempts, [Delay(p, i)] + rest.delays)
  }

  /** The loop of the live `fetchWithRetry` (line 118): each attempt is a
      plain `fetch`, and the wait after failed attempt i is backoff * 2^i.
      Its defaults are 3 retries and 500 ms. */
  function FetchWithRetry(outcomes: seq<Outcome>, retries: int, backoff: nat): (r: Run)
    requires retries <= |outcomes|
    ensures retries <= 0 <==> r.attempts == 0
    ensures retries <= 0 ==> r.result == Threw(Exhausted) && r.delays == []
    ensures retries > 0 ==> 1 <= r.attempts <= retries && |r.delays| == r.attempts - 1
  {
    Attempt(outcomes, retries, Doubling(backoff), 0)
  }

  /** The headers the shadowed helper sends: a JSON content type unless the
      caller's headers name one, in which case the caller's wins. The spread
      is a plain object union, so the key must match exactly: a caller's
      `content-type` travels beside `Content-Type` (fetch then joins the two
      values), and a `Headers` instance, which spreads to `{}`, adds nothing.
      Only plain-object header maps are modelled. */
  function MergeHeaders(caller: map<string, string>): (h: map<string, string>)
    ensures h.Keys == caller.Keys + {"Content-Type"}
    ensures forall k :: k in caller ==> h[k] == caller[k]
    ensures "Content-Type" !in caller ==> h["Content-Type"] == "application/json"
  {
    map["Content-Type" := "application/json"] + caller
  }

  /** The wait policy of the shadowed helper: 1 s doubling, at most 10 s. */
  const ShadowedPolicy := Capped(1000, 10000)

  datatype ShadowedRun = ShadowedRun(run: Run, headers: map<string, string>)

  /** The shadowed `fetchWithRetry` (line 65): each attempt goes through
      `fetchWithTimeout` with its default 5 s deadline and the merged
      headers; a timeout is an error like any other. */
  function ShadowedFetchWithRetry(nets: seq<Network>, caller: map<string, string>, retries: int): (r: ShadowedRun)
    requires retries <= |nets|
    ensures r.headers == MergeHeaders(caller)
    ensures retries > 0 ==> 1 <= r.run.attempts <= retries
    ensures forall i :: 0 <= i < |r.run.delays| ==> r.run.delays[i] <= 10000
  {
    var outcomes := seq(|nets|, i requires 0 <= i < |nets| => FetchWithTimeout(nets[i], DefaultTimeout).outcome);
    ShadowedRun(Attempt(outcomes, retries, ShadowedPolicy, 0), MergeHeaders(caller))
  }

  /** The first response ends the loop, whatever its status: attempts after
      it are never made, and the waits are those after the errors before
      it. */
  lemma FirstResponseReturned(outcomes: seq<Outcome>, retries: int, p: Policy, k: nat)
    requires retries <= |outcomes| && k < retries
    requires outcomes[k].Responded?
    requires forall j :: 0 <= j < k ==> outcomes[j].Threw?
    ensures var r := Attempt(outcomes, retries, p, 0);
      r.result == outcomes[k] && r.attempts == k + 1 && r.delays == Delays(p, k)
  {
  }

  /** When every attempt throws, the loop makes all `retries` attempts,
      waits between each pair, and rethrows the last error. */
  lemma AllThrow(outcomes: seq<Outcome>, retries: int, p: Policy)
    requires retries <= |outcomes| && 0 < retries
    requires forall j :: 0 <= j < retries ==> outcomes[j].Threw?
    ensures var r := Attempt(outcomes, retries, p, 0);
      r.result == outcomes[retries - 1] && r.attempts == retries
      && r.delays == Delays(p, retries - 1)
  {
  }

  /** The live helper returns the first response, 2xx or not, after waiting
      backoff * 2^j for each error j before it. */
  lemma LiveReturnsFirstResponse(outcomes: seq<Outcome>, retries: int, backoff: nat, k: nat)
    requires retries <= |outcomes| && k < retries
    requires outcomes[k].Responded?
    requires forall j :: 0 <= j < k ==> outcomes[j].Threw?
    ensures var r := FetchWithRetry(outcomes, retries, backoff);
      r.result == outcomes[k] && r.attempts == k + 1 && r.delays == Delays(Doubling(backoff), k)
  {
    FirstResponseReturned(outcomes, retries, Doubling(backoff), k);
  }

  /** The sum of a list of waits. */
  function Total(ds: seq<nat>): nat {
    if ds == [] then 0 else Total(ds[..|ds| - 1]) + ds[|ds| - 1]
  }

  /** Doubling waits add up to backoff * (2^n - 1). */
  lemma {:induction false} DoublingTotal(backoff: nat, n: nat)
    ensures Total(Delays(Doubling(backoff), n)) == backoff * (Pow2(n) - 1)
  {
    if n > 0 {
      var ds := Delays(Doubling(backoff), n);
      assert ds[..n - 1] == Delays(Doubling(backoff), n - 1);
      DoublingTotal(backoff, n - 1);
    }
  }

  /** When every attempt of the live helper throws, it makes exactly
      `retries` attempts, waiting backoff * 2^j after attempt j, and
      rethrows the last attempt's error. */
  lemma LiveAllThrow(outcomes: seq<Outcome>, retries: int, backoff: nat)
    requires retries <= |outcomes| && retries > 0
    requires forall j :: 0 <= j < retries ==> outcomes[j].Threw?
    ensures var r := FetchWithRetry(outcomes, retries, backoff);
      r.result == outcomes[retries - 1] && r.attempts == retries
      && r.delays == Delays(Doubling(backoff), retries - 1)
  {
    AllThrow(outcomes, retries, Doubling(backoff));
  }

  /** ... and waits backoff * (2^(retries-1) - 1) milliseconds in all. */
  lemma LiveTotalWait(outcomes: seq<Outcome>, retries: int, backoff: nat)
    requires retries <= |outcomes| && retries > 0
    requires forall j :: 0 <= j < retries ==> outcomes[j].Threw?
    ensures Total(FetchWithRetry(outcomes, retries, backoff).delays) == backoff * (Pow2(retries - 1) - 1)
  {
    var n: nat := retries - 1;
    var ds := Delays(Doubling(backoff), n);
    assert FetchWithRetry(outcomes, retries, backoff).delays == ds by {
      LiveAllThrow(outcomes, retries, backoff);
    }
    assert Total(ds) == backoff * (Pow2(n) - 1) by {
      DoublingTotal(backoff, n);
    }
  }

  /** The shadowed helper's waits are 1, 2, 4 and 8 seconds, then 10 s
      from the fifth wait on. */
  lemma {:induction false} ShadowedDelays(i: nat)
    ensures i <= 3 ==> Delay(ShadowedPolicy, i) == 1000 * Pow2(i)
    ensures i >= 4 ==> Delay(ShadowedPolicy, i) == 10000
  {
    if i >= 4 {
      Pow2AtLeast(i);
    }
  }

  lemma {:induction false} Pow2AtLeast(i: nat)
    requires i >= 4
    ensures Pow2(i) >= 16
  {
    if i > 4 {
      Pow2AtLeast(i - 1);
    }
  }

  /** Which error an attempt throws, an `AbortError` from the timeout or any
      other, does not change how many attempts are made or how long the
      loop waits. */
  lemma ErrorKindIrrelevant(outcomes: seq<Outcome>, retries: int, p: Policy, i: nat, k: nat, e: Error)
    requires retries <= |outcomes| && i <= |outcomes| && k < |outcomes| && outcomes[k].Threw?
    ensures var a := Attempt(outcomes, retries, p, i);
      var b := Attempt(outcomes[k := Threw(e)], retries, p, i);
      a.attempts == b.attempts && a.delays == b.delays
  {
    var a := Attempt(outcomes, retries, p, i);
    var b := Attempt(outcomes[k := Threw(e)], retries, p, i);
    SameAttempts(outcomes, retries, p, i, k, e);
    assert forall j :: 0 <= j < |a.delays| ==> a.delays[j] == b.delays[j];
  }

  /** The number of attempts depends only on which outcomes are responses:
      it is one past the first response, or all of them. */
  lemma SameAttempts(outcomes: seq<Outcome>, retries: int, p: Policy, i: nat, k: nat, e: Error)
    requires retries <= |outcomes| && i <= |outcomes| && k < |outcomes| && outcomes[k].Threw?
    ensures Attempt(outcomes, retries, p, i).attempts == Attempt(outcomes[k := Threw(e)], retries, p, i).attempts
  {
    var changed := outcomes[k := Threw(e)];
    var a := Attempt(outcomes, retries, p, i);
    var b := Attempt(changed, retries, p, i);
    assert forall j :: 0 <= j < |outcomes| ==> (changed[j].Threw? <==> outcomes[j].Threw?);
  }

  /** Only the error passed on at the end can differ: the replaced one,
      when the replaced attempt was the last. */
  lemma OnlyLastErrorShows(outcomes: seq<Outcome>, retries: int, p: Policy, i: nat, k: nat, e: Error)
    requires retries <= |outcomes| && i <= |outcomes| && k < |outcomes| && outcomes[k].Threw?
    ensures var a := Attempt(outcomes, retries, p, i);
      var b := Attempt(outcomes[k := Threw(e)], retries, p, i);
      a.result != b.result ==> a.result == outcomes[k] && b.result == Threw(e)
  {
    var changed := outcomes[k := Threw(e)];
    var a := Attempt(outcomes, retries, p, i);
    var b := Attempt(changed, retries, p, i);
    SameAttempts(outcomes, retries, p, i, k, e);
    assert forall j :: 0 <= j < |outcomes| ==> (changed[j].Threw? <==> outcomes[j].Threw?);
    assert forall j :: 0 <= j < |outcomes| && j != k ==> changed[j] == outcomes[j];
  }

  /** The shadowed helper with a timeout on every attempt still makes all
      its attempts, waiting at most 10 s between them. */
  lemma ShadowedAllTimeOut(nets: seq<Network>, caller: map<string, string>, retries: int)
    requires retries <= |nets| && retries > 0
    requires forall j :: 0 <= j < retries ==> nets[j].settlesAfter >= DefaultTimeout
    ensures var r := ShadowedFetchWithRetry(nets, caller, retries).run;
      r.result == Threw(AbortError) && r.attempts == retries
      && r.delays == Delays(ShadowedPolicy, retries - 1)
  {
    var outcomes := seq(|nets|, i requires 0 <= i < |nets| => FetchWithTimeout(nets[i], DefaultTimeout).outcome);
    AllThrow(outcomes, retries, ShadowedPolicy);
  }
}
