/** One `fetch` as the browser clients see it, and `fetchWithTimeout` of
    app/translator-client.tsx. The network is an input: what the request
    would settle with, and when. Timers are events in a returned trace, not
    a clock. */
module Fetch {
  import opened Values

  /** What `res.json()` settles with: the parsed body, or a rejection when
      the body is not JSON. */
  datatype Body = JsonBody(value: Value) | NotJson

  datatype Response = Response(status: int, body: Body)

  /** `res.ok`: a status in the range 200-299. */
  predicate Ok(r: Response) {
    200 <= r.status <= 299
  }

  /** An error a fetch or a retry loop rejects with: an `AbortError` (whose
      message is the engine's and is not modelled), or any other error with
      its `name` and `message`. */
  datatype Error = AbortError | Raised(name: string, message: string)

  /** How an awaited fetch settles. */
  datatype Outcome = Responded(response: Response) | Threw(error: Error)

  /** The network's side of one request: what it would settle with if left
      alone, and after how many milliseconds. */
  datatype Network = Network(outcome: Outcome, settlesAfter: nat)

  /** The timer calls `fetchWithTimeout` makes, in order. */
  datatype TimerEvent = TimerSet(delay: nat) | TimerFired | TimerCleared

  datatype Timed = Timed(outcome: Outcome, events: seq<TimerEvent>)

  /** The default of `fetchWithTimeout`'s `timeout` parameter. */
  const DefaultTimeout := 5000

  /** `fetchWithTimeout(url, options, timeout)`. A request that settles
      before the deadline keeps its outcome; otherwise the timer aborts it
      and it rejects with an `AbortError`. A request due exactly at the
      deadline is taken as aborted. The timer is cleared on both paths. */
  function FetchWithTimeout(net: Network, timeout: nat): (t: Timed)
    ensures |t.events| >= 2 && t.events[0] == TimerSet(timeout)
    ensures t.events[|t.events| - 1] == TimerCleared
    ensures TimerFired in t.events <==> net.settlesAfter >= timeout
    ensures t.outcome == net.outcome || t.outcome == Threw(AbortError)
    ensures net.settlesAfter < timeout ==> t.outcome == net.outcome
  {
    if net.settlesAfter < timeout then
      Timed(net.outcome, [TimerSet(timeout), TimerCleared])
    else
      Timed(Threw(AbortError), [TimerSet(timeout), TimerFired, TimerCleared])
  }

  /** Every path sets the timer once and clears it once, last: no timer
      outlives the call, whatever the network does. */
  lemma TimerNeverLeaks(net: Network, timeout: nat)
    ensures var ev := FetchWithTimeout(net, timeout).events;
      multiset(ev)[TimerSet(timeout)] == 1 && multiset(ev)[TimerCleared] == 1
      && ev[|ev| - 1] == TimerCleared
  {
    var ev := FetchWithTimeout(net, timeout).events;
    if net.settlesAfter < timeout {
      assert ev == [TimerSet(timeout)] + [TimerCleared];
    } else {
      assert ev == [TimerSet(timeout)] + [TimerFired] + [TimerCleared];
    }
  }

  /** A late response is never seen: it becomes an `AbortError`, and a
      timely one is passed through unchanged, response or error. */
  lemma TimeoutOutcome(net: Network, timeout: nat)
    ensures FetchWithTimeout(net, timeout).outcome.Responded? <==>
      net.outcome.Responded? && net.settlesAfter < timeout
    ensures FetchWithTimeout(net, timeout).outcome == Threw(AbortError) <==>
      net.settlesAfter >= timeout || net.outcome == Threw(AbortError)
  {
  }
}
