/**
 * fetchWithRetry of ScoreAPI (D1P92.js:18-44) over an explicit sequence of
 * attempt outcomes: outcomes[i] is what the (i+1)-th request gets back, and
 * requests past the end of the sequence fail (an empty sequence is a server
 * that cannot be reached). The fixed pause between attempts is counted, not
 * waited for.
 */
module Retry {
  import opened Wrappers

  /** Default retry budget and pause (D1P92.js:11-12). */
  const MaxRetries: nat := 3
  const RetryDelayMs: nat := 1000
  /** Retry budget of the health check (D1P92.js:241). */
  const HealthCheckRetries: nat := 1

  /** What one request yields: a network error, or a status and a body that may not parse as JSON. */
  datatype Attempt<T> = NetworkError | Response(status: int, json: Option<T>)

  /** A request succeeds on a 2xx status (`response.ok`) whose body parses. */
  predicate Succeeds<T>(a: Attempt<T>)
  {
    a.Response? && 200 <= a.status <= 299 && a.json.Some?
  }

  function OutcomeAt<T>(outcomes: seq<Attempt<T>>, i: nat): Attempt<T>
  {
    if i < |outcomes| then outcomes[i] else NetworkError
  }

  /** The parsed body if some attempt succeeded, and how many requests and pauses it took. */
  datatype Fetched<T> = Fetched(value: Option<T>, attempts: nat, delays: nat)

  /** The retry recursion, starting at request number `i` with `retries` retries left. */
  function FetchFrom<T>(outcomes: seq<Attempt<T>>, i: nat, retries: nat): (r: Fetched<T>)
    ensures 1 <= r.attempts <= retries + 1 && r.delays == r.attempts - 1
    ensures forall j :: i <= j < i + r.attempts - 1 ==> !Succeeds(OutcomeAt(outcomes, j))
    ensures r.value.Some? ==>
      && Succeeds(OutcomeAt(outcomes, i + r.attempts - 1))
      && r.value == OutcomeAt(outcomes, i + r.attempts - 1).json
    ensures r.value.None? ==> r.attempts == retries + 1 && !Succeeds(OutcomeAt(outcomes, i + retries))
    decreases retries
  {
    var a := OutcomeAt(outcomes, i);
    if Succeeds(a) then Fetched(a.json, 1, 0)
    else if retries > 0 then
      var rest := FetchFrom(outcomes, i + 1, retries - 1);
      Fetched(rest.value, rest.attempts + 1, rest.delays + 1)
    else Fetched(None, 1, 0)
  }

  /**
   * fetchWithRetry: at most `retries + 1` requests, stopping at the first
   * success; a pause before every retry; it fails only when every request of
   * the budget failed.
   */
  function FetchWithRetry<T>(outcomes: seq<Attempt<T>>, retries: nat): (r: Fetched<T>)
    ensures 1 <= r.attempts <= retries + 1 && r.delays == r.attempts - 1 && r.delays <= retries
    ensures r.value.Some? <==> exists j :: 0 <= j <= retries && Succeeds(OutcomeAt(outcomes, j))
    ensures r.value.Some? ==>
      && Succeeds(OutcomeAt(outcomes, r.attempts - 1))
      && r.value == OutcomeAt(outcomes, r.attempts - 1).json
      && forall j :: 0 <= j < r.attempts - 1 ==> !Succeeds(OutcomeAt(outcomes, j))
    ensures r.value.None? ==> r.attempts == retries + 1
  {
    FetchFrom(outcomes, 0, retries)
  }

  /** With the default budget: at most four requests and three seconds of pauses. */
  lemma DefaultBudget<T>(outcomes: seq<Attempt<T>>)
    ensures FetchWithRetry(outcomes, MaxRetries).attempts <= 4
    ensures FetchWithRetry(outcomes, MaxRetries).delays * RetryDelayMs <= 3000
  {
  }

  /** A server that cannot be reached costs the whole budget. */
  lemma UnreachableUsesWholeBudget<T>(retries: nat)
    ensures var none: seq<Attempt<T>> := []; FetchWithRetry(none, retries) == Fetched(None, retries + 1, retries)
  {
  }

  datatype ServerStatus = ServerStatus(available: bool, attempts: nat)

  /** checkServerStatus (D1P92.js:239-246): one retry, so two requests at most. */
  function CheckServerStatus<T>(outcomes: seq<Attempt<T>>): (r: ServerStatus)
    ensures r.available <==> Succeeds(OutcomeAt(outcomes, 0)) || Succeeds(OutcomeAt(outcomes, 1))
    ensures 1 <= r.attempts <= 2
  {
    var f := FetchWithRetry(outcomes, HealthCheckRetries);
    ServerStatus(f.value.Some?, f.attempts)
  }
}
