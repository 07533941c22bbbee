/** `getEmbedding(text, retries)`: ask the embedding service up to `retries`
    times, waiting longer after each failure. The service is an oracle: attempt
    `j` yields the outcome `attempt(j)`; a request that does not answer within
    30 seconds is one of its failures. */
module Embedding {

  /** An embedding vector as the service returns it; no arithmetic is done on it. */
  type Vector = seq<real>

  /** The embedding model every request and every stored record names. */
  const EmbeddingModel := "text-embedding-ada-002"

  /** The number of attempts when the caller gives none. */
  const DefaultRetries: int := 3

  /** What one request yields: a vector, or an error with its message
      (`'OpenAI API timeout'` when the 30-second race is lost). */
  datatype Attempt = Ok(vector: Vector) | Err(message: string)

  /** What the call does: return a vector, throw the error of the last attempt,
      or, with no attempt allowed, fall off the end and return `undefined`. */
  datatype Fetched = Fetched(vector: Vector) | Thrown(message: string) | Undefined

  /** The number of failed attempts before the first success among the first `n`;
      `n` when all of them fail. */
  function FirstOk(attempt: nat -> Attempt, n: nat): (j: nat)
    ensures j <= n
    ensures forall k :: 0 <= k < j ==> attempt(k).Err?
    ensures j < n ==> attempt(j).Ok?
  {
    if n == 0 then 0
    else if FirstOk(attempt, n - 1) < n - 1 then FirstOk(attempt, n - 1)
    else if attempt(n - 1).Ok? then n - 1
    else n
  }

  /** The waits after the first `n` failed attempts: 1000 ms, 2000 ms, ... */
  function Backoff(n: nat): (delays: seq<nat>)
    ensures |delays| == n
    ensures forall k :: 0 <= k < n ==> delays[k] == 1000 * (k + 1)
  {
    if n == 0 then [] else Backoff(n - 1) + [1000 * n]
  }

  /** The retry loop. `delays` records every wait in order. */
  method GetEmbedding(text: string, retries: int, attempt: nat -> Attempt)
    returns (r: Fetched, delays: seq<nat>)
    ensures retries <= 0 ==> r == Undefined && delays == []
    ensures retries > 0 && FirstOk(attempt, retries) < retries ==>
              r == Fetched(attempt(FirstOk(attempt, retries)).vector) && delays == Backoff(FirstOk(attempt, retries))
    ensures retries > 0 && FirstOk(attempt, retries) == retries ==>
              r == Thrown(attempt(retries - 1).message) && delays == Backoff(retries - 1)
  {
    delays := [];
    var i := 0;
    while i < retries
      invariant 0 <= i && (retries > 0 ==> i < retries) && (retries <= 0 ==> i == 0)
      invariant forall k :: 0 <= k < i ==> attempt(k).Err?
      invariant delays == Backoff(i)
      decreases retries - i
    {
      var response := attempt(i);
      if response.Ok? {
        FirstOkAt(attempt, i, retries);
        return Fetched(response.vector), delays;
      }
      if i == retries - 1 {
        AllFailed(attempt, retries);
        return Thrown(response.message), delays;
      }
      delays := delays + [1000 * (i + 1)];
      i := i + 1;
    }
    r := Undefined;
  }

  /** A success after `j` failures is the first one, whatever follows. */
  lemma {:induction false} FirstOkAt(attempt: nat -> Attempt, j: nat, n: nat)
    requires j < n && attempt(j).Ok?
    requires forall k :: 0 <= k < j ==> attempt(k).Err?
    ensures FirstOk(attempt, n) == j
    decreases n
  {
    if n - 1 > j {
      FirstOkAt(attempt, j, n - 1);
    }
  }

  lemma {:induction false} AllFailed(attempt: nat -> Attempt, n: nat)
    requires forall k :: 0 <= k < n ==> attempt(k).Err?
    ensures FirstOk(attempt, n) == n
    decreases n
  {
    if n > 0 {
      AllFailed(attempt, n - 1);
    }
  }

  /** With the default of three attempts all failing, the call waits 1000 ms and
      then 2000 ms, and throws the third error. */
  lemma DefaultRetriesWaitThreeSeconds(attempt: nat -> Attempt)
    requires attempt(0).Err? && attempt(1).Err? && attempt(2).Err?
    ensures FirstOk(attempt, DefaultRetries) == DefaultRetries
    ensures Backoff(DefaultRetries - 1) == [1000, 2000]
  {
    AllFailed(attempt, 3);
  }
}
