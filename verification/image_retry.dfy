/** The request loop of `classify_image`: at most five POSTs, exponential
    backoff between them, the first decoded 200 answer returned at once. */
module ImageRetry {
  import opened Base
  import Json

  const MaxRetries: nat := 5

  /** What one POST yields: a `RequestException` from the transport (timeout,
      connection error), or a status with the body `response.json()` decodes
      (None when it does not decode). */
  datatype Attempt =
    | TransportError
    | Response(status: int, body: Option<Json.Value>)

  /** A decoded 200 answer: returned to the caller. */
  predicate Succeeds(a: Attempt) {
    a.Response? && a.status == 200 && a.body.Some?
  }

  /** Raises a `RequestException` inside the `try`: the transport error, the
      `JSONDecodeError` of an undecodable 200 body, or `raise_for_status` on
      a 4xx/5xx status. */
  predicate Raises(a: Attempt) {
    || a.TransportError?
    || (a.status == 200 && a.body.None?)
    || (a.status != 200 && 400 <= a.status < 600)
  }

  /** The explicit "server busy" branch: 429 or any status from 500 up. */
  predicate Busy(a: Attempt) {
    a.Response? && a.status != 200 && (a.status == 429 || a.status >= 500)
  }

  /** On any attempt but the last, this answer is followed by a backoff
      sleep before the next POST. */
  predicate BackedOff(a: Attempt) {
    Busy(a) || Raises(a)
  }

  /** How many of the given attempts are followed by a backoff sleep. */
  function CountBackedOff(attempts: seq<Attempt>): (n: nat)
    ensures n <= |attempts|
  {
    if |attempts| == 0 then 0
    else CountBackedOff(attempts[..|attempts| - 1]) + (if BackedOff(attempts[|attempts| - 1]) then 1 else 0)
  }

  /** Counting one more attempt adds one exactly when that attempt backs off. */
  lemma CountBackedOffStep(attempts: seq<Attempt>, i: nat)
    requires i < |attempts|
    ensures CountBackedOff(attempts[..i + 1]) == CountBackedOff(attempts[..i]) + (if BackedOff(attempts[i]) then 1 else 0)
  {
    assert attempts[..i + 1][..i] == attempts[..i];
  }

  /** Which answers other than 200 are followed by a backoff sleep: exactly
      the 4xx and higher statuses. A 1xx-3xx answer raises nothing and is
      followed by the next POST at once, without sleeping. */
  lemma BackedOffStatuses(status: int, body: Option<Json.Value>)
    requires status != 200
    ensures BackedOff(Response(status, body)) <==> status >= 400
    ensures Raises(Response(status, body)) <==> 400 <= status < 600
  {
  }

  /** The delays slept for k retries: 1, 2, 4, ... seconds. */
  function Backoff(k: nat): (delays: seq<nat>)
    ensures |delays| == k
    ensures forall j :: 0 <= j < k ==> delays[j] == Pow2(j)
  {
    if k == 0 then [] else Backoff(k - 1) + [Pow2(k - 1)]
  }

  /** The delays of k retries add up to 2^k - 1 seconds. */
  lemma {:induction false} BackoffTotal(k: nat)
    ensures Sum(Backoff(k)) == Pow2(k) - 1
  {
    if k > 0 {
      BackoffTotal(k - 1);
      assert Backoff(k)[..k - 1] == Backoff(k - 1);
    }
  }

  datatype Outcome =
    | Classified(result: Json.Value)   // the decoded body of the first good 200
    | NoResult                         // the loop ran out: `return None`
    | Exited                           // `sys.exit(1)` after the last attempt raised

  /** Lines 350-386. `attempts[i]` is what the (i+1)-th POST would yield; the
      method reports the outcome, how many POSTs it made, and the sleeps in order. */
  method ClassifyImage(attempts: seq<Attempt>) returns (outcome: Outcome, used: nat, sleeps: seq<nat>)
    requires |attempts| == MaxRetries
    ensures 1 <= used <= MaxRetries
    // every POST before the last one made failed to classify
    ensures forall k :: 0 <= k < used - 1 ==> !Succeeds(attempts[k])
    // the first good answer is returned at once
    ensures outcome.Classified? <==> Succeeds(attempts[used - 1])
    ensures outcome.Classified? ==> outcome.result == attempts[used - 1].body.value
    // without a good answer all five POSTs are made
    ensures !outcome.Classified? ==> used == MaxRetries
    ensures outcome.Exited? <==> used == MaxRetries && Raises(attempts[MaxRetries - 1])
    // one doubling sleep after each retried failure, none after the last POST
    ensures |sleeps| == CountBackedOff(attempts[..Min(used, MaxRetries - 1)])
    ensures sleeps == Backoff(|sleeps|)
    ensures |sleeps| < used
  {
    var i := 0;
    var delay: nat := 1;
    sleeps := [];
    while i < MaxRetries
      invariant 0 <= i <= MaxRetries
      invariant forall k :: 0 <= k < i ==> !Succeeds(attempts[k])
      invariant |sleeps| == CountBackedOff(attempts[..Min(i, MaxRetries - 1)])
      invariant sleeps == Backoff(|sleeps|)
      invariant delay == Pow2(|sleeps|)
      invariant i < MaxRetries ==> |sleeps| <= i
      invariant i == MaxRetries ==> |sleeps| < i
      invariant i == MaxRetries ==> !Raises(attempts[MaxRetries - 1])
    {
      var a := attempts[i];
      CountBackedOffStep(attempts, i);
      if Succeeds(a) {
        return Classified(a.body.value), i + 1, sleeps;
      }
      if BackedOff(a) {
        if i < MaxRetries - 1 {
          sleeps := sleeps + [delay];
          delay := delay * 2;
        } else if Raises(a) {
          return Exited, MaxRetries, sleeps;
        }
      }
      i := i + 1;
    }
    return NoResult, MaxRetries, sleeps;
  }

  /** Whatever the server does, one call sleeps at most 15 s in total
      between its POSTs. */
  lemma SleepBudget(sleeps: seq<nat>, used: nat)
    requires used <= MaxRetries && |sleeps| < used && sleeps == Backoff(|sleeps|)
    ensures Sum(sleeps) <= 15
  {
    BackoffTotal(|sleeps|);
    assert Pow2(|sleeps|) <= 16 by {
      assert |sleeps| <= 4;
      if |sleeps| < 4 {
        PowMonotone(|sleeps|, 4);
      }
    }
  }

  lemma {:induction false} PowMonotone(a: nat, b: nat)
    requires a <= b
    ensures Pow2(a) <= Pow2(b)
    decreases b
  {
    if a < b {
      PowMonotone(a, b - 1);
    }
  }
}
