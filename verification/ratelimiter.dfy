/**
 * The token-bucket throttle placed in front of the platform's HTTP client.
 * The bucket is refilled lazily: only when a caller finds it empty does it
 * add elapsed-seconds × RATE tokens (capped at MAX_TOKENS), and the refill
 * is applied, together with its timestamp, only when it would lift the
 * count above one token. Time is a millisecond clock reading passed in by
 * the caller; a caller that finds no token waits 1000 ms and checks again.
 */
module RateLimit {

  const Rate: real := 8.0
  const MaxTokens: real := 15.0
  /** The poll interval of waitForTokens, in milliseconds. */
  const PollMs: int := 1000

  /** The limiter's two mutable fields as a value. */
  datatype Bucket = Bucket(tokens: real, updatedAt: int)

  predicate InBounds(b: Bucket) {
    0.0 <= b.tokens <= MaxTokens
  }

  /** Tokens earned between the last refill and now (negative if the clock went back). */
  function Earned(b: Bucket, now: int): real {
    ((now - b.updatedAt) as real / 1000.0) * Rate
  }

  function Min(x: real, y: real): real {
    if x < y then x else y
  }

  /** addMoreTokens as a function of the bucket and the clock reading. */
  function Refill(b: Bucket, now: int): (r: Bucket)
    ensures InBounds(b) ==> InBounds(r)
    ensures r == b || (r.updatedAt == now && 1.0 < r.tokens <= MaxTokens)
    ensures b.updatedAt <= now && b.tokens <= MaxTokens ==> b.tokens <= r.tokens
    ensures b.tokens + Earned(b, now) <= 1.0 ==> r == b
    ensures b.tokens + Earned(b, now) > 1.0 ==> r.updatedAt == now
  {
    var sum := b.tokens + Earned(b, now);
    if sum > 1.0 then Bucket(if sum < MaxTokens then sum else MaxTokens, now) else b
  }

  /** The number of further polls a caller needs, at most, before it can take a token. */
  function PollsNeeded(b: Bucket, now: int): nat {
    if b.tokens >= 1.0 then 0 else if now - b.updatedAt >= PollMs then 1 else 2
  }

  /**
   * waitForTokens for a caller that first checks at time now and re-checks every
   * PollMs: the number of 1000 ms waits it goes through and the bucket after it
   * has taken its token.
   */
  function Wait(b: Bucket, now: int): (r: (nat, Bucket))
    requires InBounds(b) && b.updatedAt <= now
    ensures r.0 == 0 <==> b.tokens >= 1.0
    ensures r.0 <= PollsNeeded(b, now) <= 2
    ensures InBounds(r.1) && r.1.updatedAt <= now + PollMs * r.0
    ensures r.0 == 0 ==> r.1 == Bucket(b.tokens - 1.0, b.updatedAt)
    ensures r.0 > 0 ==> r.1 == Bucket(Min(b.tokens + Earned(b, now + PollMs * (r.0 - 1)), MaxTokens) - 1.0,
                                      now + PollMs * (r.0 - 1))
    ensures r.0 == 1 <==> b.tokens < 1.0 && b.tokens + Earned(b, now) > 1.0
    decreases PollsNeeded(b, now)
  {
    if b.tokens >= 1.0 then (0, Bucket(b.tokens - 1.0, b.updatedAt))
    else
      var w := Wait(Refill(b, now), now + PollMs);
      (w.0 + 1, w.1)
  }

  /**
   * A caller that arrives at an empty bucket just refilled waits two polls: the
   * refill it triggers at once earns nothing, and the one a second later is only
   * looked at after a further second.
   */
  lemma EmptyBucketWaitsTwoPolls(t: int)
    ensures Wait(Bucket(0.0, t), t) == (2, Bucket(7.0, t + PollMs))
  {
    var b1 := Refill(Bucket(0.0, t), t);
    assert b1 == Bucket(0.0, t);
    var b2 := Refill(b1, t + PollMs);
    assert b2 == Bucket(8.0, t + PollMs);
    assert Wait(b2, t + 2 * PollMs) == (0, Bucket(7.0, t + PollMs));
  }

  /** What the limiter hands to the wrapped client: the caller's arguments, at the time it runs. */
  datatype ForwardedCall<A> = ForwardedCall(args: A, at: int)

  class RateLimiter {
    var tokens: real
    var updatedAt: int

    ghost predicate Valid()
      reads this
    {
      InBounds(Bucket(tokens, updatedAt))
    }

    function State(): Bucket
      reads this
    {
      Bucket(tokens, updatedAt)
    }

    /** A new limiter is full, stamped with the time it was made. */
    constructor (now: int)
      ensures Valid()
      ensures tokens == MaxTokens && updatedAt == now
    {
      tokens := MaxTokens;
      updatedAt := now;
    }

    method AddMoreTokens(now: int)
      modifies this
      ensures old(tokens) + Earned(old(State()), now) > 1.0 ==>
        tokens == (if old(tokens) + Earned(old(State()), now) < MaxTokens
                   then old(tokens) + Earned(old(State()), now) else MaxTokens)
        && updatedAt == now
      ensures old(tokens) + Earned(old(State()), now) <= 1.0 ==> tokens == old(tokens) && updatedAt == old(updatedAt)
      ensures State() == Refill(old(State()), now)
      ensures old(Valid()) ==> Valid()
    {
      var timeSinceUpdate := (now - updatedAt) as real / 1000.0;
      var newTokens := timeSinceUpdate * Rate;
      if newTokens + tokens > 1.0 {
        tokens := if newTokens + tokens < MaxTokens then newTokens + tokens else MaxTokens;
        updatedAt := now;
      }
    }

    /**
     * Takes one token, first checking at time now and, while none is there,
     * refilling and re-checking PollMs later. Returns how many waits it took.
     */
    method WaitForTokens(now: int) returns (waits: nat)
      requires Valid() && updatedAt <= now
      modifies this
      ensures Valid()
      ensures (waits, State()) == Wait(old(State()), now)
      ensures old(tokens) >= 1.0 ==> waits == 0 && tokens == old(tokens) - 1.0 && updatedAt == old(updatedAt)
      ensures old(tokens) < 1.0 ==> 1 <= waits <= 2
      ensures waits > 0 ==>
        tokens == Min(old(tokens) + Earned(old(State()), now + PollMs * (waits - 1)), MaxTokens) - 1.0
        && updatedAt == now + PollMs * (waits - 1)
    {
      var t := now;
      waits := 0;
      while tokens < 1.0
        invariant Valid() && updatedAt <= t && t == now + PollMs * waits
        invariant Wait(old(State()), now) == (waits + Wait(State(), t).0, Wait(State(), t).1)
        decreases PollsNeeded(State(), t)
      {
        AddMoreTokens(t);
        t := t + PollMs;
        waits := waits + 1;
      }
      tokens := tokens - 1.0;
    }

    /** request: waits for a token, then forwards the arguments to the client. */
    method Request<A>(args: A, now: int) returns (call: ForwardedCall<A>)
      requires Valid() && updatedAt <= now
      modifies this
      ensures Valid()
      ensures State() == Wait(old(State()), now).1
      ensures call == ForwardedCall(args, now + PollMs * Wait(old(State()), now).0)
      ensures old(tokens) >= 1.0 ==> call.at == now && tokens == old(tokens) - 1.0
      ensures old(tokens) < 1.0 ==>
        tokens == Min(old(tokens) + Earned(old(State()), call.at - PollMs), MaxTokens) - 1.0
        && updatedAt == call.at - PollMs
    {
      var waits := WaitForTokens(now);
      call := ForwardedCall(args, now + PollMs * waits);
    }
  }
}
