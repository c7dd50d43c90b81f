/** One marketplace REST call with its retry loop, and why a create cannot double-rent. */
module Request {
  import opened Prelude

  /** What one attempt can meet on the wire. */
  datatype Outcome =
    | Answered // a response that parses
    | HttpError(code: int)
    | NameTemporarilyUnresolved // EAI_AGAIN: nothing was sent
    | NameUnresolvable // another resolver error: nothing was sent
    | TransportFault(received: bool) // reset or timeout; the server may have acted
    | Uncaught // an unparsable or cut-off body: outside the handled exceptions

  datatype Reply = Success | VastError(code: Option<int>) | Escaped

  /** Did the server see this attempt? */
  predicate Reached(o: Outcome) {
    match o
    case Answered => true
    case HttpError(_) => true
    case TransportFault(received) => received
    case Uncaught => true
    case _ => false
  }

  const RETRY_HTTP := {408, 425, 429, 500, 502, 503, 504}

  /** Worth retrying: the resolver's "try again" always, anything else only when repeating
      the call is harmless. */
  predicate Transient(o: Outcome, idempotent: bool) {
    match o
    case HttpError(code) => idempotent && code in RETRY_HTTP
    case NameTemporarilyUnresolved => true
    case NameUnresolvable => false
    case TransportFault(_) => idempotent
    case _ => false
  }

  /** The faults an idempotent call is tried again after: the resolver's "try again", anything on
      the transport, and seven HTTP statuses. A create is tried again only after the first. */
  predicate TriedAgain(o: Outcome, idempotent: bool) {
    || o == NameTemporarilyUnresolved
    || (idempotent && o.TransportFault?)
    || (idempotent && o.HttpError? && IsPassingStatus(o.code))
  }

  /** Request timeout, too early, too many requests, and the server errors but 501. */
  predicate IsPassingStatus(code: int) {
    code == 408 || code == 425 || code == 429 || (500 <= code <= 504 && code != 501)
  }

  lemma TransientIsTriedAgain(o: Outcome, idempotent: bool)
    ensures Transient(o, idempotent) <==> TriedAgain(o, idempotent)
  {
    if o.HttpError? {
      assert o.code in RETRY_HTTP <==> IsPassingStatus(o.code);
    }
  }

  /** The call answers what its last attempt met. */
  ghost predicate RepliesTo(reply: Reply, o: Outcome) {
    && (reply.Success? <==> o.Answered?)
    && (reply.Escaped? <==> o.Uncaught?)
    && (forall code :: reply == VastError(Some(code)) <==> o == HttpError(code))
  }

  function Raised(o: Outcome): Reply {
    match o
    case Answered => Success
    case HttpError(code) => VastError(Some(code))
    case Uncaught => Escaped
    case _ => VastError(None)
  }

  function Pow2(n: nat): real { if n == 0 then 1.0 else 2.0 * Pow2(n - 1) }

  /** Pause after attempt i: 0.5, 1, 2, 4 seconds and so on, capped at 8. */
  function Backoff(i: nat): real { Min(8.0, 0.5 * Pow2(i)) }

  function TotalBackoff(n: nat): real { if n == 0 then 0.0 else TotalBackoff(n - 1) + Backoff(n - 1) }

  /** How often the server is reached by the first n attempts. */
  function ReachedCount(wire: seq<Outcome>, n: nat): nat
    requires n <= |wire|
  {
    if n == 0 then 0 else ReachedCount(wire, n - 1) + if Reached(wire[n - 1]) then 1 else 0
  }

  function Tries(tries: int): nat { if tries >= 1 then tries else 1 }

  /** The retry loop against any schedule of faults. */
  method Req(wire: seq<Outcome>, idempotent: bool, tries: int) returns (reply: Reply, attempts: nat, slept: real)
    requires |wire| >= Tries(tries)
    ensures 1 <= attempts <= Tries(tries)
    ensures reply == Raised(wire[attempts - 1])
    ensures forall k :: 0 <= k < attempts - 1 ==> Transient(wire[k], idempotent)
    ensures attempts == Tries(tries) || !Transient(wire[attempts - 1], idempotent)
    ensures slept == TotalBackoff(attempts - 1)
  {
    var limit := Tries(tries);
    attempts, slept := 0, 0.0;
    while true
      invariant attempts < limit
      invariant forall k :: 0 <= k < attempts ==> Transient(wire[k], idempotent)
      invariant slept == TotalBackoff(attempts)
      decreases limit - attempts
    {
      var o := wire[attempts];
      if o.Answered? {
        return Success, attempts + 1, slept;
      }
      if o.Uncaught? {
        return Escaped, attempts + 1, slept;
      }
      if !(Transient(o, idempotent) && attempts < limit - 1) {
        return Raised(o), attempts + 1, slept;
      }
      slept := slept + Min(8.0, 0.5 * Pow2(attempts));
      attempts := attempts + 1;
    }
  }

  lemma {:induction false} UnreachedPrefix(wire: seq<Outcome>, n: nat)
    requires n <= |wire| && forall k :: 0 <= k < n ==> Transient(wire[k], false)
    ensures ReachedCount(wire, n) == 0
  {
    if n > 0 {
      UnreachedPrefix(wire, n - 1);
    }
  }

  lemma RetriesAreThose(wire: seq<Outcome>, attempts: nat, idempotent: bool)
    requires attempts <= |wire|
    ensures forall k :: 0 <= k < attempts ==> (Transient(wire[k], idempotent) <==> TriedAgain(wire[k], idempotent))
  {
    forall k | 0 <= k < attempts ensures Transient(wire[k], idempotent) <==> TriedAgain(wire[k], idempotent) {
      TransientIsTriedAgain(wire[k], idempotent);
    }
  }

  /** A create reaches the server at most once, whatever the faults and however many tries
      it is given, and exactly once when it succeeds. The server saw nothing of it exactly when it
      reports a failure without an HTTP status and its last attempt's response did not get lost. */
  method Create(wire: seq<Outcome>, tries: int) returns (reply: Reply, attempts: nat, slept: real)
    requires |wire| >= Tries(tries)
    ensures 1 <= attempts && (attempts <= tries || attempts == 1) && ReachedCount(wire, attempts) <= 1
    ensures forall k :: 0 <= k < attempts - 1 ==> wire[k] == NameTemporarilyUnresolved
    ensures attempts >= tries || wire[attempts - 1] != NameTemporarilyUnresolved
    ensures RepliesTo(reply, wire[attempts - 1])
    ensures reply == Success ==> ReachedCount(wire, attempts) == 1
    ensures ReachedCount(wire, attempts) == 0
       <==> reply == VastError(None) && wire[attempts - 1] != TransportFault(true)
  {
    reply, attempts, slept := Req(wire, false, tries);
    RetriesAreThose(wire, attempts, false);
    UnreachedPrefix(wire, attempts - 1);
  }

  lemma {:induction false} BackoffBound(n: nat)
    ensures 0.0 <= TotalBackoff(n) <= 8.0 * n as real
  {
    if n > 0 {
      BackoffBound(n - 1);
      PowPositive(n - 1);
    }
  }

  lemma PowPositive(n: nat)
    ensures Pow2(n) > 0.0
  {
  }

  /** The pauses double from half a second up to eight; five tries sleep at most 7.5 seconds. */
  lemma BackoffDoubles(i: nat)
    ensures Backoff(0) == 0.5 && Backoff(i + 1) == Min(8.0, 2.0 * Backoff(i))
    ensures TotalBackoff(4) == 7.5
  {
    assert Backoff(1) == 1.0 && Backoff(2) == 2.0 && Backoff(3) == 4.0 by {
      assert Pow2(2) == 4.0 && Pow2(3) == 8.0;
    }
    assert TotalBackoff(2) == 1.5 && TotalBackoff(3) == 3.5;
  }

  lemma {:induction false} TotalBackoffMonotone(m: nat, n: nat)
    requires m <= n
    ensures TotalBackoff(m) <= TotalBackoff(n)
  {
    if m < n {
      TotalBackoffMonotone(m, n - 1);
      PowPositive(n - 1);
    }
  }

  /** An idempotent call may reach the server once per attempt and never sleeps longer than
      the full backoff schedule of its tries. */
  method Read(wire: seq<Outcome>, tries: int) returns (reply: Reply, attempts: nat, slept: real)
    requires |wire| >= Tries(tries)
    ensures 1 <= attempts && (attempts <= tries || attempts == 1)
    ensures forall k :: 0 <= k < attempts - 1 ==> TriedAgain(wire[k], true)
    ensures attempts >= tries || !TriedAgain(wire[attempts - 1], true)
    ensures RepliesTo(reply, wire[attempts - 1])
    ensures ReachedCount(wire, attempts) <= attempts
    ensures 0.0 <= slept <= TotalBackoff(Tries(tries) - 1) <= 8.0 * (Tries(tries) - 1) as real
  {
    reply, attempts, slept := Req(wire, true, tries);
    RetriesAreThose(wire, attempts, true);
    CountBound(wire, attempts);
    BackoffBound(attempts - 1);
    BackoffBound(Tries(tries) - 1);
    TotalBackoffMonotone(attempts - 1, Tries(tries) - 1);
  }

  lemma {:induction false} CountBound(wire: seq<Outcome>, n: nat)
    requires n <= |wire|
    ensures ReachedCount(wire, n) <= n
  {
    if n > 0 {
      CountBound(wire, n - 1);
    }
  }

  /** The failing case, on every wire: after any number of retried name lookups, a create whose
      response is lost has reached the server, is not retried, and is reported as the failure
      that stands for "could not rent": the instance may exist and nobody knows. */
  lemma LostCreateIsInvisible(wire: seq<Outcome>, attempts: nat)
    requires 1 <= attempts <= |wire| && wire[attempts - 1] == TransportFault(true)
    requires forall k :: 0 <= k < attempts - 1 ==> Transient(wire[k], false)
    ensures !Transient(wire[attempts - 1], false) && Raised(wire[attempts - 1]) == VastError(None)
    ensures ReachedCount(wire, attempts) == 1
  {
    UnreachedPrefix(wire, attempts - 1);
  }
}
