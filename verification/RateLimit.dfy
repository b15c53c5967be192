/** The fixed-window write limiter: one Redis counter per caller and window. */
module RateLimit {
  import opened Decimals

  /** Window length in seconds. */
  const WINDOW: nat := 60

  /** A stored counter; instants are milliseconds. */
  datatype Counter = Counter(count: nat, expiresAt: nat)

  datatype Verdict = Verdict(allowed: bool, retryAfter: nat, limit: int, remaining: int)

  /** How one pipeline call went: answered, executed with the reply lost, or not executed. */
  datatype Link = Answered | ReplyLost | Down

  datatype Request = Request(bucket: string, at: nat, link: Link)

  function WindowStart(at: nat): nat { at / 1000 - at / 1000 % WINDOW }

  const PREFIX := "ledgerloop:ratelimit:"

  function KeyOf(bucket: string, window: nat): string { PREFIX + bucket + ":" + Digits(window) }

  /** Two callers, or two windows, never share a counter, even when a bucket name holds
      colons of its own. */
  lemma KeysDiffer(b1: string, w1: nat, b2: string, w2: nat)
    ensures KeyOf(b1, w1) == KeyOf(b2, w2) ==> b1 == b2 && w1 == w2
  {
    if KeyOf(b1, w1) == KeyOf(b2, w2) {
      SignedHasNoColon(w1);
      SignedHasNoColon(w2);
      SplitAtLast(':', PREFIX + b1, PREFIX + b2, Digits(w1), Digits(w2));
      assert b1 == (PREFIX + b1)[|PREFIX|..] == (PREFIX + b2)[|PREFIX|..] == b2;
      DigitsInjective(w1, w2);
    }
  }

  /** INCR then EXPIRE: an expired counter counts as absent. */
  function Hit(counters: map<string, Counter>, key: string, at: nat): map<string, Counter> {
    var count := if key in counters && at <= counters[key].expiresAt then counters[key].count else 0;
    counters[key := Counter(count + 1, at + 1000 * WINDOW)]
  }

  function Step(counters: map<string, Counter>, r: Request): map<string, Counter> {
    if r.link.Down? then counters else Hit(counters, KeyOf(r.bucket, WindowStart(r.at)), r.at)
  }

  function VerdictOf(counters: map<string, Counter>, r: Request, limit: int): Verdict {
    if !r.link.Answered? then Verdict(true, 0, limit, limit)
    else
      var count := Step(counters, r)[KeyOf(r.bucket, WindowStart(r.at))].count;
      Verdict(count <= limit, WindowStart(r.at) + WINDOW - r.at / 1000, limit,
        if limit - count > 0 then limit - count else 0)
  }

  class Limiter {
    var counters: map<string, Counter>

    constructor ()
      ensures counters == map[]
    {
      counters := map[];
    }

    /** Count one request.  With the reply missing, it is allowed. */
    method Check(bucket: string, limit: int, at: nat, link: Link) returns (v: Verdict)
      modifies this
      ensures counters == Step(old(counters), Request(bucket, at, link))
      ensures v == VerdictOf(old(counters), Request(bucket, at, link), limit)
      ensures !link.Answered? ==> v == Verdict(true, 0, limit, limit)
    {
      var now := at / 1000;
      var windowStart := now - now % WINDOW;
      var retryAfter := windowStart + WINDOW - now;
      var key := KeyOf(bucket, windowStart);
      if link.Down? {
        return Verdict(true, 0, limit, limit);
      }
      var count := if key in counters && at <= counters[key].expiresAt then counters[key].count else 0;
      count := count + 1;
      counters := counters[key := Counter(count, at + 1000 * WINDOW)];
      if link.ReplyLost? {
        return Verdict(true, 0, limit, limit);
      }
      return Verdict(count <= limit, retryAfter, limit, if limit - count > 0 then limit - count else 0);
    }
  }

  /** The advice of a refusal is exact: one second earlier it is still this window, at that
      second it is the next. */
  lemma RetryAfterIsExact(counters: map<string, Counter>, r: Request, limit: int)
    requires r.link.Answered?
    ensures var wait := VerdictOf(counters, r, limit).retryAfter;
      && 1 <= wait <= WINDOW
      && WindowStart(r.at + 1000 * (wait - 1)) == WindowStart(r.at)
      && WindowStart(r.at + 1000 * wait) == WindowStart(r.at) + WINDOW
  {
    var now, wait := r.at / 1000, VerdictOf(counters, r, limit).retryAfter;
    SecondsAdd(r.at, wait - 1);
    SecondsAdd(r.at, wait);
    var q := now / 60;
    assert now == 60 * q + now % 60;
    assert (now + wait) == 60 * (q + 1) && (now + wait) % 60 == 0;
    assert (now + wait - 1) == 60 * q + 59 && (now + wait - 1) % 60 == 59;
  }

  lemma SecondsAdd(at: nat, s: nat)
    ensures (at + 1000 * s) / 1000 == at / 1000 + s
  {
  }

  /* ------------------------------- Over a history ------------------------------- */

  predicate Monotone(reqs: seq<Request>) { forall i, j :: 0 <= i < j < |reqs| ==> reqs[i].at <= reqs[j].at }

  function After(reqs: seq<Request>): map<string, Counter> {
    if reqs == [] then map[] else Step(After(reqs[..|reqs| - 1]), reqs[|reqs| - 1])
  }

  predicate Lands(r: Request, bucket: string, window: nat) {
    !r.link.Down? && r.bucket == bucket && WindowStart(r.at) == window
  }

  /** Requests of one bucket and window that reached Redis. */
  function TallyOf(reqs: seq<Request>, bucket: string, window: nat): nat {
    if reqs == [] then 0
    else TallyOf(reqs[..|reqs| - 1], bucket, window) + if Lands(reqs[|reqs| - 1], bucket, window) then 1 else 0
  }

  /** Instant of the last of them. */
  function LastHit(reqs: seq<Request>, bucket: string, window: nat): nat {
    if reqs == [] then 0
    else if Lands(reqs[|reqs| - 1], bucket, window) then reqs[|reqs| - 1].at
    else LastHit(reqs[..|reqs| - 1], bucket, window)
  }

  predicate CountedRight(reqs: seq<Request>, bucket: string, window: nat) {
    var key, n := KeyOf(bucket, window), TallyOf(reqs, bucket, window);
    if n == 0 then key !in After(reqs)
    else key in After(reqs) && After(reqs)[key] == Counter(n, LastHit(reqs, bucket, window) + 1000 * WINDOW)
  }

  lemma {:induction false} LastHitInWindow(reqs: seq<Request>, bucket: string, window: nat)
    requires Monotone(reqs) && TallyOf(reqs, bucket, window) > 0
    ensures WindowStart(LastHit(reqs, bucket, window)) == window
    ensures LastHit(reqs, bucket, window) <= reqs[|reqs| - 1].at
  {
    var front := reqs[..|reqs| - 1];
    if !Lands(reqs[|reqs| - 1], bucket, window) { LastHitInWindow(front, bucket, window); }
  }

  /** A counter outlives the window it counts, whenever in the window it was last hit. */
  lemma SameWindowAlive(hit: nat, now: nat)
    requires WindowStart(hit) == WindowStart(now)
    ensures now <= hit + 1000 * WINDOW
  {
    assert hit / 1000 - hit / 1000 % 60 + 60 > now / 1000;
  }

  /** So the counter is the tally: it never expires inside its own window, and starts from
      zero in the next. */
  lemma {:induction false} CounterIsTally(reqs: seq<Request>, bucket: string, window: nat)
    requires Monotone(reqs)
    ensures CountedRight(reqs, bucket, window)
  {
    if reqs != [] {
      var front, last := reqs[..|reqs| - 1], reqs[|reqs| - 1];
      CounterIsTally(front, bucket, window);
      KeysDiffer(bucket, window, last.bucket, WindowStart(last.at));
      if Lands(last, bucket, window) && TallyOf(front, bucket, window) > 0 {
        LastHitInWindow(front, bucket, window);
        SameWindowAlive(LastHit(front, bucket, window), last.at);
      }
    }
  }

  /** Requests of one bucket and window that Redis answered and the limiter admitted. */
  function AdmittedOf(reqs: seq<Request>, limit: int, bucket: string, window: nat): nat {
    if reqs == [] then 0
    else AdmittedOf(reqs[..|reqs| - 1], limit, bucket, window) + if Admits(reqs, limit, bucket, window) then 1 else 0
  }

  predicate Admits(reqs: seq<Request>, limit: int, bucket: string, window: nat)
    requires reqs != []
  {
    var front, last := reqs[..|reqs| - 1], reqs[|reqs| - 1];
    last.link.Answered? && Lands(last, bucket, window) && VerdictOf(After(front), last, limit).allowed
  }

  function Cap(n: nat, limit: int): nat { if limit <= 0 then 0 else if n < limit then n else limit }

  /** At most `limit` requests per bucket and window; and with every reply received, exactly
      the first `limit` of them. */
  lemma {:induction false} WindowBound(reqs: seq<Request>, limit: int, bucket: string, window: nat)
    requires Monotone(reqs)
    ensures AdmittedOf(reqs, limit, bucket, window) <= Cap(TallyOf(reqs, bucket, window), limit)
    ensures (forall r :: r in reqs ==> !r.link.ReplyLost?)
      ==> AdmittedOf(reqs, limit, bucket, window) == Cap(TallyOf(reqs, bucket, window), limit)
  {
    if reqs != [] {
      var front, last := reqs[..|reqs| - 1], reqs[|reqs| - 1];
      WindowBound(front, limit, bucket, window);
      CounterIsTally(reqs, bucket, window);
      assert After(reqs) == Step(After(front), last);
      assert last in reqs;
    }
  }

  /** An answered request is refused exactly when it is past the limit in its window, and is
      told exactly how many more would be admitted; without an answer it is admitted with the
      whole limit to spare. */
  lemma AnswerFollowsTally(reqs: seq<Request>, limit: int)
    requires Monotone(reqs) && reqs != []
    ensures var last := reqs[|reqs| - 1];
      var v, n := VerdictOf(After(reqs[..|reqs| - 1]), last, limit), TallyOf(reqs, last.bucket, WindowStart(last.at));
      && v.limit == limit
      && (v.allowed <==> !last.link.Answered? || n <= limit)
      && v.remaining == (if !last.link.Answered? then limit else if n < limit then limit - n else 0)
  {
    var last := reqs[|reqs| - 1];
    CounterIsTally(reqs, last.bucket, WindowStart(last.at));
    assert After(reqs) == Step(After(reqs[..|reqs| - 1]), last);
  }

  /** The same over any stretch of time. */
  function AdmittedDuring(reqs: seq<Request>, limit: int, bucket: string, from: nat, to: nat): nat {
    if reqs == [] then 0
    else
      var last := reqs[|reqs| - 1];
      AdmittedDuring(reqs[..|reqs| - 1], limit, bucket, from, to)
      + if from <= last.at <= to && last.bucket == bucket && Admits(reqs, limit, bucket, WindowStart(last.at))
        then 1 else 0
  }

  lemma SpanTouchesTwo(from: nat, at: nat)
    requires from <= at <= from + 1000 * WINDOW
    ensures WindowStart(at) == WindowStart(from) || WindowStart(at) == WindowStart(from) + WINDOW
  {
    var a, b := from / 1000, at / 1000;
    assert a <= b <= a + 60;
    assert a == 60 * (a / 60) + a % 60 && b == 60 * (b / 60) + b % 60;
    assert a / 60 <= b / 60 <= a / 60 + 1;
  }

  lemma {:induction false} SpanInWindows(reqs: seq<Request>, limit: int, bucket: string, from: nat)
    ensures AdmittedDuring(reqs, limit, bucket, from, from + 1000 * WINDOW)
            <= AdmittedOf(reqs, limit, bucket, WindowStart(from))
              + AdmittedOf(reqs, limit, bucket, WindowStart(from) + WINDOW)
  {
    if reqs != [] {
      var last := reqs[|reqs| - 1];
      SpanInWindows(reqs[..|reqs| - 1], limit, bucket, from);
      if from <= last.at <= from + 1000 * WINDOW { SpanTouchesTwo(from, last.at); }
    }
  }

  /** At most twice the limit in any sixty seconds, wherever they start. */
  lemma SpanBound(reqs: seq<Request>, limit: int, bucket: string, from: nat)
    requires Monotone(reqs) && limit >= 0
    ensures AdmittedDuring(reqs, limit, bucket, from, from + 1000 * WINDOW) <= 2 * limit
  {
    SpanInWindows(reqs, limit, bucket, from);
    WindowBound(reqs, limit, bucket, WindowStart(from));
    WindowBound(reqs, limit, bucket, WindowStart(from) + WINDOW);
  }
}
