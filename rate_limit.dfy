/** The fixed-window rate limiter: a bucket per client identity counting the
    requests of the current window. The clock is a parameter. */
module RateLimit {
  import opened Options
  import Text
  import opened Http

  /** `getClientIp(req)`: the first comma-separated entry of a non-empty
      `x-forwarded-for` header, trimmed; else the peer address; else
      "unknown". */
  function ClientIp(forwardedFor: Option<string>, remoteAddress: Option<string>): (ip: string)
    ensures Truthy(forwardedFor) ==> ip == Text.Trim(Text.FirstSegment(forwardedFor.value, ','))
    ensures !Truthy(forwardedFor) && Truthy(remoteAddress) ==> ip == remoteAddress.value
    ensures !Truthy(forwardedFor) && !Truthy(remoteAddress) ==> ip == "unknown"
  {
    if Truthy(forwardedFor) then Text.Trim(Text.FirstSegment(forwardedFor.value, ','))
    else if Truthy(remoteAddress) then remoteAddress.value
    else "unknown"
  }

  /** An identity taken from the header holds no comma and no surrounding
      white space, and is a slice of the header's first entry. */
  lemma ClientIpFromHeader(forwardedFor: string, remoteAddress: Option<string>)
    requires forwardedFor != ""
    ensures var ip := ClientIp(Some(forwardedFor), remoteAddress);
      && ',' !in ip
      && (ip != "" ==> !Text.IsSpace(ip[0]) && !Text.IsSpace(ip[|ip| - 1]))
      && exists i, j :: 0 <= i <= j <= |forwardedFor| && ip == forwardedFor[i..j]
  {
    var seg := Text.FirstSegment(forwardedFor, ',');
    Text.TrimAvoids(seg, ',');
    Text.TrimIsSlice(seg);
    FirstEntryIsSlice(forwardedFor);
  }

  /** The trimmed first entry is a slice of the header. */
  lemma FirstEntryIsSlice(header: string)
    ensures exists i, j :: 0 <= i <= j <= |header| && Text.Trim(Text.FirstSegment(header, ',')) == header[i..j]
  {
    var seg := Text.FirstSegment(header, ',');
    Text.TrimBounds(seg);
    var i := Text.LeadingSpace(seg);
    var j := if i == |seg| then i else |seg| - Text.TrailingSpace(seg);
    SliceOfPrefix(seg, header, i, j);
  }

  /** A slice of a prefix is the same slice of the whole. */
  lemma SliceOfPrefix(p: string, s: string, i: nat, j: nat)
    requires p <= s && i <= j <= |p|
    ensures p[i..j] == s[i..j]
  {
    assert p == s[..|p|];
  }

  /** The first entry of the header wins and is trimmed. */
  lemma ClientIpExamples()
    ensures ClientIp(Some(" a,b"), Some("c")) == "a"
  {
    assert Text.FirstSegment(" a,b", ',') == " a" by {
      assert " a,b"[1..] == "a,b";
      assert "a,b"[1..] == ",b";
    }
    assert Text.LeadingSpace(" a") == 1 by {
      assert " a"[1..] == "a";
      assert Text.IsSpace(' ') && !Text.IsSpace('a');
    }
    assert Text.TrailingSpace(" a") == 0;
    assert " a"[1..2] == "a";
  }

  /** An empty header falls back to the socket address, a missing one to
      "unknown"; an empty first entry is kept as the identity "". */
  lemma ClientIpFallbackExamples()
    ensures ClientIp(Some(""), Some("c")) == "c"
    ensures ClientIp(None, Some("")) == "unknown"
    ensures ClientIp(Some(",b"), None) == ""
  {
    assert Text.FirstSegment(",b", ',') == "";
    assert Text.Trim("") == "";
  }
  datatype Bucket = Bucket(count: int, resetAt: int)

  type Buckets = map<string, Bucket>

  /** One call of the limiter for `ip` at time `now`: the new buckets and
      whether the request may proceed. */
  function Hit(buckets: Buckets, ip: string, now: int, windowMs: int, max: int): (Buckets, bool) {
    if ip !in buckets || now >= buckets[ip].resetAt then
      (buckets[ip := Bucket(1, now + windowMs)], true)
    else
      var b := buckets[ip].(count := buckets[ip].count + 1);
      (buckets[ip := b], b.count <= max)
  }

  /** What the limiter tells its caller. */
  datatype Verdict = Pass | Reject(response: Response)

  const RATE_LIMITED: Response := Fail(429, "RATE_LIMITED", "Too many requests")

  /** The limiter object with its bucket map. */
  class Limiter {
    const windowMs: int
    const max: int
    var buckets: Buckets

    constructor (windowMs: int, max: int)
      ensures this.windowMs == windowMs && this.max == max && buckets == map[]
    {
      this.windowMs := windowMs;
      this.max := max;
      buckets := map[];
    }

    /** `rateLimit(req, res)`. A denial carries the 429 reply. */
    method RateLimit(forwardedFor: Option<string>, remoteAddress: Option<string>, now: int)
      returns (v: Verdict)
      modifies this
      ensures var (b, allowed) := Hit(old(buckets), ClientIp(forwardedFor, remoteAddress), now, windowMs, max);
        buckets == b && v == (if allowed then Pass else Reject(RATE_LIMITED))
    {
      var ip := ClientIp(forwardedFor, remoteAddress);
      if ip !in buckets || now >= buckets[ip].resetAt {
        buckets := buckets[ip := Bucket(1, now + windowMs)];
        return Pass;
      }
      var bucket := buckets[ip];
      bucket := bucket.(count := bucket.count + 1);
      buckets := buckets[ip := bucket];
      if bucket.count > max {
        return Reject(RATE_LIMITED);
      }
      return Pass;
    }
  }

  // ---- Properties ----

  /** No bucket, or an expired one: a fresh bucket with count 1 and the
      request is allowed, whatever `max` is. */
  lemma FreshWindowAllows(buckets: Buckets, ip: string, now: int, windowMs: int, max: int)
    requires ip !in buckets || now >= buckets[ip].resetAt
    ensures Hit(buckets, ip, now, windowMs, max) == (buckets[ip := Bucket(1, now + windowMs)], true)
  {
  }

  /** Inside the window: the count grows by exactly one, also on a denial,
      the window end stays, and the request is denied exactly when the new
      count exceeds `max`. */
  lemma InWindowCounts(buckets: Buckets, ip: string, now: int, windowMs: int, max: int)
    requires ip in buckets && now < buckets[ip].resetAt
    ensures var (b, allowed) := Hit(buckets, ip, now, windowMs, max);
      && b[ip] == Bucket(buckets[ip].count + 1, buckets[ip].resetAt)
      && (allowed <==> buckets[ip].count + 1 <= max)
  {
  }

  /** Only the requesting identity's bucket is created or changed. */
  lemma HitTouchesOneBucket(buckets: Buckets, ip: string, now: int, windowMs: int, max: int)
    ensures var (b, _) := Hit(buckets, ip, now, windowMs, max);
      && b.Keys == buckets.Keys + {ip}
      && forall k :: k in buckets && k != ip ==> b[k] == buckets[k]
  {
  }

  /** A run of calls from one identity at the given instants. */
  function HitRun(buckets: Buckets, ip: string, times: seq<int>, windowMs: int, max: int): (r: (Buckets, seq<bool>))
    ensures |r.1| == |times|
    decreases |times|
  {
    if times == [] then (buckets, [])
    else
      var (b1, allowed) := Hit(buckets, ip, times[0], windowMs, max);
      var (bn, rest) := HitRun(b1, ip, times[1..], windowMs, max);
      (bn, [allowed] + rest)
  }

  /** Calls that all fall before the window's end increment one bucket; the
      i-th of them is allowed exactly when the count it makes is at most
      `max`. */
  lemma {:induction false} RunInsideWindow(buckets: Buckets, ip: string, times: seq<int>, windowMs: int, max: int)
    requires ip in buckets
    requires forall i :: 0 <= i < |times| ==> times[i] < buckets[ip].resetAt
    decreases |times|
    ensures var (bn, results) := HitRun(buckets, ip, times, windowMs, max);
      && ip in bn
      && bn[ip] == Bucket(buckets[ip].count + |times|, buckets[ip].resetAt)
      && forall i :: 0 <= i < |times| ==> (results[i] <==> buckets[ip].count + i + 1 <= max)
  {
    if times != [] {
      var (b1, allowed) := Hit(buckets, ip, times[0], windowMs, max);
      RunInsideWindow(b1, ip, times[1..], windowMs, max);
      var (bn, rest) := HitRun(b1, ip, times[1..], windowMs, max);
      assert HitRun(buckets, ip, times, windowMs, max) == (bn, [allowed] + rest);
      forall i | 1 <= i < |times| ensures times[1..][i - 1] == times[i] { }
    }
  }

  /** One identity, one window: a first call that opens the window at `t0`
      and further calls before `t0 + windowMs`. Call number i (from 0) is
      allowed exactly when i < max, except that the opening call is allowed
      even when `max` is 0. So with `max` >= 1 exactly `max` calls pass and
      call `max + 1` is denied. */
  lemma ExactlyMaxPerWindow(buckets: Buckets, ip: string, times: seq<int>, windowMs: int, max: int)
    requires times != []
    requires ip !in buckets || times[0] >= buckets[ip].resetAt
    requires forall i :: 1 <= i < |times| ==> times[i] < times[0] + windowMs
    ensures var (_, results) := HitRun(buckets, ip, times, windowMs, max);
      forall i :: 0 <= i < |times| ==> (results[i] <==> i == 0 || i < max)
  {
    var (b1, _) := Hit(buckets, ip, times[0], windowMs, max);
    assert b1[ip] == Bucket(1, times[0] + windowMs);
    forall i | 0 <= i < |times[1..]| ensures times[1..][i] < b1[ip].resetAt {
      assert times[1..][i] == times[i + 1];
    }
    RunInsideWindow(b1, ip, times[1..], windowMs, max);
  }

  /** After the window ends the first call is allowed again and opens a new
      window from that instant. */
  lemma AllowedAgainAfterReset(buckets: Buckets, ip: string, now: int, windowMs: int, max: int)
    requires ip in buckets && now >= buckets[ip].resetAt
    ensures Hit(buckets, ip, now, windowMs, max).1
    ensures Hit(buckets, ip, now, windowMs, max).0[ip] == Bucket(1, now + windowMs)
  {
  }
}
