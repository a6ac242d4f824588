/** The sliding-window rate limiter against a limiter that keeps every admission. */
module RateLimit {
  import opened Sequences

  datatype Reply = Admitted | Retry(seconds: int) | ValueError | StopIteration

  /** The buckets, with their keys in insertion order. */
  datatype Limiter = Limiter(order: seq<string>, buckets: map<string, seq<real>>)

  function Ceil(x: real): int {
    -((-x).Floor)
  }

  /** Entries after the cut-off, dropped from the left. */
  function Expire(bucket: seq<real>, cutoff: real): seq<real> {
    if bucket != [] && bucket[0] <= cutoff then Expire(bucket[1..], cutoff) else bucket
  }

  function Without(order: seq<string>, key: string): (r: seq<string>)
    ensures forall k :: k in r <==> k in order && k != key
    ensures Distinct(order) ==> Distinct(r) && |r| == |order| - if key in order then 1 else 0
  {
    if order == [] then []
    else
      var z := order[|order| - 1];
      assert order == order[..|order| - 1] + [z];
      assert Distinct(order) ==> z !in order[..|order| - 1];
      Without(order[..|order| - 1], key) + if z == key then [] else [z]
  }

  /** `pop(key, None)` */
  function Dropped(l: Limiter, key: string): Limiter {
    Limiter(Without(l.order, key), l.buckets - {key})
  }

  ghost predicate KeysMatch(l: Limiter) {
    Distinct(l.order) && forall k :: k in l.order <==> k in l.buckets
  }

  /** Index of the first key with an empty bucket, or the number of keys. */
  function FirstEmpty(l: Limiter, i: nat): (r: nat)
    requires KeysMatch(l) && i <= |l.order|
    ensures i <= r <= |l.order| && (r < |l.order| ==> l.buckets[l.order[r]] == [])
    decreases |l.order| - i
  {
    if i == |l.order| || l.buckets[l.order[i]] == [] then i else FirstEmpty(l, i + 1)
  }

  /** The key `_make_room` evicts: the first empty one unless it is "", else the oldest. */
  function Victim(l: Limiter): string
    requires KeysMatch(l) && l.order != []
  {
    var i := FirstEmpty(l, 0);
    if i < |l.order| && l.order[i] != "" then l.order[i] else l.order[0]
  }

  /** A bucket for the key: the existing one, or a new one after making room. */
  function Opened(l: Limiter, capacity: int, key: string): Limiter
    requires KeysMatch(l) && (key in l.buckets || |l.order| < capacity || l.order != [])
  {
    if key in l.buckets then l
    else
      var m := if |l.order| < capacity then l else Dropped(l, Victim(l));
      Limiter(m.order + [key], m.buckets[key := []])
  }

  function Decision(l: Limiter, now: real, key: string, limit: int, window: int): (Limiter, Reply)
    requires key in l.buckets && limit >= 1
  {
    var bucket := Expire(l.buckets[key], now - window as real);
    if |bucket| >= limit then
      var wait := Ceil(window as real - (now - bucket[0]));
      (l.(buckets := l.buckets[key := bucket]), Retry(if wait < 1 then 1 else wait))
    else (l.(buckets := l.buckets[key := bucket + [now]]), Admitted)
  }

  function Consume(l: Limiter, capacity: int, now: real, key: string, limit: int, window: int): (Limiter, Reply)
    requires KeysMatch(l)
  {
    if limit < 1 || window < 1 then (l, ValueError)
    else if key !in l.buckets && |l.order| >= capacity && l.order == [] then (l, StopIteration)
    else Decision(Opened(l, capacity, key), now, key, limit, window)
  }

  function Clear(l: Limiter, keys: seq<string>): Limiter {
    if keys == [] then l else Dropped(Clear(l, keys[..|keys| - 1]), keys[|keys| - 1])
  }

  lemma OpenedMatches(l: Limiter, capacity: int, key: string)
    requires KeysMatch(l) && (key in l.buckets || |l.order| < capacity || l.order != [])
    ensures KeysMatch(Opened(l, capacity, key)) && key in Opened(l, capacity, key).buckets
  {
  }

  lemma {:induction false} ClearMatches(l: Limiter, keys: seq<string>)
    requires KeysMatch(l)
    ensures KeysMatch(Clear(l, keys))
  {
    if keys != [] {
      ClearMatches(l, keys[..|keys| - 1]);
    }
  }

  class SlidingWindowRateLimiter {
    const capacity: int
    var order: seq<string>
    var buckets: map<string, seq<real>>

    function State(): Limiter
      reads this
    {
      Limiter(order, buckets)
    }

    ghost predicate Valid()
      reads this
    {
      KeysMatch(State())
    }

    constructor (maxBuckets: int)
      ensures Valid() && capacity == maxBuckets && State() == Limiter([], map[])
    {
      capacity, order, buckets := maxBuckets, [], map[];
    }

    /** `_make_room`; false is the StopIteration of an empty dictionary. */
    method MakeRoom() returns (ok: bool)
      requires Valid()
      modifies this
      ensures Valid()
      ensures ok <==> old(|order|) < capacity || old(order) != []
      ensures State() ==
                if old(|order|) < capacity || old(order) == [] then old(State())
                else Dropped(old(State()), Victim(old(State())))
    {
      if |order| < capacity {
        return true;
      }
      var i := 0;
      while i < |order| && buckets[order[i]] != []
        invariant 0 <= i <= |order| && FirstEmpty(State(), 0) == FirstEmpty(State(), i)
      {
        i := i + 1;
      }
      if order == [] {
        return false;
      }
      var victim := if i < |order| && order[i] != "" then order[i] else order[0];
      order, buckets := Without(order, victim), buckets - {victim};
      ok := true;
    }

    /** Drops expired entries from the left. */
    method Prune(key: string, cutoff: real)
      requires Valid() && key in buckets
      modifies this`buckets
      ensures Valid() && buckets == old(buckets)[key := Expire(old(buckets)[key], cutoff)]
    {
      while buckets[key] != [] && buckets[key][0] <= cutoff
        invariant Valid() && key in buckets && Expire(buckets[key], cutoff) == Expire(old(buckets)[key], cutoff)
        invariant buckets == old(buckets)[key := buckets[key]]
        decreases |buckets[key]|
      {
        buckets := buckets[key := buckets[key][1..]];
      }
    }

    /** The decision on an existing bucket. */
    method Decide(now: real, key: string, limit: int, window: int) returns (reply: Reply)
      requires Valid() && key in buckets && limit >= 1
      modifies this`buckets
      ensures Valid() && (State(), reply) == Decision(old(State()), now, key, limit, window)
    {
      Prune(key, now - window as real);
      if |buckets[key]| >= limit {
        var wait := Ceil(window as real - (now - buckets[key][0]));
        return Retry(if wait < 1 then 1 else wait);
      }
      buckets := buckets[key := buckets[key] + [now]];
      assert buckets == old(buckets)[key := buckets[key]];
      reply := Admitted;
    }

    method ConsumeAt(now: real, key: string, limit: int, window: int) returns (reply: Reply)
      requires Valid()
      modifies this
      ensures Valid() && (State(), reply) == Consume(old(State()), capacity, now, key, limit, window)
    {
      hide Decision, Victim;
      if limit < 1 || window < 1 {
        return ValueError;
      }
      if key !in buckets {
        var ok := MakeRoom();
        if !ok {
          return StopIteration;
        }
        order, buckets := order + [key], buckets[key := []];
      }
      OpenedMatches(old(State()), capacity, key);
      reply := Decide(now, key, limit, window);
    }

    method ClearKeys(keys: seq<string>)
      requires Valid()
      modifies this
      ensures Valid() && State() == Clear(old(State()), keys)
    {
      for k := 0 to |keys|
        invariant Valid() && State() == Clear(old(State()), keys[..k])
      {
        assert keys[..k + 1][..k] == keys[..k];
        order, buckets := Without(order, keys[k]), buckets - {keys[k]};
      }
      assert keys[..|keys|] == keys;
    }
  }

  // ---------------------------------------------------------------- keeping every admission

  /** Every admission since the key was last inserted. */
  datatype Log = Log(order: seq<string>, admissions: map<string, seq<real>>)

  function Recent(log: seq<real>, cutoff: real): seq<real> {
    if log == [] then []
    else Recent(log[..|log| - 1], cutoff) + if log[|log| - 1] > cutoff then [log[|log| - 1]] else []
  }

  ghost predicate LogMatches(f: Log) {
    Distinct(f.order) && forall k :: k in f.order <==> k in f.admissions
  }

  function Forget(f: Log, key: string): Log {
    Log(Without(f.order, key), f.admissions - {key})
  }

  /** A new key displaces the earliest inserted one when the log is full. */
  function Entered(f: Log, capacity: int, key: string): Log
    requires LogMatches(f) && (key in f.admissions || |f.order| < capacity || f.order != [])
  {
    if key in f.admissions then f
    else
      var g := if |f.order| < capacity then f else Forget(f, f.order[0]);
      Log(g.order + [key], g.admissions[key := []])
  }

  /** Admit exactly when fewer than `limit` admissions lie in the last window. */
  function DecisionLog(f: Log, now: real, key: string, limit: int, window: int): (Log, Reply)
    requires key in f.admissions && limit >= 1
  {
    var recent := Recent(f.admissions[key], now - window as real);
    if |recent| >= limit then (f, Retry(Ceil(recent[0] + window as real - now)))
    else (f.(admissions := f.admissions[key := f.admissions[key] + [now]]), Admitted)
  }

  function ConsumeLog(f: Log, capacity: int, now: real, key: string, limit: int, window: int): (Log, Reply)
    requires LogMatches(f)
  {
    if limit < 1 || window < 1 then (f, ValueError)
    else if key !in f.admissions && |f.order| >= capacity && f.order == [] then (f, StopIteration)
    else DecisionLog(Entered(f, capacity, key), now, key, limit, window)
  }

  function ClearLog(f: Log, keys: seq<string>): Log {
    if keys == [] then f else Forget(ClearLog(f, keys[..|keys| - 1]), keys[|keys| - 1])
  }

  predicate NonDecreasing(s: seq<real>) {
    forall i, j :: 0 <= i < j < |s| ==> s[i] <= s[j]
  }

  lemma {:induction false} RecentSplits(a: seq<real>, b: seq<real>, cutoff: real)
    ensures Recent(a + b, cutoff) == Recent(a, cutoff) + Recent(b, cutoff)
  {
    if b == [] {
      assert a + b == a;
    } else {
      RecentSplits(a, b[..|b| - 1], cutoff);
      assert (a + b)[..|a + b| - 1] == a + b[..|b| - 1];
    }
  }

  lemma {:induction false} NoneRecent(a: seq<real>, cutoff: real)
    requires forall i :: 0 <= i < |a| ==> a[i] <= cutoff
    ensures Recent(a, cutoff) == []
  {
    if a != [] {
      NoneRecent(a[..|a| - 1], cutoff);
    }
  }

  lemma {:induction false} AllRecent(a: seq<real>, cutoff: real)
    requires forall i :: 0 <= i < |a| ==> a[i] > cutoff
    ensures Recent(a, cutoff) == a
  {
    if a != [] {
      AllRecent(a[..|a| - 1], cutoff);
    }
  }

  /** How many entries `Expire` drops. */
  function Expired(b: seq<real>, cutoff: real): (n: nat)
    ensures n <= |b| && forall i :: 0 <= i < n ==> b[i] <= cutoff
    ensures n < |b| ==> b[n] > cutoff
    ensures Expire(b, cutoff) == b[n..]
  {
    if b == [] || b[0] > cutoff then 0 else 1 + Expired(b[1..], cutoff)
  }

  lemma RestIsRecent(b: seq<real>, cutoff: real)
    requires NonDecreasing(b)
    ensures var rest := b[Expired(b, cutoff)..]; NonDecreasing(rest) && forall i :: 0 <= i < |rest| ==> rest[i] > cutoff
  {
  }

  /** On a rising bucket, dropping from the left is filtering. */
  lemma ExpireIsRecent(b: seq<real>, cutoff: real)
    requires NonDecreasing(b)
    ensures Expire(b, cutoff) == Recent(b, cutoff)
  {
    hide Recent, Expire, NonDecreasing;
    var n := Expired(b, cutoff);
    RestIsRecent(b, cutoff);
    NoneRecent(b[..n], cutoff);
    AllRecent(b[n..], cutoff);
    RecentSplits(b[..n], b[n..], cutoff);
    assert b == b[..n] + b[n..];
  }

  // ---------------------------------------------------------------- refinement

  predicate AtMost(s: seq<real>, t: real) {
    forall i :: 0 <= i < |s| ==> s[i] <= t
  }

  /** The bucket is the log without admissions that had left the window by time t. */
  ghost predicate Suffix(bucket: seq<real>, log: seq<real>, window: int, t: real) {
    exists d: seq<real> :: log == d + bucket && AtMost(d, t - window as real)
  }

  ghost predicate Tracks(bucket: seq<real>, log: seq<real>, limit: int, window: int, t: real) {
    Suffix(bucket, log, window, t) && NonDecreasing(log) && AtMost(log, t) && |bucket| <= limit
  }

  lemma TracksLater(bucket: seq<real>, log: seq<real>, limit: int, window: int, t: real, u: real)
    requires Tracks(bucket, log, limit, window, t) && t <= u
    ensures Tracks(bucket, log, limit, window, u)
  {
    var d: seq<real> :| log == d + bucket && AtMost(d, t - window as real);
    assert AtMost(d, u - window as real);
  }

  lemma SuffixRises(d: seq<real>, b: seq<real>)
    requires NonDecreasing(d + b)
    ensures NonDecreasing(b)
  {
    var s := d + b;
    forall i, j | 0 <= i < j < |b|
      ensures b[i] <= b[j]
    {
      assert s[|d| + i] == b[i] && s[|d| + j] == b[j];
    }
  }

  lemma TailAtMost(d: seq<real>, b: seq<real>, n: nat, t: real)
    requires AtMost(d + b, t) && n <= |b|
    ensures AtMost(b[n..], t)
  {
    forall i | 0 <= i < |b[n..]|
      ensures b[n..][i] <= t
    {
      assert (d + b)[|d| + n + i] == b[n..][i];
    }
  }

  lemma SuffixExpires(d: seq<real>, bucket: seq<real>, cutoff: real)
    requires AtMost(d, cutoff) && NonDecreasing(bucket)
    ensures Expire(bucket, cutoff) == Recent(d + bucket, cutoff)
    ensures var n := Expired(bucket, cutoff); AtMost(d + bucket[..n], cutoff)
  {
    hide Recent, Expire, NonDecreasing;
    RecentSplits(d, bucket, cutoff);
    NoneRecent(d, cutoff);
    ExpireIsRecent(bucket, cutoff);
  }

  /** What is left after expiry is exactly what the log holds in the window. */
  lemma ExpireTracks(bucket: seq<real>, log: seq<real>, limit: int, window: int, now: real)
    requires Tracks(bucket, log, limit, window, now)
    ensures var b := Expire(bucket, now - window as real);
            && b == Recent(log, now - window as real) && Tracks(b, log, limit, window, now)
            && NonDecreasing(b) && AtMost(b, now) && (b != [] ==> b[0] > now - window as real)
  {
    hide Recent, Expire, NonDecreasing, AtMost;
    var cutoff := now - window as real;
    var d: seq<real> :| log == d + bucket && AtMost(d, cutoff);
    var n := Expired(bucket, cutoff);
    SuffixRises(d, bucket);
    RestIsRecent(bucket, cutoff);
    SuffixExpires(d, bucket, cutoff);
    TailAtMost(d, bucket, n, now);
    assert log == (d + bucket[..n]) + bucket[n..];
  }

  lemma AdmitTracks(b: seq<real>, log: seq<real>, limit: int, window: int, now: real)
    requires Tracks(b, log, limit, window, now) && |b| < limit
    ensures Tracks(b + [now], log + [now], limit, window, now)
  {
    var d: seq<real> :| log == d + b && AtMost(d, now - window as real);
    assert log + [now] == d + (b + [now]);
  }

  lemma PositiveCeil(x: real)
    requires x > 0.0
    ensures Ceil(x) >= 1
  {
  }

  datatype Policy = Policy(limit: string -> int, window: string -> int)

  /** The limiter agrees with the log, and no bucket is empty. */
  ghost predicate Refines(l: Limiter, f: Log, p: Policy, t: real) {
    && KeysMatch(l) && LogMatches(f) && l.order == f.order
    && forall k :: k in l.order ==>
         l.buckets[k] != [] && Tracks(l.buckets[k], f.admissions[k], p.limit(k), p.window(k), t)
  }

  lemma {:induction false} NoEmptyBucket(l: Limiter, i: nat)
    requires KeysMatch(l) && i <= |l.order| && forall k :: k in l.order ==> l.buckets[k] != []
    ensures FirstEmpty(l, i) == |l.order|
    decreases |l.order| - i
  {
    if i < |l.order| {
      NoEmptyBucket(l, i + 1);
    }
  }

  /** Opening a bucket: the other keys still refine, the key's own bucket tracks its log. */
  ghost predicate RefinesBut(l: Limiter, f: Log, p: Policy, t: real, key: string) {
    && KeysMatch(l) && LogMatches(f) && l.order == f.order && key in l.order
    && Tracks(l.buckets[key], f.admissions[key], p.limit(key), p.window(key), t)
    && forall k :: k in l.order && k != key ==>
         l.buckets[k] != [] && Tracks(l.buckets[k], f.admissions[k], p.limit(k), p.window(k), t)
  }

  lemma NewTracks(limit: int, window: int, t: real)
    requires limit >= 1
    ensures Tracks([], [], limit, window, t)
  {
    var none: seq<real> := [];
    assert none == none + none && AtMost(none, t - window as real);
  }

  lemma DropRefines(l: Limiter, f: Log, p: Policy, t: real, key: string)
    requires Refines(l, f, p, t)
    ensures Refines(Dropped(l, key), Forget(f, key), p, t)
  {
    hide Tracks, Distinct, Without;
  }

  lemma AddRefines(l: Limiter, f: Log, p: Policy, t: real, key: string)
    requires Refines(l, f, p, t) && key !in l.buckets && p.limit(key) >= 1
    ensures RefinesBut(Limiter(l.order + [key], l.buckets[key := []]), Log(f.order + [key], f.admissions[key := []]),
                       p, t, key)
  {
    hide Tracks;
    NewTracks(p.limit(key), p.window(key), t);
  }

  lemma OpenedRefines(l: Limiter, f: Log, p: Policy, t: real, capacity: int, key: string)
    requires Refines(l, f, p, t) && (key in l.buckets || |l.order| < capacity || l.order != []) && p.limit(key) >= 1
    ensures RefinesBut(Opened(l, capacity, key), Entered(f, capacity, key), p, t, key)
  {
    hide Tracks, FirstEmpty, Without;
    if key !in l.buckets {
      NoEmptyBucket(l, 0);
      if |l.order| < capacity {
        AddRefines(l, f, p, t, key);
      } else {
        DropRefines(l, f, p, t, l.order[0]);
        AddRefines(Dropped(l, l.order[0]), Forget(f, l.order[0]), p, t, key);
      }
    }
  }

  lemma DecisionRefines(l: Limiter, f: Log, p: Policy, now: real, key: string)
    requires RefinesBut(l, f, p, now, key) && p.limit(key) >= 1
    ensures var a, b := Decision(l, now, key, p.limit(key), p.window(key)),
                        DecisionLog(f, now, key, p.limit(key), p.window(key));
            a.1 == b.1 && Refines(a.0, b.0, p, now)
  {
    hide Tracks, Expire, Recent, Ceil;
    var limit, window := p.limit(key), p.window(key);
    ExpireTracks(l.buckets[key], f.admissions[key], limit, window, now);
    var bucket := Expire(l.buckets[key], now - window as real);
    if |bucket| >= limit {
      PositiveCeil(window as real - (now - bucket[0]));
      assert bucket[0] + window as real - now == window as real - (now - bucket[0]);
    } else {
      AdmitTracks(bucket, f.admissions[key], limit, window, now);
    }
  }

  lemma RefinesLater(l: Limiter, f: Log, p: Policy, t: real, u: real)
    requires Refines(l, f, p, t) && t <= u
    ensures Refines(l, f, p, u)
  {
    hide Tracks;
    forall k | k in l.order
      ensures Tracks(l.buckets[k], f.admissions[k], p.limit(k), p.window(k), u)
    {
      TracksLater(l.buckets[k], f.admissions[k], p.limit(k), p.window(k), t, u);
    }
  }

  lemma ConsumeRefines(l: Limiter, f: Log, p: Policy, capacity: int, now: real, key: string)
    requires Refines(l, f, p, now)
    ensures var a, b := Consume(l, capacity, now, key, p.limit(key), p.window(key)),
                        ConsumeLog(f, capacity, now, key, p.limit(key), p.window(key));
            a.1 == b.1 && Refines(a.0, b.0, p, now)
  {
    hide Tracks, Opened, Entered, Decision, DecisionLog;
    if p.limit(key) >= 1 && p.window(key) >= 1 && (key in l.buckets || |l.order| < capacity || l.order != []) {
      OpenedRefines(l, f, p, now, capacity, key);
      DecisionRefines(Opened(l, capacity, key), Entered(f, capacity, key), p, now, key);
    }
  }

  lemma {:induction false} ClearRefines(l: Limiter, f: Log, p: Policy, t: real, keys: seq<string>)
    requires Refines(l, f, p, t)
    ensures Refines(Clear(l, keys), ClearLog(f, keys), p, t)
  {
    hide Refines;
    if keys != [] {
      ClearRefines(l, f, p, t, keys[..|keys| - 1]);
      DropRefines(Clear(l, keys[..|keys| - 1]), ClearLog(f, keys[..|keys| - 1]), p, t, keys[|keys| - 1]);
    }
  }

  // ---------------------------------------------------------------- runs

  datatype Op = Request(now: real, key: string) | Reset(keys: seq<string>)

  function Run(capacity: int, p: Policy, ops: seq<Op>): (r: (Limiter, seq<Reply>))
    ensures KeysMatch(r.0)
  {
    if ops == [] then (Limiter([], map[]), [])
    else
      var before := Run(capacity, p, ops[..|ops| - 1]);
      match ops[|ops| - 1]
      case Reset(keys) => ClearMatches(before.0, keys); (Clear(before.0, keys), before.1)
      case Request(now, key) =>
        ConsumeMatches(before.0, capacity, now, key, p.limit(key), p.window(key));
        var after := Consume(before.0, capacity, now, key, p.limit(key), p.window(key));
        (after.0, before.1 + [after.1])
  }

  lemma ConsumeMatches(l: Limiter, capacity: int, now: real, key: string, limit: int, window: int)
    requires KeysMatch(l)
    ensures KeysMatch(Consume(l, capacity, now, key, limit, window).0)
  {
    hide Opened, Expire;
    if key in l.buckets || |l.order| < capacity || l.order != [] {
      OpenedMatches(l, capacity, key);
    }
  }

  function RunLog(capacity: int, p: Policy, ops: seq<Op>): (r: (Log, seq<Reply>))
    ensures LogMatches(r.0)
  {
    if ops == [] then (Log([], map[]), [])
    else
      var before := RunLog(capacity, p, ops[..|ops| - 1]);
      match ops[|ops| - 1]
      case Reset(keys) => ClearLogMatches(before.0, keys); (ClearLog(before.0, keys), before.1)
      case Request(now, key) =>
        ConsumeLogMatches(before.0, capacity, now, key, p.limit(key), p.window(key));
        var after := ConsumeLog(before.0, capacity, now, key, p.limit(key), p.window(key));
        (after.0, before.1 + [after.1])
  }

  lemma {:induction false} ClearLogMatches(f: Log, keys: seq<string>)
    requires LogMatches(f)
    ensures LogMatches(ClearLog(f, keys))
  {
    if keys != [] {
      ClearLogMatches(f, keys[..|keys| - 1]);
    }
  }

  lemma ConsumeLogMatches(f: Log, capacity: int, now: real, key: string, limit: int, window: int)
    requires LogMatches(f)
    ensures LogMatches(ConsumeLog(f, capacity, now, key, limit, window).0)
  {
    hide Recent;
  }

  predicate Until(ops: seq<Op>, t: real) {
    forall i :: 0 <= i < |ops| && ops[i].Request? ==> ops[i].now <= t
  }

  /** The clock never runs backwards. */
  predicate Clocked(ops: seq<Op>) {
    forall i, j :: 0 <= i < j < |ops| && ops[i].Request? && ops[j].Request? ==> ops[i].now <= ops[j].now
  }

  /** Main result. Over every run with a clock that never runs backwards and a fixed limit and window
      for each key, the limiter gives exactly the replies of the one that keeps every admission and
      evicts the earliest inserted key. */
  lemma {:induction false} RunRefines(capacity: int, p: Policy, ops: seq<Op>, t: real)
    requires Clocked(ops) && Until(ops, t)
    ensures Refines(Run(capacity, p, ops).0, RunLog(capacity, p, ops).0, p, t)
    ensures Run(capacity, p, ops).1 == RunLog(capacity, p, ops).1
  {
    hide Refines, Consume, ConsumeLog;
    if ops == [] {
      NothingYet(p, t);
    } else {
      var front, z := ops[..|ops| - 1], ops[|ops| - 1];
      assert forall i :: 0 <= i < |front| ==> front[i] == ops[i];
      match z
      case Reset(keys) =>
        RunRefines(capacity, p, front, t);
        ClearRefines(Run(capacity, p, front).0, RunLog(capacity, p, front).0, p, t, keys);
      case Request(now, key) =>
        RunRefines(capacity, p, front, now);
        ConsumeRefines(Run(capacity, p, front).0, RunLog(capacity, p, front).0, p, capacity, now, key);
        RefinesLater(Run(capacity, p, ops).0, RunLog(capacity, p, ops).0, p, now, t);
    }
  }

  lemma NothingYet(p: Policy, t: real)
    ensures Refines(Limiter([], map[]), Log([], map[]), p, t)
  {
  }

  ghost predicate Tidy(l: Limiter, capacity: int) {
    && |l.order| <= (if capacity < 0 then 0 else capacity)
    && forall k :: k in l.buckets ==> l.buckets[k] != []
  }

  lemma {:induction false} ClearTidy(l: Limiter, capacity: int, keys: seq<string>)
    requires KeysMatch(l) && Tidy(l, capacity)
    ensures Tidy(Clear(l, keys), capacity)
  {
    if keys != [] {
      ClearTidy(l, capacity, keys[..|keys| - 1]);
      ClearMatches(l, keys[..|keys| - 1]);
    }
  }

  lemma OpenedTidy(l: Limiter, capacity: int, key: string)
    requires KeysMatch(l) && Tidy(l, capacity) && (key in l.buckets || |l.order| < capacity || l.order != [])
    ensures var m := Opened(l, capacity, key);
            && |m.order| <= (if capacity < 0 then 0 else capacity)
            && forall k :: k in m.buckets && k != key ==> m.buckets[k] != []
  {
    hide FirstEmpty;
  }

  lemma ConsumeTidy(l: Limiter, capacity: int, now: real, key: string, limit: int, window: int)
    requires KeysMatch(l) && Tidy(l, capacity)
    ensures Tidy(Consume(l, capacity, now, key, limit, window).0, capacity)
  {
    hide Expire, Opened;
    if limit >= 1 && window >= 1 && (key in l.buckets || |l.order| < capacity || l.order != []) {
      OpenedTidy(l, capacity, key);
    }
  }

  /** Main result. In every run, whatever the clock, there are at most `max_buckets` buckets and none of
      them is empty: eviction never finds an empty bucket and drops the earliest inserted key. */
  lemma {:induction false} BucketsTidy(capacity: int, p: Policy, ops: seq<Op>)
    ensures Tidy(Run(capacity, p, ops).0, capacity)
    ensures var l := Run(capacity, p, ops).0; l.order != [] ==> Victim(l) == l.order[0]
  {
    hide Consume, Tidy;
    if ops != [] {
      var l := Run(capacity, p, ops[..|ops| - 1]).0;
      BucketsTidy(capacity, p, ops[..|ops| - 1]);
      match ops[|ops| - 1]
      case Reset(keys) => ClearTidy(l, capacity, keys);
      case Request(now, key) => ConsumeTidy(l, capacity, now, key, p.limit(key), p.window(key));
    } else {
      NothingTidy(capacity);
    }
    TidyVictim(Run(capacity, p, ops).0, capacity);
  }

  lemma NothingTidy(capacity: int)
    ensures Tidy(Limiter([], map[]), capacity)
  {
  }

  lemma TidyVictim(l: Limiter, capacity: int)
    requires KeysMatch(l) && Tidy(l, capacity)
    ensures l.order != [] ==> Victim(l) == l.order[0]
  {
    NoEmptyBucket(l, 0);
  }

  /** Main result. After every run, a request with a positive limit and window raises StopIteration exactly
      when the limiter has no capacity, whatever its key. */
  lemma StopsIff(capacity: int, p: Policy, ops: seq<Op>, now: real, key: string)
    requires p.limit(key) >= 1 && p.window(key) >= 1
    ensures Consume(Run(capacity, p, ops).0, capacity, now, key, p.limit(key), p.window(key)).1 == StopIteration
            <==> capacity < 1
  {
    hide Run, Opened, Expire;
    var l := Run(capacity, p, ops).0;
    BucketsTidy(capacity, p, ops);
    assert KeysMatch(l) && (l.order == [] ==> key !in l.buckets);
  }

  /** A request is rejected as such exactly when its limit or its window is not positive, and changes nothing. */
  lemma RejectedIff(capacity: int, p: Policy, ops: seq<Op>, now: real, key: string)
    ensures var l := Run(capacity, p, ops).0; var r := Consume(l, capacity, now, key, p.limit(key), p.window(key));
            && (r.1 == ValueError <==> p.limit(key) <= 0 || p.window(key) <= 0)
            && (r.1 == ValueError ==> r.0 == l)
  {
    hide Run, Opened, Expire;
  }

  lemma CeilLeast(x: real, m: int)
    ensures m >= Ceil(x) <==> m as real >= x
  {
  }

  /** Main result. A refused client that stays quiet is admitted after m whole seconds exactly when m
      is at least the wait it was given. */
  lemma WaitIsLeast(capacity: int, p: Policy, ops: seq<Op>, now: real, key: string, m: int)
    requires Clocked(ops) && Until(ops, now) && m >= 0
    requires var l := Run(capacity, p, ops).0; Consume(l, capacity, now, key, p.limit(key), p.window(key)).1.Retry?
    ensures var limit, window := p.limit(key), p.window(key);
            var refused := Consume(Run(capacity, p, ops).0, capacity, now, key, limit, window);
            && KeysMatch(refused.0)
            && (Consume(refused.0, capacity, now + m as real, key, limit, window).1 == Admitted <==>
                  m >= refused.1.seconds)
  {
    hide RefinesBut, Run, RunLog, Tracks, Opened, Entered, Expire, Ceil;
    var l, f := Run(capacity, p, ops).0, RunLog(capacity, p, ops).0;
    RunRefines(capacity, p, ops, now);
    ConsumeMatches(l, capacity, now, key, p.limit(key), p.window(key));
    RetryOpens(l, capacity, now, key, p);
    OpenedRefines(l, f, p, now, capacity, key);
    QuietWait(Opened(l, capacity, key), Entered(f, capacity, key), p, now, key, m);
    ExistingKey(Consume(l, capacity, now, key, p.limit(key), p.window(key)).0, capacity, key);
  }

  lemma RetryOpens(l: Limiter, capacity: int, now: real, key: string, p: Policy)
    requires KeysMatch(l) && Consume(l, capacity, now, key, p.limit(key), p.window(key)).1.Retry?
    ensures p.limit(key) >= 1 && p.window(key) >= 1 && (key in l.buckets || |l.order| < capacity || l.order != [])
    ensures Consume(l, capacity, now, key, p.limit(key), p.window(key))
            == Decision(Opened(l, capacity, key), now, key, p.limit(key), p.window(key))
    ensures key in Consume(l, capacity, now, key, p.limit(key), p.window(key)).0.buckets
  {
    hide Opened, Expire;
  }

  lemma ExistingKey(l: Limiter, capacity: int, key: string)
    requires KeysMatch(l) && key in l.buckets
    ensures Opened(l, capacity, key) == l
  {
  }

  lemma QuietWait(l: Limiter, f: Log, p: Policy, now: real, key: string, m: int)
    requires RefinesBut(l, f, p, now, key) && p.limit(key) >= 1 && m >= 0
    requires Decision(l, now, key, p.limit(key), p.window(key)).1.Retry?
    ensures var refused := Decision(l, now, key, p.limit(key), p.window(key));
            && key in refused.0.buckets
            && (Decision(refused.0, now + m as real, key, p.limit(key), p.window(key)).1 == Admitted <==>
                  m >= refused.1.seconds)
  {
    hide Tracks, Ceil;
    var limit, window := p.limit(key), p.window(key);
    ExpireTracks(l.buckets[key], f.admissions[key], limit, window, now);
    var bucket := Expire(l.buckets[key], now - window as real);
    FullBucket(l.buckets[key], f.admissions[key], limit, window, now);
    var x := window as real - (now - bucket[0]);
    PositiveCeil(x);
    CeilLeast(x, m);
    var n := Expired(bucket, now + m as real - window as real);
    assert n > 0 <==> bucket[0] <= now + m as real - window as real;
  }

  lemma FullBucket(b: seq<real>, log: seq<real>, limit: int, window: int, now: real)
    requires Tracks(b, log, limit, window, now)
    ensures |Expire(b, now - window as real)| <= limit
  {
    var n := Expired(b, now - window as real);
  }

  // ---------------------------------------------------------------- insertion order, told by the requests

  /** The position in `ops` of the request that gave the key the bucket it has now. */
  function InsertedAt(capacity: int, p: Policy, ops: seq<Op>, key: string): (n: nat)
    requires key in Run(capacity, p, ops).0.order
    ensures n < |ops| && ops[n].Request? && ops[n].key == key
  {
    var front := ops[..|ops| - 1];
    if key in Run(capacity, p, front).0.order then InsertedAt(capacity, p, front, key)
    else
      OnlyRequestsInsert(capacity, p, ops, key);
      |ops| - 1
  }

  lemma OnlyRequestsInsert(capacity: int, p: Policy, ops: seq<Op>, key: string)
    requires ops != [] && key in Run(capacity, p, ops).0.order
    requires key !in Run(capacity, p, ops[..|ops| - 1]).0.order
    ensures ops[|ops| - 1].Request? && ops[|ops| - 1].key == key
  {
    var l, z := Run(capacity, p, ops[..|ops| - 1]).0, ops[|ops| - 1];
    match z
    case Reset(keys) => ClearOnlyDrops(l, keys, key);
    case Request(now, k) => ConsumeInsertsOne(l, capacity, now, k, p.limit(k), p.window(k), key);
  }

  lemma {:induction false} ClearOnlyDrops(l: Limiter, keys: seq<string>, key: string)
    ensures key in Clear(l, keys).order ==> key in l.order
  {
    if keys != [] {
      ClearOnlyDrops(l, keys[..|keys| - 1], key);
    }
  }

  lemma ConsumeInsertsOne(l: Limiter, capacity: int, now: real, k: string, limit: int, window: int, key: string)
    requires KeysMatch(l)
    ensures key in Consume(l, capacity, now, k, limit, window).0.order ==> key in l.order || key == k
  {
    hide Expire, Victim;
  }

  predicate Rising(order: seq<string>, rank: string -> nat) {
    forall i, j :: 0 <= i < j < |order| ==> rank(order[i]) < rank(order[j])
  }

  lemma {:induction false} WithoutRises(order: seq<string>, key: string, rank: string -> nat)
    requires Rising(order, rank)
    ensures Rising(Without(order, key), rank)
  {
    if order != [] {
      var front, z := order[..|order| - 1], order[|order| - 1];
      WithoutRises(front, key, rank);
      assert order == front + [z];
      var rest := Without(front, key);
      forall i | 0 <= i < |rest|
        ensures rank(rest[i]) < rank(z)
      {
        assert rest[i] in front;
        var j :| 0 <= j < |front| && front[j] == rest[i];
        assert order[j] == rest[i];
      }
    }
  }

  lemma WithoutLast(order: seq<string>, z: string, key: string)
    ensures Without(order + [z], key) == if z == key then Without(order, key) else Without(order, key) + [z]
  {
    assert (order + [z])[..|order|] == order;
  }

  lemma {:induction false} WithoutAbsent(order: seq<string>, key: string)
    requires key !in order
    ensures Without(order, key) == order
  {
    if order != [] {
      var front, z := order[..|order| - 1], order[|order| - 1];
      assert order == front + [z];
      WithoutAbsent(front, key);
      WithoutLast(front, z, key);
    }
  }

  /** Removing a key leaves the others in their order. */
  lemma {:induction false} WithoutKeepsOrder(a: seq<string>, key: string, b: seq<string>)
    requires key !in a && key !in b
    ensures Without(a + [key] + b, key) == a + b
  {
    hide Without;
    if b == [] {
      WithoutAbsent(a, key);
      WithoutLast(a, key, key);
      assert a + [key] + b == a + [key] && a + b == a;
    } else {
      var front, z := b[..|b| - 1], b[|b| - 1];
      assert b == front + [z];
      WithoutKeepsOrder(a, key, front);
      WithoutLast(a + [key] + front, z, key);
      assert a + [key] + b == a + [key] + front + [z] && a + b == a + front + [z];
    }
  }

  lemma {:induction false} ClearRises(l: Limiter, keys: seq<string>, rank: string -> nat)
    requires Rising(l.order, rank)
    ensures Rising(Clear(l, keys).order, rank)
  {
    if keys != [] {
      ClearRises(l, keys[..|keys| - 1], rank);
      WithoutRises(Clear(l, keys[..|keys| - 1]).order, keys[|keys| - 1], rank);
    }
  }

  /** A request leaves the order alone, or drops at most one key from it and appends its own. */
  lemma ConsumeOrder(l: Limiter, capacity: int, now: real, key: string, limit: int, window: int)
    requires KeysMatch(l)
    ensures var order := Consume(l, capacity, now, key, limit, window).0.order;
            || order == l.order
            || (key !in l.order && order == l.order + [key])
            || (key !in l.order && l.order != [] && order == Without(l.order, Victim(l)) + [key])
  {
    hide Expire, Victim, Without;
  }

  lemma ConsumeRises(l: Limiter, capacity: int, now: real, key: string, limit: int, window: int, rank: string -> nat,
                     last: nat)
    requires KeysMatch(l) && Rising(l.order, rank) && forall k :: k in l.order ==> rank(k) < last
    requires key !in l.order ==> rank(key) == last
    ensures Rising(Consume(l, capacity, now, key, limit, window).0.order, rank)
  {
    hide Consume, Victim;
    ConsumeOrder(l, capacity, now, key, limit, window);
    if l.order != [] {
      WithoutRises(l.order, Victim(l), rank);
      RisingEnd(Without(l.order, Victim(l)), key, rank, last);
    }
    RisingEnd(l.order, key, rank, last);
  }

  lemma RisingEnd(order: seq<string>, key: string, rank: string -> nat, last: nat)
    ensures Rising(order, rank) && (forall k :: k in order ==> rank(k) < last) && rank(key) == last ==>
              Rising(order + [key], rank)
  {
  }

  function Rank(capacity: int, p: Policy, ops: seq<Op>): string -> nat {
    key => if key in Run(capacity, p, ops).0.order then InsertedAt(capacity, p, ops, key) else 0
  }

  /** Main result. In every run the keys of the dictionary stand in the order in which the requests inserted
      them. */
  lemma {:induction false} OrderIsInsertion(capacity: int, p: Policy, ops: seq<Op>)
    ensures Rising(Run(capacity, p, ops).0.order, Rank(capacity, p, ops))
  {
    if ops != [] {
      var front, z := ops[..|ops| - 1], ops[|ops| - 1];
      OrderIsInsertion(capacity, p, front);
      var l, ranks := Run(capacity, p, front).0, Rank(capacity, p, front);
      var rank := k => if k in l.order then ranks(k) else |front|;
      SameRising(l.order, ranks, rank);
      match z {
        case Reset(keys) => ClearRises(l, keys, rank);
        case Request(now, key) =>
          ConsumeRises(l, capacity, now, key, p.limit(key), p.window(key), rank, |front|);
      }
      RankStep(capacity, p, ops);
      SameRising(Run(capacity, p, ops).0.order, rank, Rank(capacity, p, ops));
    }
  }

  lemma SameRising(order: seq<string>, f: string -> nat, g: string -> nat)
    requires Rising(order, f) && forall k :: k in order ==> f(k) == g(k)
    ensures Rising(order, g)
  {
  }

  lemma RankStep(capacity: int, p: Policy, ops: seq<Op>)
    requires ops != []
    ensures var front := ops[..|ops| - 1];
            forall k :: k in Run(capacity, p, ops).0.order ==>
              Rank(capacity, p, ops)(k)
              == if k in Run(capacity, p, front).0.order then Rank(capacity, p, front)(k) else |front|
  {
    hide Run;
  }

  /** Main result. The key that is evicted is the one whose bucket was created first. */
  lemma EvictsEarliest(capacity: int, p: Policy, ops: seq<Op>, key: string)
    requires var l := Run(capacity, p, ops).0; key in l.order
    ensures var l := Run(capacity, p, ops).0;
            && Victim(l) in l.order
            && InsertedAt(capacity, p, ops, Victim(l)) <= InsertedAt(capacity, p, ops, key)
  {
    hide Run, InsertedAt;
    BucketsTidy(capacity, p, ops);
    OrderIsInsertion(capacity, p, ops);
    var l := Run(capacity, p, ops).0;
    var i :| 0 <= i < |l.order| && l.order[i] == key;
    assert i > 0 ==> Rank(capacity, p, ops)(l.order[0]) < Rank(capacity, p, ops)(l.order[i]);
  }

  // ---------------------------------------------------------------- admissions, told by the replies

  /** The reply to a request after `ops`. */
  function ReplyTo(capacity: int, p: Policy, ops: seq<Op>, now: real, key: string): Reply {
    Consume(Run(capacity, p, ops).0, capacity, now, key, p.limit(key), p.window(key)).1
  }

  /** When those requests of the key were made that were admitted since its bucket was created. */
  function Admissions(capacity: int, p: Policy, ops: seq<Op>, key: string): seq<real> {
    if ops == [] || key !in Run(capacity, p, ops).0.order then []
    else
      var front, z := ops[..|ops| - 1], ops[|ops| - 1];
      Admissions(capacity, p, front, key) +
      if z.Request? && z.key == key && ReplyTo(capacity, p, front, z.now, key) == Admitted then [z.now] else []
  }

  function CountAfter(times: seq<real>, t: real): nat {
    if times == [] then 0 else CountAfter(times[..|times| - 1], t) + if times[|times| - 1] > t then 1 else 0
  }

  lemma {:induction false} RecentCounts(times: seq<real>, t: real)
    ensures |Recent(times, t)| == CountAfter(times, t)
  {
    if times != [] {
      RecentCounts(times[..|times| - 1], t);
    }
  }

  lemma ReplyFromLog(capacity: int, p: Policy, ops: seq<Op>, now: real, key: string)
    requires Clocked(ops) && Until(ops, now)
    ensures ReplyTo(capacity, p, ops, now, key)
            == ConsumeLog(RunLog(capacity, p, ops).0, capacity, now, key, p.limit(key), p.window(key)).1
    ensures Run(capacity, p, ops).0.order == RunLog(capacity, p, ops).0.order
  {
    hide Run, RunLog, Consume, ConsumeLog, Tracks;
    RunRefines(capacity, p, ops, now);
    ConsumeRefines(Run(capacity, p, ops).0, RunLog(capacity, p, ops).0, p, capacity, now, key);
  }

  lemma {:induction false} ClearLogKeeps(f: Log, keys: seq<string>, key: string)
    requires LogMatches(f)
    ensures LogMatches(ClearLog(f, keys)) && (key in ClearLog(f, keys).order ==> key in f.order)
    ensures key in ClearLog(f, keys).order ==> ClearLog(f, keys).admissions[key] == f.admissions[key]
  {
    if keys != [] {
      ClearLogKeeps(f, keys[..|keys| - 1], key);
    }
  }

  lemma ConsumeLogAdds(f: Log, capacity: int, now: real, k: string, limit: int, window: int, key: string)
    requires LogMatches(f)
    ensures var g := ConsumeLog(f, capacity, now, k, limit, window);
            LogMatches(g.0) && (key in g.0.order ==>
              g.0.admissions[key] == (if key in f.order then f.admissions[key] else [])
                                     + if key == k && g.1 == Admitted then [now] else [])
  {
    ConsumeLogMatches(f, capacity, now, k, limit, window);
    hide Recent, Without;
  }

  lemma {:induction false} AdmissionsAreLog(capacity: int, p: Policy, ops: seq<Op>, t: real, key: string)
    requires Clocked(ops) && Until(ops, t)
    ensures Run(capacity, p, ops).0.order == RunLog(capacity, p, ops).0.order
    ensures Admissions(capacity, p, ops, key)
            == if key in RunLog(capacity, p, ops).0.order then RunLog(capacity, p, ops).0.admissions[key] else []
  {
    hide ConsumeLog, Consume, ReplyTo;
    if ops == [] {
      NothingLogged(capacity, p);
    } else {
      var front, z := ops[..|ops| - 1], ops[|ops| - 1];
      assert forall i :: 0 <= i < |front| ==> front[i] == ops[i];
      ReplyFromLog(capacity, p, ops, t, key);
      var f := RunLog(capacity, p, front).0;
      match z {
        case Reset(keys) =>
          AdmissionsAreLog(capacity, p, front, t, key);
          ClearLogKeeps(f, keys, key);
        case Request(now, k) =>
          AdmissionsAreLog(capacity, p, front, now, key);
          ReplyFromLog(capacity, p, front, now, k);
          ConsumeLogAdds(f, capacity, now, k, p.limit(k), p.window(k), key);
      }
    }
  }

  lemma NothingLogged(capacity: int, p: Policy)
    ensures Run(capacity, p, []).0.order == [] == RunLog(capacity, p, []).0.order
  {
  }

  lemma AdmitsBelowLimit(f: Log, capacity: int, now: real, key: string, limit: int, window: int)
    requires LogMatches(f) && limit >= 1 && window >= 1 && capacity >= 1
    ensures ConsumeLog(f, capacity, now, key, limit, window).1 == Admitted <==>
              |Recent(if key in f.order then f.admissions[key] else [], now - window as real)| < limit
  {
    hide Without;
  }

  /** Main result. After every run with a clock that never runs backwards, a request is admitted exactly when
      fewer than `limit` requests of its key were admitted within the last window, since its bucket was
      created. */
  lemma AdmittedIff(capacity: int, p: Policy, ops: seq<Op>, now: real, key: string)
    requires Clocked(ops) && Until(ops, now) && capacity >= 1 && p.limit(key) >= 1 && p.window(key) >= 1
    ensures ReplyTo(capacity, p, ops, now, key) == Admitted <==>
              CountAfter(Admissions(capacity, p, ops, key), now - p.window(key) as real) < p.limit(key)
  {
    hide Run, RunLog, ConsumeLog, ReplyTo, Admissions, Recent;
    ReplyFromLog(capacity, p, ops, now, key);
    AdmissionsAreLog(capacity, p, ops, now, key);
    AdmitsBelowLimit(RunLog(capacity, p, ops).0, capacity, now, key, p.limit(key), p.window(key));
    RecentCounts(Admissions(capacity, p, ops, key), now - p.window(key) as real);
  }
}
