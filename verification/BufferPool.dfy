/** The goroutine that recycles upload buffers (swift_large_object.go, newBufferPool).
    The functions are its select branches; the class runs them in place on a queue. */
module BufferPool {

  /** Times are in nanoseconds. */
  const MINUTE: nat := 60_000_000_000

  datatype QBuf = QBuf(when: nat, buffer: nat)

  /** The queue, front first; the number of buffers made so far, which are numbered 0, 1, ...;
      and the time at which the goroutine entered its select. */
  datatype Pool = Pool(q: seq<QBuf>, makes: nat, since: nat, running: bool)

  function Refill(p: Pool, now: nat): Pool {
    if p.q == [] then p.(q := [QBuf(now, p.makes)], makes := p.makes + 1, since := now)
    else p.(since := now)
  }

  function Started(now: nat): Pool {
    Refill(Pool([], 0, now, true), now)
  }

  function Give(p: Pool, b: nat, now: nat): Pool {
    Refill(p.(q := [QBuf(now, b)] + p.q), now)
  }

  function Take(p: Pool, now: nat): Pool
    requires p.q != []
  {
    Refill(p.(q := p.q[1..]), now)
  }

  predicate Stale(e: QBuf, now: nat) {
    now - e.when > MINUTE
  }

  function Kept(q: seq<QBuf>, now: nat): seq<QBuf> {
    if q == [] then []
    else if Stale(q[0], now) then Kept(q[1..], now)
    else [q[0]] + Kept(q[1..], now)
  }

  function Dropped(q: seq<QBuf>, now: nat): seq<QBuf> {
    if q == [] then []
    else if Stale(q[0], now) then [q[0]] + Dropped(q[1..], now)
    else Dropped(q[1..], now)
  }

  function Sweep(p: Pool, now: nat): Pool {
    Refill(p.(q := Kept(p.q, now)), now)
  }

  function Buffers(q: seq<QBuf>): multiset<nat> {
    if q == [] then multiset{} else multiset{q[0].buffer} + Buffers(q[1..])
  }

  lemma {:induction false} BuffersSize(q: seq<QBuf>)
    ensures |Buffers(q)| == |q|
  {
    if q != [] {
      BuffersSize(q[1..]);
    }
  }

  lemma BuffersCons(e: QBuf, q: seq<QBuf>)
    ensures Buffers([e] + q) == multiset{e.buffer} + Buffers(q)
  {
    assert ([e] + q)[1..] == q;
  }

  /** A sweep only sorts the queue's buffers into kept and dropped ones. */
  lemma {:induction false} SweepPartitions(q: seq<QBuf>, now: nat)
    ensures Buffers(Kept(q, now)) + Buffers(Dropped(q, now)) == Buffers(q)
    ensures |Kept(q, now)| + |Dropped(q, now)| == |q|
  {
    if q != [] {
      SweepPartitions(q[1..], now);
      BuffersCons(q[0], Kept(q[1..], now));
      BuffersCons(q[0], Dropped(q[1..], now));
    }
  }

  /** A buffer stays if it has been in the pool for at most 60 s. */
  lemma {:induction false} KeptIffYoung(q: seq<QBuf>, now: nat, e: QBuf)
    ensures e in Kept(q, now) <==> e in q && now - e.when <= 60_000_000_000
  {
    if q != [] {
      KeptIffYoung(q[1..], now, e);
    }
  }

  // ----- the queue is ordered by age

  ghost predicate Ordered(p: Pool, now: nat) {
    && p.since <= now
    && (forall i :: 0 <= i < |p.q| ==> p.q[i].when <= p.since)
    && (forall i, j :: 0 <= i < j < |p.q| ==> p.q[j].when <= p.q[i].when)
  }

  /** In an ordered queue the buffers a sweep keeps are the ones at the front. */
  lemma {:induction false} SweepKeepsAPrefix(q: seq<QBuf>, now: nat)
    requires forall i, j :: 0 <= i < j < |q| ==> q[j].when <= q[i].when
    ensures |Kept(q, now)| <= |q| && Kept(q, now) == q[..|Kept(q, now)|]
    ensures Dropped(q, now) == q[|Kept(q, now)|..]
  {
    if q != [] {
      SweepKeepsAPrefix(q[1..], now);
      if Stale(q[0], now) {
        AllStale(q, now);
        AllStale(q[1..], now);
      } else {
        assert q == [q[0]] + q[1..];
      }
    }
  }

  lemma {:induction false} AllStale(q: seq<QBuf>, now: nat)
    requires forall i :: 0 <= i < |q| ==> Stale(q[i], now)
    ensures Kept(q, now) == [] && Dropped(q, now) == q
  {
    if q != [] {
      AllStale(q[1..], now);
      assert q == [q[0]] + q[1..];
    }
  }

  lemma {:induction false} KeptIsSubsequence(q: seq<QBuf>, now: nat, e: QBuf)
    requires e in Kept(q, now)
    ensures e in q
  {
    if Stale(q[0], now) || e != q[0] {
      KeptIsSubsequence(q[1..], now, e);
    }
  }

  lemma TakeKeepsOrder(p: Pool, now: nat)
    requires Ordered(p, now) && p.q != []
    ensures Ordered(Take(p, now), now)
  {
  }

  lemma GiveKeepsOrder(p: Pool, b: nat, now: nat)
    requires Ordered(p, now)
    ensures Ordered(Give(p, b, now), now)
  {
  }

  lemma SweepKeepsOrder(p: Pool, now: nat)
    requires Ordered(p, now)
    ensures Ordered(Sweep(p, now), now)
  {
    SweepKeepsAPrefix(p.q, now);
  }

  /** The timer is restarted whenever the select is entered, and every queued buffer is older than
      that, so a timer that fires late finds nothing fresh: one new buffer is all that is left. */
  lemma LateSweepEmptiesThePool(p: Pool, now: nat)
    requires Ordered(p, now) && now - p.since > 60_000_000_000
    ensures Sweep(p, now) == Pool([QBuf(now, p.makes)], p.makes + 1, now, p.running)
  {
    AllStale(p.q, now);
  }

  // ----- the goroutine's own state

  class BufferPool {
    var q: seq<QBuf>
    var makes: nat
    var since: nat

    ghost function View(): Pool
      reads this
    {
      Pool(q, makes, since, true)
    }

    constructor (now: nat)
      ensures View() == Started(now)
    {
      q, makes, since := [], 0, now;
      new;
      EnterSelect(now);
    }

    /** The top of the loop: a pool with nothing to offer makes a buffer. */
    method EnterSelect(now: nat)
      modifies this
      ensures View() == Refill(old(View()), now)
    {
      if |q| == 0 {
        q := [QBuf(now, makes)] + q;
        makes := makes + 1;
      }
      since := now;
    }

    method OnGive(b: nat, now: nat)
      modifies this
      ensures View() == Give(old(View()), b, now)
    {
      q := [QBuf(now, b)] + q;
      EnterSelect(now);
    }

    method OnGet(now: nat) returns (b: nat)
      requires q != []
      modifies this
      ensures b == old(q[0].buffer)
      ensures View() == Take(old(View()), now)
    {
      b := q[0].buffer;
      q := q[1..];
      EnterSelect(now);
    }

    /** The timeout branch removes stale elements one by one while it walks the list. */
    method OnTimeout(now: nat)
      modifies this
      ensures View() == Sweep(old(View()), now)
    {
      var i := 0;
      while i < |q|
        invariant 0 <= i <= |q|
        invariant q[..i] + Kept(q[i..], now) == Kept(old(q), now)
        invariant makes == old(makes) && since == old(since)
        decreases |q| - i
      {
        ghost var tail := q[i..];
        if now - q[i].when > MINUTE {
          q := q[..i] + q[i + 1..];
          assert q[i..] == tail[1..];
        } else {
          assert q[i + 1..] == tail[1..];
          assert q[..i] + ([q[i]] + Kept(tail[1..], now)) == q[..i + 1] + Kept(tail[1..], now);
          i := i + 1;
        }
      }
      assert q[i..] == [] && q[..i] == q;
      EnterSelect(now);
    }
  }
}
