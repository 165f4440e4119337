/** What every step of the uploader keeps. Each conjunct of the invariant has its own lemma. */
module UploaderInvariant {
  import opened Common
  import opened Segmenter
  import opened Uploader
  import BufferPool

  // ----- what the workers hold

  predicate Busy(w: Worker) {
    w.Putting? || w.Giving?
  }

  /** What can be asked of a worker. */
  datatype Question = IsBusy | HoldsBuffer(b: nat) | HoldsNumber(k: nat)

  function Yes(w: Worker, q: Question): nat {
    if !Busy(w) then 0
    else match q
         case IsBusy => 1
         case HoldsBuffer(b) => if w.part.buf == b then 1 else 0
         case HoldsNumber(k) => if w.part.number == k then 1 else 0
  }

  /** How many workers say yes. */
  function Count(ws: seq<Worker>, q: Question): nat {
    if ws == [] then 0 else Yes(ws[0], q) + Count(ws[1..], q)
  }

  lemma {:induction false} ReplaceWorker(ws: seq<Worker>, i: nat, w: Worker, q: Question)
    requires i < |ws|
    ensures Count(ws[i := w], q) + Yes(ws[i], q) == Count(ws, q) + Yes(w, q)
  {
    if i == 0 {
      assert ws[0 := w][1..] == ws[1..];
    } else {
      ReplaceWorker(ws[1..], i - 1, w, q);
      assert ws[i := w][1..] == ws[1..][i - 1 := w];
    }
  }

  lemma {:induction false} CountsWorker(ws: seq<Worker>, i: nat, q: Question)
    requires i < |ws|
    ensures Count(ws, q) >= Yes(ws[i], q)
  {
    if i > 0 {
      CountsWorker(ws[1..], i - 1, q);
    }
  }

  lemma {:induction false} CountsBoth(ws: seq<Worker>, i: nat, j: nat, q: Question)
    requires i < j < |ws|
    ensures Count(ws, q) >= Yes(ws[i], q) + Yes(ws[j], q)
  {
    if i > 0 {
      CountsBoth(ws[1..], i - 1, j - 1, q);
    } else {
      CountsWorker(ws[1..], j - 1, q);
    }
  }

  lemma {:induction false} CountBound(ws: seq<Worker>, q: Question)
    ensures Count(ws, q) <= |ws|
  {
    if ws != [] {
      CountBound(ws[1..], q);
    }
  }

  lemma {:induction false} NoneBusy(ws: seq<Worker>)
    requires forall i :: 0 <= i < |ws| ==> !Busy(ws[i])
    ensures Count(ws, IsBusy) == 0
  {
    if ws != [] {
      NoneBusy(ws[1..]);
    }
  }

  // ----- one owner for each buffer and one fate for each part

  /** The number of places buffer b is in: the pool, the writer, the workers' parts, or gone. */
  function Owners(s: State, b: nat): nat {
    BufferPool.Buffers(s.pool.q)[b] + (if s.lo.buf == Some(b) then 1 else 0)
    + Count(s.workers, HoldsBuffer(b)) + s.past.expired[b] + s.past.dropped[b]
  }

  /** Every buffer made is in exactly one place. */
  ghost predicate OneOwner(s: State) {
    forall b: nat :: Owners(s, b) == if b < s.pool.makes then 1 else 0
  }

  predicate SendingNumber(s: State, k: nat) {
    s.call.Sending? && s.call.part.number == k
  }

  /** The number of states part k is in: being sent, with a worker, stored, or given up. */
  function Fates(s: State, k: nat): nat {
    (if SendingNumber(s, k) then 1 else 0)
    + Count(s.workers, HoldsNumber(k)) + s.past.done[k] + s.past.failed[k]
  }

  /** Every part cut is in exactly one state. */
  ghost predicate OneFate(s: State) {
    forall k: nat :: Fates(s, k) == if 1 <= k <= s.lo.part then 1 else 0
  }

  /** Buffers made are live, expired or dropped. */
  ghost predicate Conserved(s: State) {
    s.pool.makes == LiveBuffers(s) + |s.past.expired| + |s.past.dropped|
  }

  function LiveBuffers(s: State): nat {
    |s.pool.q| + (if s.lo.buf.Some? then 1 else 0) + Count(s.workers, IsBusy)
  }

  /** No more than two buffers beyond one a worker, whatever fails or expires. */
  ghost predicate Bounded(c: Config, s: State) {
    LiveBuffers(s) <= WorkerCount(c) + 2
  }

  /** The writer's own fields, and the refinement of the segmentation by them. */
  ghost predicate WriterState(c: Config, s: State) {
    && |s.past.cut.parts| == s.lo.part
    && s.past.cut.bufsz == (if s.call.Sending? then Grow(s.lo.bufsz, s.lo.part) else s.lo.bufsz)
    && (s.lo.buf.None? ==> s.past.cut.pending == [])
    && (s.lo.buf.Some? && !s.call.Sending? ==> Mem(s, s.lo.buf.value) == s.past.cut.pending)
    && (s.call.Getting? ==> s.lo.buf.None?)
    && (s.call.Sending? ==> s.past.cut.pending == [] && s.lo.buf == Some(s.call.part.buf) && Carries(c, s, s.call.part))
  }

  /** Part p is one that was cut, and its reader still reads the bytes that were cut for it. */
  ghost predicate Carries(c: Config, s: State, p: Part) {
    && 1 <= p.number <= |s.past.cut.parts|
    && Mem(s, p.buf) == s.past.cut.parts[p.number - 1].data
    && p.etag == c.etag(s.past.cut.parts[p.number - 1].data)
  }

  ghost predicate Stored(c: Config, s: State, k: nat) {
    && 1 <= k <= |s.past.cut.parts|
    && k in s.cloud.store
    && c.etag(s.cloud.store[k]) == c.etag(s.past.cut.parts[k - 1].data)
  }

  ghost predicate WorkerStates(c: Config, s: State) {
    && |s.workers| == WorkerCount(c)
    && (forall w :: 0 <= w < |s.workers| && Busy(s.workers[w]) ==> Carries(c, s, s.workers[w].part))
    && (forall w :: 0 <= w < |s.workers| && s.workers[w].Putting? ==> s.workers[w].attempt < ATTEMPTS)
    && (forall w :: 0 <= w < |s.workers| && s.workers[w].Giving? && !s.past.aborted ==>
          Stored(c, s, s.workers[w].part.number))
    && (forall w :: 0 <= w < |s.workers| && s.workers[w].Exited? ==> s.lo.closed)
  }

  ghost predicate StoreState(c: Config, s: State) {
    && (!s.past.aborted ==> forall k :: k in s.past.done ==> Stored(c, s, k))
    && (forall k :: k in s.cloud.store ==> 1 <= k <= s.lo.part)
    && (s.call.Aborting? ==> s.past.aborted && forall k :: k in s.call.todo ==> 1 <= k <= s.lo.part)
  }

  ghost predicate Counters(s: State) {
    && s.lo.wg == Count(s.workers, IsBusy) + (if s.call.Sending? then 1 else 0)
    && |s.past.failed| == |s.past.dropped|
    && (s.lo.err <==> |s.past.failed| > 0)
  }

  predicate Open(call: Call) {
    call.Getting? || call.Sending? || call.Waiting?
  }

  /** How far Close has come. */
  ghost predicate Phases(s: State) {
    && (Open(s.call) ==> !s.lo.closed)
    && (s.call.Quitting? || s.call.PuttingManifest? ==> s.lo.closed)
    && (s.lo.closed ==> s.lo.wg == 0)
    && (s.pool.running <==> !s.lo.closed || s.call.Quitting?)
    && (s.pool.running ==> s.pool.q != [])
    && (s.call.PuttingManifest? ==> s.call.tries < ATTEMPTS && s.lo.part > 0 && !s.lo.err)
    && (s.cloud.manifest ==> s.lo.closed && s.lo.part > 0 && !s.lo.err && !s.call.Quitting?)
    && (s.past.completed ==> s.cloud.manifest && (s.call.Idle? || s.call.Aborting?))
    && (s.past.aborted ==> s.lo.err || (s.lo.closed && (s.call.Idle? || s.call.Aborting?)))
  }

  /** The segments are those of the accepted writes alone; nothing else the run did shows in them. */
  ghost predicate Refines(c: Config, s: State) {
    s.past.cut == if s.lo.closed || s.call.Waiting? || (s.call.Sending? && s.call.closing)
             then Finish(AcceptAll(Start(c.partSize), s.past.accepted))
             else AcceptAll(Start(c.partSize), s.past.accepted)
  }

  /** Where every buffer and every part is. */
  ghost predicate Accounts(c: Config, s: State) {
    OneOwner(s) && OneFate(s) && Conserved(s) && Bounded(c, s) && Counters(s)
  }

  ghost predicate Inv(c: Config, s: State) {
    && Accounts(c, s)
    && WriterState(c, s)
    && WorkerStates(c, s)
    && StoreState(c, s)
    && Phases(s)
    && Refines(c, s)
    && BufferPool.Ordered(s.pool, s.now)
  }

  // ----- initially

  lemma {:induction false} AllReady(n: nat, q: Question)
    ensures Count(seq(n, _ => Ready), q) == 0
  {
    if n > 0 {
      AllReady(n - 1, q);
      assert seq(n, _ => Ready)[1..] == seq(n - 1, _ => Ready);
    }
  }

  lemma InitHolds(c: Config, now: nat)
    ensures Inv(c, Init(c, now))
  {
    var s := Init(c, now);
    AllReady(WorkerCount(c), IsBusy);
    BufferPool.BuffersCons(BufferPool.QBuf(now, 0), []);
    assert s.pool.q == [BufferPool.QBuf(now, 0)] + [];
    forall b: nat ensures Owners(s, b) == if b < s.pool.makes then 1 else 0 {
      AllReady(WorkerCount(c), HoldsBuffer(b));
    }
    forall k: nat ensures Fates(s, k) == if 1 <= k <= s.lo.part then 1 else 0 {
      AllReady(WorkerCount(c), HoldsNumber(k));
    }
  }

  // ----- buffers in different places are different

  lemma WriterBufferIsOwn(s: State, w: nat)
    requires OneOwner(s) && s.lo.buf.Some? && w < |s.workers| && Busy(s.workers[w])
    ensures s.workers[w].part.buf != s.lo.buf.value
  {
    var b := s.lo.buf.value;
    CountsWorker(s.workers, w, HoldsBuffer(b));
    assert Owners(s, b) <= 1;
  }

  lemma PooledBufferIsFree(s: State, w: nat)
    requires OneOwner(s) && s.pool.q != [] && w < |s.workers| && Busy(s.workers[w])
    ensures s.workers[w].part.buf != s.pool.q[0].buffer
  {
    var b := s.pool.q[0].buffer;
    CountsWorker(s.workers, w, HoldsBuffer(b));
    assert Owners(s, b) <= 1;
  }

  lemma DoneIsNotHeld(s: State, w: nat, k: nat)
    requires OneFate(s) && w < |s.workers| && Busy(s.workers[w]) && k in s.past.done
    ensures s.workers[w].part.number != k
  {
    CountsWorker(s.workers, w, HoldsNumber(k));
    assert Fates(s, k) <= 1;
  }

  lemma NumberIsOwn(s: State, v: nat, w: nat)
    requires OneFate(s) && v < |s.workers| && w < |s.workers| && v != w
    requires Busy(s.workers[v]) && Busy(s.workers[w])
    ensures s.workers[v].part.number != s.workers[w].part.number
  {
    var k := s.workers[v].part.number;
    CountsBoth(s.workers, if v < w then v else w, if v < w then w else v, HoldsNumber(k));
    assert Fates(s, k) <= 1;
  }

  // ----- steps that move nothing between the writer, the workers and the pool

  predicate Local(a: Action) {
    a.CallWrite? || a.CallClose? || a.WaitDone? || a.QuitPool? || a.PutManifest? || a.DeleteSegment? || a.EndAbort?
  }

  /** The places of buffers and parts that s and t have in common. */
  ghost predicate SamePlaces(s: State, t: State) {
    && t.pool.q == s.pool.q && t.pool.makes == s.pool.makes && t.workers == s.workers
    && t.lo.buf == s.lo.buf && t.lo.err == s.lo.err
    && t.past.expired == s.past.expired && t.past.dropped == s.past.dropped
    && t.past.done == s.past.done && t.past.failed == s.past.failed
  }

  /** Either no part is being sent before or after, or the next one has just been cut. */
  ghost predicate MayCut(s: State, t: State) {
    && !s.call.Sending?
    && if t.call.Sending? then t.lo.part == s.lo.part + 1 == t.call.part.number && t.lo.wg == s.lo.wg + 1
       else t.lo.part == s.lo.part && t.lo.wg == s.lo.wg
  }

  lemma LocalShape(c: Config, s: State, a: Action)
    requires Enabled(s, a) && Local(a)
    ensures SamePlaces(s, Step(c, s, a)) && MayCut(s, Step(c, s, a))
  {
  }

  /** Accounting carries over to a state with the same places. */
  lemma SameAccounts(c: Config, s: State, t: State)
    requires Accounts(c, s) && SamePlaces(s, t)
    requires MayCut(s, t) || (t.call == s.call && t.lo.part == s.lo.part && t.lo.wg == s.lo.wg)
    ensures Accounts(c, t)
  {
    forall b: nat ensures Owners(t, b) == if b < t.pool.makes then 1 else 0 {
      assert Owners(t, b) == Owners(s, b);
    }
    forall k: nat ensures Fates(t, k) == if 1 <= k <= t.lo.part then 1 else 0 {
      assert Fates(s, k) == if 1 <= k <= s.lo.part then 1 else 0;
    }
  }

  // ----- the writer takes a buffer from the pool

  lemma OwnersAfterRefill(p: BufferPool.Pool, now: nat, b: nat)
    ensures var r := BufferPool.Refill(p, now);
            BufferPool.Buffers(r.q)[b] + (if b < p.makes then 1 else 0)
            == BufferPool.Buffers(p.q)[b] + (if b < r.makes then 1 else 0)
  {
    if p.q == [] {
      BufferPool.BuffersCons(BufferPool.QBuf(now, p.makes), []);
      assert BufferPool.Refill(p, now).q == [BufferPool.QBuf(now, p.makes)] + [];
    }
  }

  function Taken(s: State): State
    requires s.pool.q != []
  {
    s.(pool := BufferPool.Take(s.pool, s.now), lo := s.lo.(buf := Some(s.pool.q[0].buffer)))
  }

  lemma TakeMovesBuffer(s: State, b: nat)
    requires s.pool.q != [] && s.lo.buf.None?
    ensures Owners(Taken(s), b) + (if b < s.pool.makes then 1 else 0)
         == Owners(s, b) + (if b < Taken(s).pool.makes then 1 else 0)
  {
    OwnersAfterRefill(s.pool.(q := s.pool.q[1..]), s.now, b);
  }

  lemma TakeCounts(s: State, n: nat)
    requires Conserved(s) && Count(s.workers, IsBusy) <= n && LiveBuffers(s) <= n + 2
    requires s.pool.q != [] && s.lo.buf.None?
    ensures Conserved(Taken(s)) && LiveBuffers(Taken(s)) <= n + 2
  {
  }

  lemma TakeKeepsAccounts(c: Config, s: State)
    requires Accounts(c, s) && s.call.Getting? && s.lo.buf.None? && s.pool.q != [] && |s.workers| == WorkerCount(c)
    ensures Accounts(c, Taken(s))
  {
    var t := Taken(s);
    CountBound(s.workers, IsBusy);
    TakeCounts(s, WorkerCount(c));
    forall b: nat ensures Owners(t, b) == if b < t.pool.makes then 1 else 0 {
      TakeMovesBuffer(s, b);
      assert Owners(s, b) == if b < s.pool.makes then 1 else 0;
    }
    forall k: nat ensures Fates(t, k) == if 1 <= k <= t.lo.part then 1 else 0 {
      assert Fates(t, k) == Fates(s, k);
    }
  }

  lemma GetKeepsAccounts(c: Config, s: State)
    requires Accounts(c, s) && s.call.Getting? && s.lo.buf.None? && s.pool.q != [] && |s.workers| == WorkerCount(c)
    ensures Accounts(c, Get(c, s))
  {
    TakeKeepsAccounts(c, s);
    SameAccounts(c, Taken(s), Get(c, s));
  }

  // ----- a worker receives a part

  lemma SendKeepsAccounts(c: Config, s: State, w: nat)
    requires Accounts(c, s) && Enabled(s, SendPart(w)) && s.lo.buf == Some(s.call.part.buf)
    ensures Accounts(c, Send(s, w))
  {
    var t := Send(s, w);
    var x := Putting(s.call.part, 0);
    ReplaceWorker(s.workers, w, x, IsBusy);
    forall b: nat ensures Owners(t, b) == if b < t.pool.makes then 1 else 0 {
      ReplaceWorker(s.workers, w, x, HoldsBuffer(b));
      assert Owners(t, b) == Owners(s, b);
    }
    forall k: nat ensures Fates(t, k) == if 1 <= k <= t.lo.part then 1 else 0 {
      ReplaceWorker(s.workers, w, x, HoldsNumber(k));
      assert Fates(t, k) == Fates(s, k);
    }
  }

  // ----- a worker goes on with its part, or idles

  /** Worker w changes without taking or leaving a part. */
  lemma RelabelKeepsAccounts(c: Config, s: State, t: State, w: nat, x: Worker)
    requires Accounts(c, s) && w < |s.workers| && Busy(x) == Busy(s.workers[w])
    requires Busy(x) ==> x.part == s.workers[w].part
    requires SamePlaces(s, t.(workers := s.workers)) && t.workers == s.workers[w := x]
    requires t.call == s.call && t.lo == s.lo
    ensures Accounts(c, t)
  {
    ReplaceWorker(s.workers, w, x, IsBusy);
    forall b: nat ensures Owners(t, b) == if b < t.pool.makes then 1 else 0 {
      ReplaceWorker(s.workers, w, x, HoldsBuffer(b));
      assert Owners(t, b) == Owners(s, b);
    }
    forall k: nat ensures Fates(t, k) == if 1 <= k <= t.lo.part then 1 else 0 {
      ReplaceWorker(s.workers, w, x, HoldsNumber(k));
      assert Fates(t, k) == Fates(s, k);
    }
  }

  lemma GiveUpMoves(s: State, w: nat, n: nat)
    requires w < |s.workers| && s.workers[w].Putting?
    ensures Owners(GiveUp(s, w), n) == Owners(s, n)
    ensures Fates(GiveUp(s, w), n) == Fates(s, n)
  {
    ReplaceWorker(s.workers, w, Ready, HoldsBuffer(n));
    ReplaceWorker(s.workers, w, Ready, HoldsNumber(n));
  }

  lemma GiveUpKeepsAccounts(c: Config, s: State, w: nat)
    requires Accounts(c, s) && w < |s.workers| && s.workers[w].Putting?
    ensures Accounts(c, GiveUp(s, w))
  {
    var t := GiveUp(s, w);
    ReplaceWorker(s.workers, w, Ready, IsBusy);
    forall n: nat ensures Owners(t, n) == Owners(s, n) && Fates(t, n) == Fates(s, n) {
      GiveUpMoves(s, w, n);
    }
  }

  /** The state of the store after an attempt. */
  function Landed(s: State, w: nat, delivery: Delivery): State
    requires w < |s.workers| && s.workers[w].Putting?
  {
    var kept := Kept(s, s.workers[w].part, delivery);
    if kept.Some? then s.(cloud := s.cloud.(store := s.cloud.store[s.workers[w].part.number := kept.value])) else s
  }

  /** An attempt ends in success, in giving up, or in another attempt. */
  lemma PutShape(c: Config, s: State, w: nat, delivery: Delivery) returns (x: Worker)
    requires w < |s.workers| && s.workers[w].Putting?
    ensures x == Put(c, s, w, delivery).workers[w]
    ensures Put(c, s, w, delivery) ==
            if x.Ready? then GiveUp(Landed(s, w, delivery), w)
            else Landed(s, w, delivery).(workers := s.workers[w := x])
    ensures x.Ready? || (Busy(x) && x.part == s.workers[w].part)
    ensures x.Putting? ==> x.attempt == s.workers[w].attempt + 1 != ATTEMPTS
    ensures x.Giving? ==> Answered(delivery) && c.etag(Kept(s, x.part, delivery).value) == x.part.etag
  {
    x := Put(c, s, w, delivery).workers[w];
  }

  lemma PutKeepsAccounts(c: Config, s: State, w: nat, delivery: Delivery)
    requires Accounts(c, s) && w < |s.workers| && s.workers[w].Putting?
    ensures Accounts(c, Put(c, s, w, delivery))
  {
    var x := PutShape(c, s, w, delivery);
    var landed := Landed(s, w, delivery);
    SameAccounts(c, s, landed);
    if x.Ready? {
      GiveUpKeepsAccounts(c, landed, w);
    } else {
      RelabelKeepsAccounts(c, landed, Put(c, s, w, delivery), w, x);
    }
  }

  // ----- the pool receives a buffer or drops stale ones

  lemma GiveMovesBuffer(s: State, w: nat, n: nat)
    requires w < |s.workers| && s.workers[w].Giving?
    ensures Owners(Give(s, w), n) == Owners(s, n)
  {
    ReplaceWorker(s.workers, w, Ready, HoldsBuffer(n));
    BufferPool.BuffersCons(BufferPool.QBuf(s.now, s.workers[w].part.buf), s.pool.q);
  }

  lemma GiveMovesPart(s: State, w: nat, n: nat)
    requires w < |s.workers| && s.workers[w].Giving?
    ensures Fates(Give(s, w), n) == Fates(s, n)
  {
    ReplaceWorker(s.workers, w, Ready, HoldsNumber(n));
  }

  lemma GiveKeepsAccounts(c: Config, s: State, w: nat)
    requires Accounts(c, s) && w < |s.workers| && s.workers[w].Giving?
    ensures Accounts(c, Give(s, w))
  {
    var t := Give(s, w);
    ReplaceWorker(s.workers, w, Ready, IsBusy);
    forall n: nat ensures Owners(t, n) == Owners(s, n) && Fates(t, n) == Fates(s, n) {
      GiveMovesBuffer(s, w, n);
      GiveMovesPart(s, w, n);
    }
  }

  lemma SweepMovesBuffer(s: State, b: nat)
    ensures Owners(Sweep(s), b) + (if b < s.pool.makes then 1 else 0)
         == Owners(s, b) + (if b < Sweep(s).pool.makes then 1 else 0)
  {
    BufferPool.SweepPartitions(s.pool.q, s.now);
    OwnersAfterRefill(s.pool.(q := BufferPool.Kept(s.pool.q, s.now)), s.now, b);
  }

  lemma SweepCounts(s: State, n: nat)
    requires Conserved(s) && Count(s.workers, IsBusy) <= n && LiveBuffers(s) <= n + 2
    ensures Conserved(Sweep(s)) && LiveBuffers(Sweep(s)) <= n + 2
  {
    BufferPool.SweepPartitions(s.pool.q, s.now);
    BufferPool.BuffersSize(BufferPool.Dropped(s.pool.q, s.now));
  }

  lemma SweepKeepsAccounts(c: Config, s: State)
    requires Accounts(c, s) && |s.workers| == WorkerCount(c)
    ensures Accounts(c, Sweep(s))
  {
    CountBound(s.workers, IsBusy);
    SweepCounts(s, WorkerCount(c));
    forall n: nat
      ensures Owners(Sweep(s), n) == (if n < Sweep(s).pool.makes then 1 else 0)
    {
      SweepMovesBuffer(s, n);
      assert Owners(s, n) == if n < s.pool.makes then 1 else 0;
    }
    forall n: nat ensures Fates(Sweep(s), n) == if 1 <= n <= s.lo.part then 1 else 0 {
      assert Fates(Sweep(s), n) == Fates(s, n);
    }
  }

  lemma StepKeepsAccounts(c: Config, s: State, a: Action)
    requires Accounts(c, s) && Enabled(s, a) && |s.workers| == WorkerCount(c)
    requires (s.call.Sending? ==> s.lo.buf == Some(s.call.part.buf)) && (s.call.Getting? ==> s.lo.buf.None?)
    ensures Accounts(c, Step(c, s, a))
  {
    if Local(a) {
      LocalShape(c, s, a);
      SameAccounts(c, s, Step(c, s, a));
    } else {
      match a
      case GetBuffer => GetKeepsAccounts(c, s);
      case SendPart(w) => SendKeepsAccounts(c, s, w);
      case PutPart(w, delivery) => PutKeepsAccounts(c, s, w, delivery);
      case GiveBuffer(w) => GiveKeepsAccounts(c, s, w);
      case ExitWorker(w) => RelabelKeepsAccounts(c, s, Step(c, s, a), w, Exited);
      case SweepPool => SweepKeepsAccounts(c, s);
      case Tick(d) => SameAccounts(c, s, Step(c, s, a));
    }
  }

  // ----- the writer's state

  /** A writer with no part under way, whose segmentation so far is that of the accepted writes. */
  ghost predicate Writing(c: Config, s: State) {
    && |s.past.cut.parts| == s.lo.part
    && s.past.cut.bufsz == s.lo.bufsz
    && s.past.cut == AcceptAll(Start(c.partSize), s.past.accepted)
    && !s.lo.closed
  }

  lemma AppendKeepsWriter(c: Config, s: State, id: nat, contents: seq<byte>, b: seq<byte>)
    requires Writing(c, s) && s.lo.buf == Some(id) && contents == s.past.cut.pending
    ensures WriterState(c, Append(c, s, id, contents, b)) && Refines(c, Append(c, s, id, contents, b))
  {
    AcceptAllSnoc(Start(c.partSize), s.past.accepted, b);
  }

  lemma CloseKeepsWriter(c: Config, s: State, listed: bool)
    requires WriterState(c, s) && Refines(c, s) && s.call.Idle?
    ensures WriterState(c, Close(c, s, listed)) && Refines(c, Close(c, s, listed))
  {
  }

  lemma WriteKeepsWriter(c: Config, s: State, b: seq<byte>, listed: bool)
    requires WriterState(c, s) && Refines(c, s) && s.call.Idle?
    ensures WriterState(c, Write(c, s, b, listed)) && Refines(c, Write(c, s, b, listed))
  {
    if !s.lo.closed && !s.lo.err && s.lo.buf.Some? {
      AppendKeepsWriter(c, s, s.lo.buf.value, Mem(s, s.lo.buf.value), b);
    }
  }

  lemma GetKeepsWriter(c: Config, s: State)
    requires WriterState(c, s) && Refines(c, s) && Phases(s) && s.call.Getting? && s.pool.q != []
    ensures WriterState(c, Get(c, s)) && Refines(c, Get(c, s))
  {
    AppendKeepsWriter(c, Taken(s), s.pool.q[0].buffer, [], s.call.b);
  }

  lemma SendKeepsWriter(c: Config, s: State, w: nat)
    requires WriterState(c, s) && Refines(c, s) && Phases(s) && s.call.Sending? && w < |s.workers|
    ensures WriterState(c, Send(s, w)) && Refines(c, Send(s, w))
  {
  }

  /** s and t do not differ in what the writer has cut and holds. */
  ghost predicate SameWriter(s: State, t: State) {
    && t.mem == s.mem && t.past.cut == s.past.cut && t.past.accepted == s.past.accepted
    && t.lo.buf == s.lo.buf && t.lo.part == s.lo.part && t.lo.bufsz == s.lo.bufsz
  }

  lemma SameWriterKeeps(c: Config, s: State, t: State)
    requires WriterState(c, s) && Refines(c, s) && SameWriter(s, t)
    requires (t.call == s.call && t.lo.closed == s.lo.closed)
          || (!s.call.Sending? && !t.call.Sending? && !t.call.Getting?
              && (t.lo.closed || t.call.Waiting? <==> s.lo.closed || s.call.Waiting?))
    ensures WriterState(c, t) && Refines(c, t)
  {
  }

  lemma LaterStepsSameWriter(c: Config, s: State, a: Action)
    requires Enabled(s, a)
    requires a.WaitDone? || a.QuitPool? || a.PutManifest? || a.DeleteSegment? || a.EndAbort?
    ensures SameWriter(s, Step(c, s, a))
    ensures !Step(c, s, a).call.Sending? && !Step(c, s, a).call.Getting? && !Step(c, s, a).call.Waiting?
    ensures Step(c, s, a).lo.closed == (a.WaitDone? || s.lo.closed)
  {
  }

  lemma OthersSameWriter(c: Config, s: State, a: Action)
    requires Enabled(s, a)
    requires a.PutPart? || a.GiveBuffer? || a.ExitWorker? || a.SweepPool? || a.Tick?
    ensures SameWriter(s, Step(c, s, a)) && Step(c, s, a).call == s.call
    ensures Step(c, s, a).lo.closed == s.lo.closed && Step(c, s, a).past.aborted == s.past.aborted
  {
    if a.PutPart? {
      var _ := PutShape(c, s, a.w, a.delivery);
    }
  }

  lemma StepKeepsWriter(c: Config, s: State, a: Action)
    requires WriterState(c, s) && Refines(c, s) && Phases(s) && Enabled(s, a)
    ensures WriterState(c, Step(c, s, a)) && Refines(c, Step(c, s, a))
  {
    match a
    case CallWrite(b, listed) => WriteKeepsWriter(c, s, b, listed);
    case CallClose(listed) => CloseKeepsWriter(c, s, listed);
    case GetBuffer => GetKeepsWriter(c, s);
    case SendPart(w) => SendKeepsWriter(c, s, w);
    case _ =>
      if a.WaitDone? || a.QuitPool? || a.PutManifest? || a.DeleteSegment? || a.EndAbort? {
        LaterStepsSameWriter(c, s, a);
      } else {
        OthersSameWriter(c, s, a);
      }
      SameWriterKeeps(c, s, Step(c, s, a));
  }

  // ----- the workers' states

  /** Segments already cut stay, and so does the memory of every buffer but those listed. */
  ghost predicate Extends(s: State, t: State, but: set<nat>) {
    && s.past.cut.parts <= t.past.cut.parts
    && (forall b: nat :: b !in but ==> Mem(t, b) == Mem(s, b))
  }

  lemma CarriesExtends(c: Config, s: State, t: State, but: set<nat>, p: Part)
    requires Carries(c, s, p) && Extends(s, t, but) && p.buf !in but
    ensures Carries(c, t, p)
  {
  }

  /** A segment stays stored while segments are only added and it is not overwritten or deleted. */
  lemma StoredExtends(c: Config, s: State, t: State, but: set<nat>, k: nat)
    requires Stored(c, s, k) && Extends(s, t, but)
    requires k in t.cloud.store && t.cloud.store[k] == s.cloud.store[k]
    ensures Stored(c, t, k)
  {
  }

  function WriterBuffer(s: State): set<nat> {
    if s.lo.buf.Some? then {s.lo.buf.value} else {}
  }

  lemma AppendExtends(c: Config, s: State, id: nat, contents: seq<byte>, b: seq<byte>)
    ensures Extends(s, Append(c, s, id, contents, b), {id})
  {
  }

  lemma CallExtends(c: Config, s: State, a: Action)
    requires Enabled(s, a) && (a.CallWrite? || a.CallClose?)
    ensures Extends(s, Step(c, s, a), WriterBuffer(s))
  {
    if a.CallWrite? && s.lo.buf.Some? {
      AppendExtends(c, s, s.lo.buf.value, Mem(s, s.lo.buf.value), a.b);
    }
  }

  lemma LocalExtends(c: Config, s: State, a: Action)
    requires Enabled(s, a) && Local(a)
    ensures Extends(s, Step(c, s, a), WriterBuffer(s))
  {
    if a.CallWrite? || a.CallClose? {
      CallExtends(c, s, a);
    } else {
      LaterStepsSameWriter(c, s, a);
    }
  }

  /** Local steps change the store only by deleting for an abort. */
  lemma LocalStore(c: Config, s: State, a: Action)
    requires Enabled(s, a) && Local(a)
    ensures a.DeleteSegment? || Step(c, s, a).cloud.store == s.cloud.store
    ensures s.past.aborted ==> Step(c, s, a).past.aborted
    ensures s.lo.closed ==> Step(c, s, a).lo.closed
    ensures Step(c, s, a).call.Aborting? ==> Step(c, s, a).past.aborted || s.call.Aborting?
  {
  }

  lemma LocalKeepsWorkers(c: Config, s: State, a: Action)
    requires WorkerStates(c, s) && OneOwner(s) && Enabled(s, a) && Local(a)
    requires s.call.Aborting? ==> s.past.aborted
    ensures WorkerStates(c, Step(c, s, a))
  {
    var t := Step(c, s, a);
    LocalShape(c, s, a);
    LocalExtends(c, s, a);
    LocalStore(c, s, a);
    forall w | 0 <= w < |s.workers| && Busy(s.workers[w])
      ensures Carries(c, t, s.workers[w].part)
    {
      if s.lo.buf.Some? { WriterBufferIsOwn(s, w); }
      CarriesExtends(c, s, t, WriterBuffer(s), s.workers[w].part);
    }
    forall w | 0 <= w < |s.workers| && s.workers[w].Giving? && !t.past.aborted
      ensures Stored(c, t, s.workers[w].part.number)
    {
      StoredExtends(c, s, t, WriterBuffer(s), s.workers[w].part.number);
    }
  }

  lemma GetKeepsWorkers(c: Config, s: State)
    requires WorkerStates(c, s) && OneOwner(s) && Enabled(s, GetBuffer)
    ensures WorkerStates(c, Get(c, s))
  {
    var id := s.pool.q[0].buffer;
    var t := Get(c, s);
    AppendExtends(c, Taken(s), id, [], s.call.b);
    assert Extends(s, t, {id});
    forall w | 0 <= w < |s.workers| && Busy(s.workers[w])
      ensures Carries(c, t, s.workers[w].part)
    {
      PooledBufferIsFree(s, w);
      CarriesExtends(c, s, t, {id}, s.workers[w].part);
    }
    forall w | 0 <= w < |s.workers| && s.workers[w].Giving? && !t.past.aborted
      ensures Stored(c, t, s.workers[w].part.number)
    {
      StoredExtends(c, s, t, {id}, s.workers[w].part.number);
    }
  }

  lemma SendKeepsWorkers(c: Config, s: State, w: nat)
    requires WorkerStates(c, s) && WriterState(c, s) && Enabled(s, SendPart(w))
    ensures WorkerStates(c, Send(s, w))
  {
    var t := Send(s, w);
    assert Extends(s, t, {});
    forall v | 0 <= v < |s.workers| && Busy(t.workers[v])
      ensures Carries(c, t, t.workers[v].part)
    {
      CarriesExtends(c, s, t, {}, t.workers[v].part);
    }
    forall v | 0 <= v < |s.workers| && t.workers[v].Giving? && !t.past.aborted
      ensures Stored(c, t, t.workers[v].part.number)
    {
      StoredExtends(c, s, t, {}, t.workers[v].part.number);
    }
  }

  /** An attempt touches no stored segment but its own part's. */
  lemma PutTouches(c: Config, s: State, w: nat, delivery: Delivery, k: nat)
    requires w < |s.workers| && s.workers[w].Putting?
    requires Stored(c, s, k) && k != s.workers[w].part.number
    ensures Stored(c, Put(c, s, w, delivery), k)
  {
    var _ := PutShape(c, s, w, delivery);
  }

  /** A successful attempt leaves the part's segment in the store under its ETag. */
  lemma PutStores(c: Config, s: State, w: nat, delivery: Delivery)
    requires w < |s.workers| && s.workers[w].Putting? && Carries(c, s, s.workers[w].part)
    requires Put(c, s, w, delivery).workers[w].Giving?
    ensures Stored(c, Put(c, s, w, delivery), s.workers[w].part.number)
  {
    var _ := PutShape(c, s, w, delivery);
  }

  lemma PutKeepsWorkers(c: Config, s: State, w: nat, delivery: Delivery)
    requires WorkerStates(c, s) && OneFate(s) && w < |s.workers| && s.workers[w].Putting?
    ensures WorkerStates(c, Put(c, s, w, delivery))
  {
    var t := Put(c, s, w, delivery);
    var x := PutShape(c, s, w, delivery);
    OthersSameWriter(c, s, PutPart(w, delivery));
    assert Extends(s, t, {});
    forall v | 0 <= v < |s.workers| && Busy(t.workers[v])
      ensures Carries(c, t, t.workers[v].part)
    {
      CarriesExtends(c, s, t, {}, s.workers[v].part);
    }
    forall v | 0 <= v < |s.workers| && t.workers[v].Giving? && !t.past.aborted
      ensures Stored(c, t, t.workers[v].part.number)
    {
      if v == w {
        PutStores(c, s, w, delivery);
      } else {
        NumberIsOwn(s, v, w);
        PutTouches(c, s, w, delivery, s.workers[v].part.number);
      }
    }
  }

  lemma IdleKeepsWorkers(c: Config, s: State, t: State, w: nat, x: Worker)
    requires WorkerStates(c, s) && w < |s.workers| && !Busy(x) && (x.Exited? ==> s.lo.closed)
    requires t.workers == s.workers[w := x] && SameWriter(s, t)
    requires t.cloud == s.cloud && t.lo.closed == s.lo.closed && t.past.aborted == s.past.aborted
    ensures WorkerStates(c, t)
  {
  }

  lemma StepKeepsWorkers(c: Config, s: State, a: Action)
    requires WorkerStates(c, s) && WriterState(c, s) && OneOwner(s) && OneFate(s) && Enabled(s, a)
    requires s.call.Aborting? ==> s.past.aborted
    ensures WorkerStates(c, Step(c, s, a))
  {
    if Local(a) {
      LocalKeepsWorkers(c, s, a);
    } else {
      match a
      case GetBuffer => GetKeepsWorkers(c, s);
      case SendPart(w) => SendKeepsWorkers(c, s, w);
      case PutPart(w, delivery) => PutKeepsWorkers(c, s, w, delivery);
      case GiveBuffer(w) => IdleKeepsWorkers(c, s, Step(c, s, a), w, Ready);
      case ExitWorker(w) => IdleKeepsWorkers(c, s, Step(c, s, a), w, Exited);
      case _ =>
    }
  }

  // ----- the store

  lemma LocalKeepsStore(c: Config, s: State, a: Action)
    requires StoreState(c, s) && Enabled(s, a) && Local(a)
    requires s.call.Aborting? ==> s.past.aborted
    ensures StoreState(c, Step(c, s, a))
  {
    var t := Step(c, s, a);
    LocalShape(c, s, a);
    LocalExtends(c, s, a);
    LocalStore(c, s, a);
    if !t.past.aborted {
      forall k | k in s.past.done ensures Stored(c, t, k) {
        StoredExtends(c, s, t, WriterBuffer(s), k);
      }
    }
  }

  lemma GetKeepsStore(c: Config, s: State)
    requires StoreState(c, s) && Enabled(s, GetBuffer)
    ensures StoreState(c, Get(c, s))
  {
    var t := Get(c, s);
    AppendExtends(c, Taken(s), s.pool.q[0].buffer, [], s.call.b);
    if !t.past.aborted {
      forall k | k in s.past.done ensures Stored(c, t, k) {
        StoredExtends(c, s, t, {s.pool.q[0].buffer}, k);
      }
    }
  }

  lemma PutKeepsStore(c: Config, s: State, w: nat, delivery: Delivery)
    requires StoreState(c, s) && WorkerStates(c, s) && OneFate(s) && |s.past.cut.parts| == s.lo.part
    requires w < |s.workers| && s.workers[w].Putting?
    ensures StoreState(c, Put(c, s, w, delivery))
  {
    var t := Put(c, s, w, delivery);
    var x := PutShape(c, s, w, delivery);
    OthersSameWriter(c, s, PutPart(w, delivery));
    assert t.past.done == s.past.done;
    if !t.past.aborted {
      forall k | k in s.past.done ensures Stored(c, t, k) {
        DoneIsNotHeld(s, w, k);
        PutTouches(c, s, w, delivery, k);
      }
    }
  }

  lemma GiveKeepsStore(c: Config, s: State, w: nat)
    requires StoreState(c, s) && WorkerStates(c, s) && w < |s.workers| && s.workers[w].Giving?
    ensures StoreState(c, Give(s, w))
  {
    var t := Give(s, w);
    if !t.past.aborted {
      forall k | k in t.past.done ensures Stored(c, t, k) {
        assert k in s.past.done || k == s.workers[w].part.number;
        assert Stored(c, s, k);
      }
    }
  }

  lemma StepKeepsStore(c: Config, s: State, a: Action)
    requires StoreState(c, s) && WorkerStates(c, s) && OneFate(s) && |s.past.cut.parts| == s.lo.part
    requires Enabled(s, a) && (s.call.Aborting? ==> s.past.aborted)
    ensures StoreState(c, Step(c, s, a))
  {
    if Local(a) {
      LocalKeepsStore(c, s, a);
    } else {
      match a
      case GetBuffer => GetKeepsStore(c, s);
      case PutPart(w, delivery) => PutKeepsStore(c, s, w, delivery);
      case GiveBuffer(w) => GiveKeepsStore(c, s, w);
      case _ =>
    }
  }

  // ----- the course of Close

  lemma BusyMeansOpen(s: State, w: nat)
    requires Phases(s) && Counters(s) && w < |s.workers| && Busy(s.workers[w])
    ensures !s.lo.closed && s.pool.running
  {
    CountsWorker(s.workers, w, IsBusy);
  }

  lemma LocalKeepsPhases(c: Config, s: State, a: Action)
    requires Phases(s) && Enabled(s, a) && Local(a)
    ensures Phases(Step(c, s, a))
  {
  }

  lemma PutKeepsPhases(c: Config, s: State, w: nat, delivery: Delivery)
    requires Phases(s) && Counters(s) && w < |s.workers| && s.workers[w].Putting?
    ensures Phases(Put(c, s, w, delivery))
  {
    BusyMeansOpen(s, w);
    var _ := PutShape(c, s, w, delivery);
  }

  lemma StepKeepsPhases(c: Config, s: State, a: Action)
    requires Phases(s) && Counters(s) && Enabled(s, a)
    ensures Phases(Step(c, s, a))
  {
    if Local(a) {
      LocalKeepsPhases(c, s, a);
    } else {
      match a
      case PutPart(w, delivery) => PutKeepsPhases(c, s, w, delivery);
      case GiveBuffer(w) => BusyMeansOpen(s, w);
      case _ =>
    }
  }

  lemma StepKeepsOrder(c: Config, s: State, a: Action)
    requires BufferPool.Ordered(s.pool, s.now) && Enabled(s, a)
    ensures BufferPool.Ordered(Step(c, s, a).pool, Step(c, s, a).now)
  {
    match a
    case GetBuffer => BufferPool.TakeKeepsOrder(s.pool, s.now);
    case GiveBuffer(w) => BufferPool.GiveKeepsOrder(s.pool, s.workers[w].part.buf, s.now);
    case SweepPool => BufferPool.SweepKeepsOrder(s.pool, s.now);
    case _ =>
  }

  // ----- all together

  /** Every step keeps the invariant. */
  lemma StepKeepsInv(c: Config, s: State, a: Action)
    requires Inv(c, s) && Enabled(s, a)
    ensures Inv(c, Step(c, s, a))
  {
    StepKeepsAccounts(c, s, a);
    StepKeepsWriter(c, s, a);
    StepKeepsWorkers(c, s, a);
    StepKeepsStore(c, s, a);
    StepKeepsPhases(c, s, a);
    StepKeepsOrder(c, s, a);
  }

  lemma {:induction false} RunKeepsInv(c: Config, s: State, actions: seq<Action>)
    requires Inv(c, s) && Runs(c, s, actions)
    ensures Inv(c, After(c, s, actions))
    decreases |actions|
  {
    if actions != [] {
      StepKeepsInv(c, s, actions[0]);
      RunKeepsInv(c, Step(c, s, actions[0]), actions[1..]);
    }
  }

  /** The invariant holds in every reachable state. */
  lemma ReachableInv(c: Config, s: State)
    requires Reachable(c, s)
    ensures Inv(c, s)
  {
    var now: nat, actions :| Runs(c, Init(c, now), actions) && After(c, Init(c, now), actions) == s;
    InitHolds(c, now);
    RunKeepsInv(c, Init(c, now), actions);
  }
}
