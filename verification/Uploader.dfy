/** The segmented uploader as a step system (swift_large_object.go): one writer, the workers that
    receive parts on an unbuffered channel, the buffer pool and the object store. A step is what one
    goroutine does between two points where it can be made to wait; a rendezvous on a channel is one
    step of both sides. Everything the environment decides is an argument of the action. */
module Uploader {
  import opened Common
  import opened Segmenter
  import BufferPool

  /** `etag` is the store's checksum of an object's bytes. */
  datatype Config = Config(concurrency: int, partSize: int, etag: seq<byte> -> string)

  const ATTEMPTS: nat := 3

  /** The part's reader reads the memory of buffer `buf`; nothing else holds its bytes. */
  datatype Part = Part(number: nat, buf: nat, etag: string)

  datatype Worker =
    | Ready
    | Putting(part: Part, attempt: nat)
    | Giving(part: Part)
    | Exited

  /** Where the one call in progress on the writer is. */
  datatype Call =
    | Idle
    | Getting(b: seq<byte>)
    | Sending(part: Part, closing: bool)
    | Waiting
    | Quitting
    | PuttingManifest(tries: nat)
    | Aborting(todo: set<nat>)

  /** What becomes of one PUT: it is lost, or the store keeps the bytes sent or other ones, and the
      answer with the ETag of what is kept arrives or not. */
  datatype Delivery =
    | Lost
    | Intact(acked: bool)
    | Garbled(bytes: seq<byte>, acked: bool)

  /** The fields of largeObject that the goroutines share. */
  datatype Fields = Fields(buf: Option<nat>, part: nat, bufsz: nat, closed: bool, err: bool, wg: int)

  /** The object store: this upload's segments by part number, and whether the manifest is put. */
  datatype Cloud = Cloud(store: map<nat, seq<byte>>, manifest: bool)

  /** What has happened; no step depends on it. */
  datatype History = History(
    cut: Cutter,
    accepted: seq<seq<byte>>,
    done: multiset<nat>,
    failed: multiset<nat>,
    expired: multiset<nat>,
    dropped: multiset<nat>,
    completed: bool,
    aborted: bool)

  datatype State = State(
    now: nat,
    pool: BufferPool.Pool,
    mem: map<nat, seq<byte>>,
    call: Call,
    lo: Fields,
    workers: seq<Worker>,
    cloud: Cloud,
    past: History)

  datatype Action =
    | CallWrite(b: seq<byte>, listed: bool)
    | CallClose(listed: bool)
    | GetBuffer
    | SendPart(w: nat)
    | WaitDone
    | QuitPool(listed: bool)
    | PutManifest(stored: bool, acked: bool, listed: bool)
    | DeleteSegment(k: nat, ok: bool)
    | EndAbort
    | PutPart(w: nat, delivery: Delivery)
    | GiveBuffer(w: nat)
    | ExitWorker(w: nat)
    | SweepPool
    | Tick(d: nat)

  function WorkerCount(c: Config): nat {
    Max(c.concurrency, 1)
  }

  function Init(c: Config, now: nat): State {
    State(now, BufferPool.Started(now), map[], Idle,
          Fields(None, 0, StartSize(c.partSize), false, false, 0),
          seq(WorkerCount(c), _ => Ready),
          Cloud(map[], false),
          History(Start(c.partSize), [], multiset{}, multiset{}, multiset{}, multiset{}, false, false))
  }

  predicate Enabled(s: State, a: Action) {
    match a
    case CallWrite(_, _) => s.call.Idle?
    case CallClose(_) => s.call.Idle?
    case GetBuffer => s.call.Getting? && s.pool.running && s.pool.q != []
    case SendPart(w) => s.call.Sending? && w < |s.workers| && s.workers[w].Ready? && !s.lo.closed
    case WaitDone => s.call.Waiting? && s.lo.wg == 0
    case QuitPool(_) => s.call.Quitting? && s.pool.running
    case PutManifest(stored, acked, _) => s.call.PuttingManifest? && (acked ==> stored)
    case DeleteSegment(k, _) => s.call.Aborting? && k in s.call.todo
    case EndAbort => s.call.Aborting? && s.call.todo == {}
    case PutPart(w, _) => w < |s.workers| && s.workers[w].Putting?
    case GiveBuffer(w) => w < |s.workers| && s.workers[w].Giving? && s.pool.running
    case ExitWorker(w) => w < |s.workers| && s.workers[w].Ready? && s.lo.closed
    case SweepPool => s.pool.running && s.now - s.pool.since >= BufferPool.MINUTE
    case Tick(_) => true
  }

  function Step(c: Config, s: State, a: Action): State
    requires Enabled(s, a)
  {
    match a
    case CallWrite(b, listed) => Write(c, s, b, listed)
    case CallClose(listed) => Close(c, s, listed)
    case GetBuffer => Get(c, s)
    case SendPart(w) => Send(s, w)
    case WaitDone => s.(lo := s.lo.(closed := true), call := Quitting)
    case QuitPool(listed) => Quit(s, listed)
    case PutManifest(stored, acked, listed) => Manifest(s, stored, acked, listed)
    case DeleteSegment(k, ok) => Delete(s, k, ok)
    case EndAbort => s.(call := Idle)
    case PutPart(w, delivery) => Put(c, s, w, delivery)
    case GiveBuffer(w) => Give(s, w)
    case ExitWorker(w) => s.(workers := s.workers[w := Exited])
    case SweepPool => Sweep(s)
    case Tick(d) => s.(now := s.now + d)
  }

  /** What a reader of buffer `id` sees; a buffer never written is empty. */
  function Mem(s: State, id: nat): seq<byte> {
    if id in s.mem then s.mem[id] else []
  }

  // ----- the writer

  function Write(c: Config, s: State, b: seq<byte>, listed: bool): State {
    if s.lo.closed || s.lo.err then BeginAbort(s, listed)
    else if s.lo.buf.None? then s.(call := Getting(b))
    else Append(c, s, s.lo.buf.value, Mem(s, s.lo.buf.value), b)
  }

  /** The writer receives the pool's front buffer, resets it and goes on with its write. */
  function Get(c: Config, s: State): State
    requires s.call.Getting? && s.pool.q != []
  {
    var id := s.pool.q[0].buffer;
    Append(c, s.(pool := BufferPool.Take(s.pool, s.now), lo := s.lo.(buf := Some(id))), id, [], s.call.b)
  }

  /** The rest of Write once the writer holds buffer `id`, which holds `contents`. */
  function Append(c: Config, s: State, id: nat, contents: seq<byte>, b: seq<byte>): State {
    var past := s.past.(accepted := s.past.accepted + [b], cut := Accept(s.past.cut, b));
    var filled := s.(mem := s.mem[id := contents + b], past := past);
    if |contents + b| >= s.lo.bufsz then BeginFlush(c, filled, id, false) else filled.(call := Idle)
  }

  /** flush up to its wait on the channel. */
  function BeginFlush(c: Config, s: State, id: nat, closing: bool): State {
    s.(lo := s.lo.(wg := s.lo.wg + 1, part := s.lo.part + 1),
       call := Sending(Part(s.lo.part + 1, id, c.etag(Mem(s, id))), closing))
  }

  /** A worker receives the part, and the writer goes on. */
  function Send(s: State, w: nat): State
    requires s.call.Sending? && w < |s.workers|
  {
    s.(workers := s.workers[w := Putting(s.call.part, 0)],
       lo := s.lo.(buf := None, bufsz := Grow(s.lo.bufsz, s.lo.part)),
       call := if s.call.closing then Waiting else Idle)
  }

  function Close(c: Config, s: State, listed: bool): State {
    if s.lo.closed then BeginAbort(s, listed)
    else if s.lo.buf.Some? && |Mem(s, s.lo.buf.value)| > 0 then
      BeginFlush(c, s.(past := s.past.(cut := Finish(s.past.cut))), s.lo.buf.value, true)
    else s.(call := Waiting)
  }

  function Quit(s: State, listed: bool): State {
    var stopped := s.(pool := s.pool.(running := false));
    if s.lo.part == 0 || s.lo.err then BeginAbort(stopped, listed)
    else stopped.(call := PuttingManifest(0))
  }

  function Manifest(s: State, stored: bool, acked: bool, listed: bool): State
    requires s.call.PuttingManifest?
  {
    var put := s.(cloud := s.cloud.(manifest := s.cloud.manifest || stored));
    if acked then put.(call := Idle, past := s.past.(completed := true))
    else if s.call.tries + 1 == ATTEMPTS then BeginAbort(put, listed)
    else put.(call := PuttingManifest(s.call.tries + 1))
  }

  /** abort lists this upload's segments, unless the listing fails, and goes on to delete them. */
  function BeginAbort(s: State, listed: bool): State {
    s.(call := Aborting(if listed then s.cloud.store.Keys else {}), past := s.past.(aborted := true))
  }

  function Delete(s: State, k: nat, ok: bool): State
    requires s.call.Aborting?
  {
    s.(cloud := s.cloud.(store := if ok then s.cloud.store - {k} else s.cloud.store),
       call := Aborting(s.call.todo - {k}))
  }

  // ----- the workers

  /** What the store keeps of an attempt to put part p. */
  function Kept(s: State, p: Part, delivery: Delivery): Option<seq<byte>> {
    match delivery
    case Lost => None
    case Intact(_) => Some(Mem(s, p.buf))
    case Garbled(bytes, _) => Some(bytes)
  }

  predicate Answered(delivery: Delivery) {
    !delivery.Lost? && delivery.acked
  }

  /** One attempt of worker w: putPart compares the store's ETag with the part's. */
  function Put(c: Config, s: State, w: nat, delivery: Delivery): State
    requires w < |s.workers| && s.workers[w].Putting?
  {
    var p := s.workers[w].part;
    var kept := Kept(s, p, delivery);
    var put := if kept.Some? then s.(cloud := s.cloud.(store := s.cloud.store[p.number := kept.value])) else s;
    if Answered(delivery) && c.etag(kept.value) == p.etag then
      put.(workers := s.workers[w := Giving(p)])
    else if s.workers[w].attempt + 1 == ATTEMPTS then
      GiveUp(put, w)
    else
      put.(workers := s.workers[w := Putting(p, s.workers[w].attempt + 1)])
  }

  /** After the last attempt the error is recorded and the part's buffer is forgotten. */
  function GiveUp(s: State, w: nat): State
    requires w < |s.workers| && s.workers[w].Putting?
  {
    var p := s.workers[w].part;
    s.(workers := s.workers[w := Ready],
       lo := s.lo.(err := true, wg := s.lo.wg - 1),
       past := s.past.(failed := s.past.failed + multiset{p.number}, dropped := s.past.dropped + multiset{p.buf}))
  }

  /** The pool receives the buffer back, and the worker is done with its part. */
  function Give(s: State, w: nat): State
    requires w < |s.workers| && s.workers[w].Giving?
  {
    var p := s.workers[w].part;
    s.(pool := BufferPool.Give(s.pool, p.buf, s.now),
       workers := s.workers[w := Ready],
       lo := s.lo.(wg := s.lo.wg - 1),
       past := s.past.(done := s.past.done + multiset{p.number}))
  }

  function Sweep(s: State): State {
    s.(pool := BufferPool.Sweep(s.pool, s.now),
       past := s.past.(expired := s.past.expired + BufferPool.Buffers(BufferPool.Dropped(s.pool.q, s.now))))
  }

  // ----- runs

  predicate IsCall(a: Action) {
    a.CallWrite? || a.CallClose?
  }

  /** Steps of a call in which every request reaches the store, is carried out and is answered. */
  predicate Served(a: Action) {
    && (a.PutPart? ==> a.delivery == Intact(true))
    && (a.PutManifest? ==> a.stored && a.acked)
    && !IsCall(a)
  }

  predicate Runs(c: Config, s: State, actions: seq<Action>)
    decreases |actions|
  {
    actions == [] || (Enabled(s, actions[0]) && Runs(c, Step(c, s, actions[0]), actions[1..]))
  }

  function After(c: Config, s: State, actions: seq<Action>): State
    requires Runs(c, s, actions)
    decreases |actions|
  {
    if actions == [] then s else After(c, Step(c, s, actions[0]), actions[1..])
  }

  ghost predicate Reachable(c: Config, s: State) {
    exists now, actions :: Runs(c, Init(c, now), actions) && After(c, Init(c, now), actions) == s
  }

  lemma RunsFirst(c: Config, s: State, a: Action, more: seq<Action>)
    requires Enabled(s, a) && Runs(c, Step(c, s, a), more)
    ensures Runs(c, s, [a] + more) && After(c, s, [a] + more) == After(c, Step(c, s, a), more)
  {
    assert ([a] + more)[1..] == more;
  }

  /** A run goes on from where another one ends. */
  lemma {:induction false} RunsOn(c: Config, s: State, actions: seq<Action>, more: seq<Action>)
    requires Runs(c, s, actions) && Runs(c, After(c, s, actions), more)
    ensures Runs(c, s, actions + more) && After(c, s, actions + more) == After(c, After(c, s, actions), more)
    decreases |actions|
  {
    if actions == [] {
      assert actions + more == more;
    } else {
      assert (actions + more)[1..] == actions[1..] + more;
      RunsOn(c, Step(c, s, actions[0]), actions[1..], more);
    }
  }

  lemma ReachableOn(c: Config, s: State, actions: seq<Action>)
    requires Reachable(c, s) && Runs(c, s, actions)
    ensures Reachable(c, After(c, s, actions))
  {
    var now: nat, before :| Runs(c, Init(c, now), before) && After(c, Init(c, now), before) == s;
    RunsOn(c, Init(c, now), before, actions);
  }
}
