/** What the uploader promises its callers, for every run: any writes, any interleaving of the
    goroutines, any failures of the store. */
module UploaderTheorems {
  import opened Common
  import opened Segmenter
  import opened Uploader
  import opened UploaderInvariant
  import BufferPool
  import SegmentNames

  // ----- a successful Close

  ghost predicate AllStored(c: Config, s: State) {
    && (forall k :: 1 <= k <= s.lo.part ==> Stored(c, s, k))
    && (forall k :: k in s.cloud.store ==> 1 <= k <= s.lo.part)
  }

  lemma {:induction false} HoldersAreBusy(ws: seq<Worker>, q: Question)
    ensures Count(ws, q) <= Count(ws, IsBusy)
  {
    if ws != [] {
      HoldersAreBusy(ws[1..], q);
    }
  }

  /** Once the channel is closed without an error, nothing is missing. */
  lemma ClosedMeansStored(c: Config, s: State)
    requires Inv(c, s) && s.lo.closed && !s.lo.err && !s.past.aborted
    ensures AllStored(c, s)
  {
    forall k | 1 <= k <= s.lo.part ensures Stored(c, s, k) {
      HoldersAreBusy(s.workers, HoldsNumber(k));
      assert Fates(s, k) == 1;
      assert s.past.failed == multiset{};
      assert k in s.past.done;
    }
  }

  /** Whenever the manifest is about to be put, every segment is in the store under its ETag. */
  lemma ManifestComesLast(c: Config, s: State, stored: bool, acked: bool, listed: bool)
    requires Reachable(c, s) && Enabled(s, PutManifest(stored, acked, listed))
    ensures AllStored(c, s) && s.lo.part >= 1
    ensures forall w :: 0 <= w < |s.workers| ==> !Busy(s.workers[w])
  {
    ReachableInv(c, s);
    ClosedMeansStored(c, s);
    forall w | 0 <= w < |s.workers| ensures !Busy(s.workers[w]) {
      CountsWorker(s.workers, w, IsBusy);
    }
  }

  /** A Close that returned no error, with no call after it, leaves a complete upload behind:
      the manifest, and exactly the segments into which the accepted writes are cut. */
  lemma CompletedUpload(c: Config, s: State)
    requires Reachable(c, s) && s.past.completed && !s.past.aborted
    ensures s.cloud.manifest && s.lo.part >= 1 && AllStored(c, s)
    ensures s.past.cut == Finish(AcceptAll(Start(c.partSize), s.past.accepted))
    ensures Flatten(Datas(s.past.cut.parts)) == Flatten(s.past.accepted)
  {
    ReachableInv(c, s);
    ClosedMeansStored(c, s);
    AcceptAllConserves(c.partSize, s.past.accepted);
  }

  function Objects(store: map<nat, seq<byte>>, listing: seq<nat>): seq<seq<byte>>
    requires forall k :: k in listing ==> k in store
  {
    seq(|listing|, i requires 0 <= i < |listing| => store[listing[i]])
  }

  /** What the store serves for the manifest: the segments in the order of its listing. */
  function Download(store: map<nat, seq<byte>>, listing: seq<nat>): seq<byte>
    requires forall k :: k in listing ==> k in store
  {
    Flatten(Objects(store, listing))
  }

  ghost predicate NoCollision(c: Config, s: State) {
    forall k :: Stored(c, s, k) ==> s.cloud.store[k] == s.past.cut.parts[k - 1].data
  }

  /** Read in part order, a completed upload is the written stream, unless an ETag collides. */
  lemma PartOrderRoundTrip(c: Config, s: State)
    requires Reachable(c, s) && s.past.completed && !s.past.aborted && NoCollision(c, s)
    ensures forall k :: k in SegmentNames.Range(s.lo.part) ==> k in s.cloud.store
    ensures Download(s.cloud.store, SegmentNames.Range(s.lo.part)) == Flatten(s.past.accepted)
  {
    CompletedUpload(c, s);
    assert |s.past.cut.parts| == s.lo.part by { ReachableInv(c, s); }
    var listing := SegmentNames.Range(s.lo.part);
    forall k | k in listing ensures Stored(c, s, k) {
    }
    forall i | 0 <= i < |listing| ensures Objects(s.cloud.store, listing)[i] == Datas(s.past.cut.parts)[i] {
      assert listing[i] == i + 1 && listing[i] in listing;
    }
    assert Objects(s.cloud.store, listing) == Datas(s.past.cut.parts);
  }

  /** The store lists the segments by name. Up to nine of them come back as they were written;
      from ten on the listing is not in part order, whatever the upload is called. */
  lemma ListedRoundTrip(c: Config, s: State, objectName: string, timestamp: string, listing: seq<nat>)
    requires Reachable(c, s) && s.past.completed && !s.past.aborted && NoCollision(c, s)
    requires SegmentNames.SortedListing(objectName, timestamp, s.lo.part, listing)
    ensures forall k :: k in listing ==> k in s.cloud.store
    ensures s.lo.part <= 9 ==> Download(s.cloud.store, listing) == Flatten(s.past.accepted)
    ensures s.lo.part >= 10 ==> listing != SegmentNames.Range(s.lo.part)
  {
    CompletedUpload(c, s);
    forall k | k in listing ensures k in s.cloud.store {
      assert Stored(c, s, k);
    }
    SegmentNames.ListingIsPartOrder(objectName, timestamp, s.lo.part, listing);
    PartOrderRoundTrip(c, s);
  }

  function Data(s: State, k: nat): seq<byte> {
    if 1 <= k <= |s.past.cut.parts| then s.past.cut.parts[k - 1].data else []
  }

  lemma FlattenStartsWith(xss: seq<seq<byte>>)
    requires |xss| >= 2
    ensures xss[0] + xss[1] <= Flatten(xss)
  {
    assert xss == [xss[0], xss[1]] + xss[2..];
    FlattenConcat([xss[0], xss[1]], xss[2..]);
    FlattenTwo(xss[0], xss[1]);
  }

  /** What comes back from ten segments on starts with the first and the tenth; so it is not what was
      written unless the tenth happens to begin like the second, or the second like the tenth. */
  lemma DownloadStartsWithTenth(c: Config, s: State, objectName: string, timestamp: string, listing: seq<nat>)
    requires Reachable(c, s) && s.past.completed && !s.past.aborted && NoCollision(c, s)
    requires SegmentNames.SortedListing(objectName, timestamp, s.lo.part, listing) && s.lo.part >= 10
    ensures forall k :: k in listing ==> k in s.cloud.store
    ensures Data(s, 1) + Data(s, 10) <= Download(s.cloud.store, listing)
    ensures Download(s.cloud.store, listing) == Flatten(s.past.accepted) ==>
              Data(s, 10) <= Data(s, 2) || Data(s, 2) <= Data(s, 10)
  {
    ListedRoundTrip(c, s, objectName, timestamp, listing);
    CompletedUpload(c, s);
    assert |s.past.cut.parts| == s.lo.part by { ReachableInv(c, s); }
    SegmentNames.ListingStartsWithOneAndTen(objectName, timestamp, s.lo.part, listing);
    assert Stored(c, s, 1) && Stored(c, s, 10);
    FlattenStartsWith(Objects(s.cloud.store, listing));
    FlattenStartsWith(Datas(s.past.cut.parts));
    PrefixesCompare(Data(s, 1), Data(s, 10), Data(s, 2), Download(s.cloud.store, listing));
  }

  lemma PrefixesCompare(a: seq<byte>, x: seq<byte>, y: seq<byte>, s: seq<byte>)
    requires a + x <= s
    ensures a + y <= s ==> x <= y || y <= x
  {
    assert s[|a|..][..|x|] == x;
    if a + y <= s {
      assert s[|a|..][..|y|] == y;
    }
  }

  /** A completed upload of at most 5 * 10^12 bytes has at most 10000 segments. */
  lemma CompletedPartCount(c: Config, s: State)
    requires Reachable(c, s) && s.past.completed && !s.past.aborted
    requires |Flatten(s.past.accepted)| <= 5_000_000_000_000
    ensures 1 <= s.lo.part <= 10000
  {
    CompletedUpload(c, s);
    ReachableInv(c, s);
    PartCountBound(c.partSize, s.past.accepted);
  }

  /** Every segment of a completed upload is full for its number, but for a last one that Close cut. */
  lemma CompletedSegmentSizes(c: Config, s: State, k: nat)
    requires Reachable(c, s) && s.past.completed && !s.past.aborted && k < s.lo.part
    ensures k < |s.past.cut.parts|
    ensures FullSegment(StartSize(c.partSize), k, s.past.cut.parts[k])
         || (k == s.lo.part - 1 && LastSegment(StartSize(c.partSize), k, s.past.cut.parts[k]))
  {
    CompletedUpload(c, s);
    ReachableInv(c, s);
    FinishedSegmentSizes(c.partSize, s.past.accepted);
  }

  // ----- a failed part

  lemma StepKeepsError(c: Config, s: State, a: Action)
    requires Enabled(s, a) && s.lo.err
    ensures Step(c, s, a).lo.err
  {
    if Local(a) {
      LocalShape(c, s, a);
    } else if a.PutPart? {
      var _ := PutShape(c, s, a.w, a.delivery);
    }
  }

  lemma {:induction false} RunKeepsError(c: Config, s: State, actions: seq<Action>)
    requires Runs(c, s, actions) && s.lo.err
    ensures After(c, s, actions).lo.err
    decreases |actions|
  {
    if actions != [] {
      StepKeepsError(c, s, actions[0]);
      RunKeepsError(c, Step(c, s, actions[0]), actions[1..]);
    }
  }

  /** After a part was given up no manifest is ever put, and no Close succeeds. */
  lemma NoManifestAfterFailure(c: Config, s: State, actions: seq<Action>)
    requires Reachable(c, s) && |s.past.failed| > 0 && Runs(c, s, actions)
    ensures !After(c, s, actions).cloud.manifest && !After(c, s, actions).past.completed
  {
    ReachableInv(c, s);
    RunKeepsError(c, s, actions);
    RunKeepsInv(c, s, actions);
  }

  predicate StoresManifest(a: Action) {
    a.PutManifest? && a.stored
  }

  lemma ManifestStep(c: Config, s: State, a: Action)
    requires Enabled(s, a)
    ensures Step(c, s, a).cloud.manifest <==> s.cloud.manifest || StoresManifest(a)
  {
    if a.PutPart? {
      var _ := PutShape(c, s, a.w, a.delivery);
    }
  }

  /** The manifest is there after a run exactly if it was before or a request of the run stored it: no
      abort takes it back, whatever the Close that put it reports. */
  lemma {:induction false} ManifestIffStored(c: Config, s: State, actions: seq<Action>)
    requires Runs(c, s, actions)
    ensures After(c, s, actions).cloud.manifest
       <==> s.cloud.manifest || exists i :: 0 <= i < |actions| && StoresManifest(actions[i])
    decreases |actions|
  {
    if actions != [] {
      ManifestStep(c, s, actions[0]);
      ManifestIffStored(c, Step(c, s, actions[0]), actions[1..]);
      if i :| 0 <= i < |actions[1..]| && StoresManifest(actions[1..][i]) {
        assert StoresManifest(actions[i + 1]);
      }
    }
  }

  /** Of one attempt: the worker goes on to give the buffer back if and only if an answer came and the
      store keeps bytes with the part's ETag; what the store keeps is what reached it. */
  lemma AttemptSucceedsIff(c: Config, s: State, w: nat, delivery: Delivery)
    requires Enabled(s, PutPart(w, delivery))
    ensures var t, p := Step(c, s, PutPart(w, delivery)), s.workers[w].part;
            && (t.workers[w].Giving? <==>
                  match delivery
                  case Lost => false
                  case Intact(acked) => acked && c.etag(Mem(s, p.buf)) == p.etag
                  case Garbled(bytes, acked) => acked && c.etag(bytes) == p.etag)
            && t.cloud.store == (match delivery
                                 case Lost => s.cloud.store
                                 case Intact(_) => s.cloud.store[p.number := Mem(s, p.buf)]
                                 case Garbled(bytes, _) => s.cloud.store[p.number := bytes])
            && (t.workers[w].Giving? || t.workers[w].Ready? || t.workers[w] == Putting(p, s.workers[w].attempt + 1))
  {
  }

  /** A part is given up exactly by its third attempt, if that fails too. */
  lemma ThirdFailureGivesUp(c: Config, s: State, w: nat, delivery: Delivery)
    requires Reachable(c, s) && Enabled(s, PutPart(w, delivery))
    ensures s.workers[w].attempt <= 2
    ensures var t := Step(c, s, PutPart(w, delivery));
            && (t.workers[w].Ready? <==> !t.workers[w].Giving? && s.workers[w].attempt == 2)
            && (t.workers[w].Ready? ==> t.lo.err && s.workers[w].part.number in t.past.failed)
            && (!t.workers[w].Ready? ==> t.lo.err == s.lo.err && t.past.failed == s.past.failed)
  {
    assert WorkerStates(c, s) by { ReachableInv(c, s); }
    OutcomeOfPut(c, s, w, delivery);
  }

  lemma OutcomeOfPut(c: Config, s: State, w: nat, delivery: Delivery)
    requires w < |s.workers| && s.workers[w].Putting?
    ensures var t := Put(c, s, w, delivery);
            && |t.workers| == |s.workers|
            && (t.workers[w].Ready? <==> !t.workers[w].Giving? && s.workers[w].attempt == 2)
            && (t.workers[w].Ready? ==> t.lo.err && t.past.failed == s.past.failed + multiset{s.workers[w].part.number})
            && (!t.workers[w].Ready? ==> t.lo.err == s.lo.err && t.past.failed == s.past.failed)
  {
  }

  /** The pool's timer can be served exactly once a minute has passed since the pool was last used. */
  lemma TimerAfterAMinute(c: Config, s: State)
    requires Reachable(c, s) && s.pool.running
    ensures s.pool.since <= s.now && (Enabled(s, SweepPool) <==> s.now >= s.pool.since + 60_000_000_000)
  {
    ReachableInv(c, s);
  }

  /** Any worker that waits for a part may receive the one that is sent. */
  lemma AnyWorkerReceives(c: Config, s: State, w: nat)
    requires Reachable(c, s) && s.call.Sending? && w < |s.workers| && s.workers[w].Ready?
    ensures Enabled(s, SendPart(w)) && Step(c, s, SendPart(w)).workers[w] == Putting(s.call.part, 0)
  {
    ReachableInv(c, s);
  }

  predicate Deletes(a: Action, k: nat) {
    a == DeleteSegment(k, true)
  }

  lemma StepKeepsObject(c: Config, s: State, a: Action, k: nat)
    requires Enabled(s, a) && k in s.cloud.store && !Deletes(a, k)
    ensures k in Step(c, s, a).cloud.store
  {
    if Local(a) && !a.DeleteSegment? {
      LocalStore(c, s, a);
    }
  }

  /** An object leaves the store only by a deletion of it that works. */
  lemma {:induction false} ObjectsStayUnlessDeleted(c: Config, s: State, actions: seq<Action>, k: nat)
    requires Runs(c, s, actions) && k in s.cloud.store
    requires forall i :: 0 <= i < |actions| ==> !Deletes(actions[i], k)
    ensures k in After(c, s, actions).cloud.store
    decreases |actions|
  {
    if actions != [] {
      StepKeepsObject(c, s, actions[0], k);
      ObjectsStayUnlessDeleted(c, Step(c, s, actions[0]), actions[1..], k);
    }
  }

  /** The writer's next buffer is the one that came to the pool last. */
  lemma YoungestBufferFirst(c: Config, s: State)
    requires Reachable(c, s) && Enabled(s, GetBuffer)
    ensures exists i :: 0 <= i < |s.pool.q| && Step(c, s, GetBuffer).lo.buf == Some(s.pool.q[i].buffer)
              && forall j :: 0 <= j < |s.pool.q| ==> s.pool.q[j].when <= s.pool.q[i].when
  {
    ReachableInv(c, s);
    assert Step(c, s, GetBuffer).lo.buf == Some(s.pool.q[0].buffer);
  }

  /** An attempt that reaches the store unharmed and is answered always succeeds, because the
      part's buffer still holds what it held when the ETag was computed. */
  lemma HonestAttemptSucceeds(c: Config, s: State, w: nat)
    requires Reachable(c, s) && Enabled(s, PutPart(w, Intact(true)))
    ensures Step(c, s, PutPart(w, Intact(true))).workers[w].Giving?
  {
    ReachableInv(c, s);
    assert Carries(c, s, s.workers[w].part);
  }

  // ----- what an abort leaves

  /** Steps of a call whose listings and deletions work. */
  predicate AbortsWork(a: Action) {
    && !IsCall(a)
    && (a.QuitPool? || a.PutManifest? ==> a.listed)
    && (a.DeleteSegment? ==> a.ok)
  }

  ghost predicate AllAbortsWork(actions: seq<Action>) {
    forall i :: 0 <= i < |actions| ==> AbortsWork(actions[i])
  }

  /** On the way of a Close, and when it has returned. */
  ghost predicate Settling(s: State) {
    match s.call
    case Idle => s.lo.closed && (s.past.completed || s.cloud.store == map[])
    case Aborting(todo) => s.lo.closed && !s.past.completed && todo == s.cloud.store.Keys
    case Getting(_) => false
    case Sending(_, closing) => closing && !s.past.completed
    case _ => !s.past.completed
  }

  lemma SettlingStep(c: Config, s: State, a: Action)
    requires Inv(c, s) && Settling(s) && Enabled(s, a) && AbortsWork(a)
    ensures Settling(Step(c, s, a)) && Step(c, s, a).past.accepted == s.past.accepted
  {
    if a.PutPart? {
      SettlingPut(c, s, a);
    } else if a.GiveBuffer? {
      BusyMeansOpen(s, a.w);
    }
  }

  lemma SettlingPut(c: Config, s: State, a: Action)
    requires Inv(c, s) && Settling(s) && Enabled(s, a) && a.PutPart?
    ensures Settling(Step(c, s, a)) && Step(c, s, a).past.accepted == s.past.accepted
  {
    BusyMeansOpen(s, a.w);
    OthersSameWriter(c, s, a);
    var _ := PutShape(c, s, a.w, a.delivery);
  }

  lemma {:induction false} SettlingRun(c: Config, s: State, actions: seq<Action>)
    requires Inv(c, s) && Settling(s) && Runs(c, s, actions) && AllAbortsWork(actions)
    ensures Settling(After(c, s, actions)) && Inv(c, After(c, s, actions))
    ensures After(c, s, actions).past.accepted == s.past.accepted
    decreases |actions|
  {
    if actions != [] {
      SettlingStep(c, s, actions[0]);
      StepKeepsInv(c, s, actions[0]);
      SettlingRun(c, Step(c, s, actions[0]), actions[1..]);
    }
  }

  /** A Close that has returned either succeeded, which it does not after the failure of a part or
      without a byte, or has left nothing of the upload, if its listing and deletions worked. */
  lemma CloseSettles(c: Config, s: State, a: Action, actions: seq<Action>)
    requires Reachable(c, s) && s.call.Idle? && !s.lo.closed && a == CallClose(true)
    requires Runs(c, s, [a] + actions) && AllAbortsWork(actions) && After(c, s, [a] + actions).call.Idle?
    ensures var t := After(c, s, [a] + actions);
            && (t.past.completed || t.cloud.store == map[])
            && (t.past.completed ==> t.past.failed == multiset{} && Flatten(t.past.accepted) != [])
            && (s.lo.err || Flatten(s.past.accepted) == [] ==> !t.past.completed && t.cloud == Cloud(map[], false))
  {
    ReachableInv(c, s);
    StepKeepsInv(c, s, a);
    assert ([a] + actions)[1..] == actions;
    var u := Step(c, s, a);
    SettlingRun(c, u, actions);
    SomePartsIffSomeBytes(c.partSize, s.past.accepted);
    if s.lo.err {
      RunKeepsError(c, u, actions);
    }
  }

  /** A call that is refused changes nothing but the store, from which all is deleted that no worker
      still holds. */
  ghost predicate Refusing(s: State, t: State, held: set<nat>) {
    && t.past.accepted == s.past.accepted && t.past.cut == s.past.cut && t.lo.part == s.lo.part
    && (forall w :: 0 <= w < |t.workers| && Busy(t.workers[w]) ==> t.workers[w].part.number in held)
    && match t.call
       case Idle => t.cloud.store.Keys <= held
       case Aborting(todo) => t.cloud.store.Keys <= held + todo
       case _ => false
  }

  lemma RefusingStep(c: Config, s: State, t: State, held: set<nat>, a: Action)
    requires Refusing(s, t, held) && Enabled(t, a) && AbortsWork(a)
    ensures Refusing(s, Step(c, t, a), held)
  {
    if a.PutPart? {
      OthersSameWriter(c, t, a);
      var _ := PutShape(c, t, a.w, a.delivery);
    }
  }

  lemma {:induction false} RefusingRun(c: Config, s: State, t: State, held: set<nat>, actions: seq<Action>)
    requires Refusing(s, t, held) && Runs(c, t, actions) && AllAbortsWork(actions)
    ensures Refusing(s, After(c, t, actions), held)
    decreases |actions|
  {
    if actions != [] {
      RefusingStep(c, s, t, held, actions[0]);
      RefusingRun(c, s, Step(c, t, actions[0]), held, actions[1..]);
    }
  }

  function Held(s: State): set<nat> {
    set w | 0 <= w < |s.workers| && Busy(s.workers[w]) :: s.workers[w].part.number
  }

  /** A write after an error or a Close, and a second Close, accept and cut nothing; when they return, of
      all the segments only those are left whose workers were still at it when they were called. */
  lemma RefusedCall(c: Config, s: State, a: Action, actions: seq<Action>)
    requires Reachable(c, s) && s.call.Idle? && IsCall(a) && a.listed
    requires s.lo.closed || (s.lo.err && a.CallWrite?)
    requires Runs(c, s, [a] + actions) && AllAbortsWork(actions) && After(c, s, [a] + actions).call.Idle?
    ensures var t := After(c, s, [a] + actions);
            && t.past.accepted == s.past.accepted && t.past.cut == s.past.cut && t.lo.part == s.lo.part
            && t.cloud.store.Keys <= Held(s) && (s.lo.closed ==> t.cloud.store == map[])
  {
    assert ([a] + actions)[1..] == actions;
    RefusingRun(c, s, Step(c, s, a), Held(s), actions);
    ReachableInv(c, s);
    if s.lo.closed {
      forall w | 0 <= w < |s.workers| ensures !Busy(s.workers[w]) {
        CountsWorker(s.workers, w, IsBusy);
      }
      assert Held(s) == {};
    }
  }

  // ----- buffers

  /** The bytes a part's reader sees are the ones that were cut for it, at every attempt. */
  lemma ReadersSeeTheirSegment(c: Config, s: State, w: nat)
    requires Reachable(c, s) && w < |s.workers| && s.workers[w].Putting?
    ensures 1 <= s.workers[w].part.number <= |s.past.cut.parts|
    ensures Mem(s, s.workers[w].part.buf) == s.past.cut.parts[s.workers[w].part.number - 1].data
  {
    ReachableInv(c, s);
    assert Carries(c, s, s.workers[w].part);
  }

  /** Every buffer made is in exactly one place; so none is given back twice. */
  lemma BufferOwnership(c: Config, s: State, b: nat)
    requires Reachable(c, s)
    ensures Owners(s, b) == if b < s.pool.makes then 1 else 0
    ensures forall w :: 0 <= w < |s.workers| && s.workers[w].Giving? ==>
              BufferPool.Buffers(s.pool.q)[s.workers[w].part.buf] == 0
  {
    ReachableInv(c, s);
    forall w | 0 <= w < |s.workers| && s.workers[w].Giving?
      ensures BufferPool.Buffers(s.pool.q)[s.workers[w].part.buf] == 0
    {
      CountsWorker(s.workers, w, HoldsBuffer(s.workers[w].part.buf));
      assert Owners(s, s.workers[w].part.buf) <= 1;
    }
  }

  /** Buffers made are live, expired or dropped, one is dropped for each failed part, and at most
      two more are live than there are workers. */
  lemma BufferConservation(c: Config, s: State)
    requires Reachable(c, s)
    ensures s.pool.makes == LiveBuffers(s) + |s.past.expired| + |s.past.dropped|
    ensures |s.past.dropped| == |s.past.failed|
    ensures |s.workers| == if c.concurrency > 1 then c.concurrency else 1
    ensures LiveBuffers(s) <= |s.workers| + 2
  {
    ReachableInv(c, s);
  }

  /** If the pool's timer is served late, every queued buffer has expired: what stays is one new one. */
  lemma LateSweep(c: Config, s: State)
    requires Reachable(c, s) && Enabled(s, SweepPool) && s.now - s.pool.since > BufferPool.MINUTE
    ensures Step(c, s, SweepPool).pool.q == [BufferPool.QBuf(s.now, s.pool.makes)]
    ensures Step(c, s, SweepPool).pool.makes == s.pool.makes + 1
    ensures |Step(c, s, SweepPool).past.expired| == |s.past.expired| + |s.pool.q|
  {
    ReachableInv(c, s);
    BufferPool.LateSweepEmptiesThePool(s.pool, s.now);
    BufferPool.AllStale(s.pool.q, s.now);
    BufferPool.BuffersSize(s.pool.q);
  }

  // ----- segmentation does not depend on the schedule

  /** Two runs that accepted the same writes and closed have cut the same segments. */
  lemma SegmentsAreDeterministic(c: Config, s: State, t: State)
    requires Reachable(c, s) && Reachable(c, t) && s.lo.closed && t.lo.closed
    requires s.past.accepted == t.past.accepted
    ensures s.past.cut == t.past.cut && s.lo.part == t.lo.part && s.lo.bufsz == t.lo.bufsz
  {
    ReachableInv(c, s);
    ReachableInv(c, t);
  }

  // ----- after the end

  lemma QuietStep(c: Config, s: State, a: Action)
    requires Inv(c, s) && s.past.completed && s.call.Idle? && Enabled(s, a) && !IsCall(a)
    ensures Step(c, s, a).cloud == s.cloud
    ensures Step(c, s, a).past == s.past && Step(c, s, a).call.Idle?
  {
    if a.PutPart? || a.GiveBuffer? {
      BusyMeansOpen(s, a.w);
      assert false;
    }
  }

  /** As long as no further call is made, a completed upload stays as it is. */
  lemma {:induction false} QuietKeepsUpload(c: Config, s: State, actions: seq<Action>)
    requires Inv(c, s) && s.past.completed && s.call.Idle? && Runs(c, s, actions)
    requires forall i :: 0 <= i < |actions| ==> !IsCall(actions[i])
    ensures After(c, s, actions).cloud == s.cloud && After(c, s, actions).past == s.past
    decreases |actions|
  {
    if actions != [] {
      QuietStep(c, s, actions[0]);
      StepKeepsInv(c, s, actions[0]);
      QuietKeepsUpload(c, Step(c, s, actions[0]), actions[1..]);
    }
  }

  lemma {:induction false} DeleteAll(c: Config, s: State) returns (actions: seq<Action>)
    requires s.call.Aborting?
    ensures Runs(c, s, actions) && forall i :: 0 <= i < |actions| ==> !IsCall(actions[i])
    ensures After(c, s, actions) == s.(cloud := Cloud(s.cloud.store - s.call.todo, s.cloud.manifest),
                                       call := Aborting({}))
    decreases s.call.todo
  {
    if s.call.todo == {} {
      actions := [];
      assert s.cloud.store - s.call.todo == s.cloud.store;
    } else {
      var k :| k in s.call.todo;
      var a := DeleteSegment(k, true);
      var rest := DeleteAll(c, Step(c, s, a));
      actions := [a] + rest;
      assert s.cloud.store - s.call.todo == (s.cloud.store - {k}) - (s.call.todo - {k});
    }
  }

  lemma LateCallDeletes(c: Config, s: State, a: Action) returns (actions: seq<Action>)
    requires Inv(c, s) && s.past.completed && s.call.Idle? && IsCall(a) && a.listed
    ensures actions != [] && actions[0] == a && forall i :: 1 <= i < |actions| ==> !IsCall(actions[i])
    ensures Runs(c, s, actions) && After(c, s, actions).cloud == Cloud(map[], true)
  {
    var t := Step(c, s, a);
    var rest := DeleteAll(c, t);
    actions := [a] + rest;
    assert t.cloud.store - t.call.todo == map[];
  }

  ghost predicate IsOneCall(actions: seq<Action>, a: Action) {
    actions != [] && actions[0] == a && forall i :: 1 <= i < |actions| ==> !IsCall(actions[i])
  }

  /** One more call of any kind, even an empty write or a second Close, can delete every segment
      of a completed upload and leave its manifest pointing at nothing. */
  lemma LateCallDestroysUpload(c: Config, s: State, a: Action)
    requires Reachable(c, s) && s.past.completed && s.call.Idle? && IsCall(a) && a.listed
    ensures exists actions :: IsOneCall(actions, a) && Runs(c, s, actions)
                              && After(c, s, actions).cloud == Cloud(map[], true)
  {
    ReachableInv(c, s);
    var actions := LateCallDeletes(c, s, a);
    assert IsOneCall(actions, a);
  }

  // ----- Close over a store that works

  /** Where a Close that meets no error can be. */
  predicate OnTheWay(s: State) {
    && !s.lo.err
    && match s.call
       case Sending(_, closing) => closing
       case Waiting => true
       case Quitting => true
       case PuttingManifest(_) => s.lo.part > 0
       case Aborting(_) => s.lo.part == 0 && !s.past.completed
       case Idle => s.lo.closed && (s.past.completed <==> s.lo.part > 0)
       case Getting(_) => false
  }

  lemma ServedPut(c: Config, s: State, w: nat)
    requires Inv(c, s) && Enabled(s, PutPart(w, Intact(true)))
    ensures Put(c, s, w, Intact(true)) == s.(
              cloud := s.cloud.(store := s.cloud.store[s.workers[w].part.number := Mem(s, s.workers[w].part.buf)]),
              workers := s.workers[w := Giving(s.workers[w].part)])
  {
    assert Carries(c, s, s.workers[w].part);
  }

  lemma ServedStep(c: Config, s: State, a: Action)
    requires Inv(c, s) && OnTheWay(s) && Enabled(s, a) && Served(a)
    ensures OnTheWay(Step(c, s, a)) && Step(c, s, a).past.accepted == s.past.accepted
  {
    if a.PutPart? {
      ServedPut(c, s, a.w);
    }
  }

  lemma {:induction false} ServedRun(c: Config, s: State, actions: seq<Action>)
    requires Inv(c, s) && OnTheWay(s) && Runs(c, s, actions)
    requires forall i :: 0 <= i < |actions| ==> Served(actions[i])
    ensures OnTheWay(After(c, s, actions)) && After(c, s, actions).past.accepted == s.past.accepted
    ensures Inv(c, After(c, s, actions))
    decreases |actions|
  {
    if actions != [] {
      ServedStep(c, s, actions[0]);
      StepKeepsInv(c, s, actions[0]);
      ServedRun(c, Step(c, s, actions[0]), actions[1..]);
    }
  }

  lemma SomePartsIffSomeBytes(partSize: int, writes: seq<seq<byte>>)
    ensures Finish(AcceptAll(Start(partSize), writes)).parts != [] <==> Flatten(writes) != []
  {
    var parts := Finish(AcceptAll(Start(partSize), writes)).parts;
    AcceptAllConserves(partSize, writes);
    FinishedSegmentSizes(partSize, writes);
    if parts != [] {
      ThresholdPositive(StartSize(partSize), |parts|);
      assert Datas(parts)[|parts| - 1] != [];
    } else {
      assert Datas(parts) == [];
    }
  }

  /** A Close after which the store serves every request, run to its return, reports success
      if and only if at least one byte was accepted. */
  lemma ServedCloseSucceeds(c: Config, s: State, listed: bool, actions: seq<Action>)
    requires Reachable(c, s) && s.call.Idle? && !s.lo.closed && !s.lo.err
    requires Runs(c, Step(c, s, CallClose(listed)), actions)
    requires forall i :: 0 <= i < |actions| ==> Served(actions[i])
    requires After(c, Step(c, s, CallClose(listed)), actions).call.Idle?
    ensures After(c, Step(c, s, CallClose(listed)), actions).past.completed <==> Flatten(s.past.accepted) != []
  {
    ReachableInv(c, s);
    StepKeepsInv(c, s, CallClose(listed));
    var t := Step(c, s, CallClose(listed));
    assert t.past.accepted == s.past.accepted;
    ServedRun(c, t, actions);
    SomePartsIffSomeBytes(c.partSize, s.past.accepted);
  }
}
