/** Which uploads the store gives back as they were written: every stream with a byte in it can be
    uploaded, and the number of its segments decides. */
module UploaderDownloads {
  import opened Common
  import opened Segmenter
  import opened Uploader
  import opened UploaderInvariant
  import opened UploaderProgress
  import opened UploaderTheorems
  import SegmentNames
  import opened Text
  import Decimal

  // ----- a run without failures

  /** Every object in the store holds the bytes of its segment. */
  ghost predicate Faithful(s: State) {
    forall k :: k in s.cloud.store ==>
      1 <= k <= |s.past.cut.parts| && s.cloud.store[k] == s.past.cut.parts[k - 1].data
  }

  lemma LocalKeepsFaithful(c: Config, s: State, a: Action)
    requires Faithful(s) && Enabled(s, a) && Local(a)
    ensures Faithful(Step(c, s, a))
  {
    LocalExtends(c, s, a);
    if !a.DeleteSegment? {
      LocalStore(c, s, a);
    }
  }

  lemma OthersKeepFaithful(c: Config, s: State, a: Action)
    requires Faithful(s) && Enabled(s, a) && !Local(a) && !a.PutPart?
    ensures Faithful(Step(c, s, a)) && Step(c, s, a).lo.err == s.lo.err
  {
    if a.GetBuffer? {
      AppendExtends(c, Taken(s), s.pool.q[0].buffer, [], s.call.b);
    }
  }

  /** As long as nothing goes wrong with a request, the store is faithful and there is no error. */
  lemma ServedKeepsFaithful(c: Config, s: State, a: Action)
    requires Inv(c, s) && Faithful(s) && Enabled(s, a) && (IsCall(a) || Served(a))
    ensures Faithful(Step(c, s, a)) && Step(c, s, a).lo.err == s.lo.err
  {
    if Local(a) {
      LocalKeepsFaithful(c, s, a);
      LocalShape(c, s, a);
    } else if a.PutPart? {
      ServedPut(c, s, a.w);
      assert Carries(c, s, s.workers[a.w].part);
    } else {
      OthersKeepFaithful(c, s, a);
    }
  }

  // ----- writing

  /** Between the start of a write and its return, and no error before it. */
  predicate Writable(s: State) {
    && !s.lo.err && !s.lo.closed && !s.past.aborted
    && (s.call.Idle? || s.call.Getting? || (s.call.Sending? && !s.call.closing))
  }

  /** The writes accepted and the one under way. */
  function Given(s: State): seq<seq<byte>> {
    s.past.accepted + (if s.call.Getting? then [s.call.b] else [])
  }

  lemma WritableStep(c: Config, s: State, a: Action)
    requires Writable(s) && Enabled(s, a) && Served(a) && Step(c, s, a).lo.err == s.lo.err
    ensures Writable(Step(c, s, a)) && Given(Step(c, s, a)) == Given(s)
  {
    if a.PutPart? {
      OthersSameWriter(c, s, a);
    }
  }

  lemma {:induction false} WritableRun(c: Config, s: State, actions: seq<Action>)
    requires Inv(c, s) && Faithful(s) && Writable(s) && Runs(c, s, actions) && AllServed(actions)
    ensures Faithful(After(c, s, actions)) && Writable(After(c, s, actions))
    ensures Given(After(c, s, actions)) == Given(s)
    decreases |actions|
  {
    if actions != [] {
      ServedKeepsFaithful(c, s, actions[0]);
      WritableStep(c, s, actions[0]);
      StepKeepsInv(c, s, actions[0]);
      WritableRun(c, Step(c, s, actions[0]), actions[1..]);
    }
  }

  /** A call and a run of it to its return, on which every request is served. */
  lemma CallReturns(c: Config, s: State, a: Action) returns (actions: seq<Action>, t: State)
    requires Reachable(c, s) && Enabled(s, a) && IsCall(a)
    ensures Inv(c, s) && Inv(c, Step(c, s, a))
    ensures Runs(c, Step(c, s, a), actions) && AllServed(actions) && t == After(c, Step(c, s, a), actions)
    ensures Reachable(c, t) && t.call.Idle?
  {
    ReachableInv(c, s);
    StepKeepsInv(c, s, a);
    actions := RunToRest(c, Step(c, s, a));
    t := After(c, Step(c, s, a), actions);
    RunsFirst(c, s, a, actions);
    ReachableOn(c, s, [a] + actions);
  }

  lemma BeginWrite(c: Config, s: State, b: seq<byte>)
    requires Writable(s) && s.call.Idle?
    ensures Writable(Step(c, s, CallWrite(b, true)))
    ensures Given(Step(c, s, CallWrite(b, true))) == s.past.accepted + [b]
  {
  }

  /** A state in which nothing has gone wrong and the next call can be made. */
  ghost predicate Smooth(c: Config, s: State) {
    Reachable(c, s) && Faithful(s) && Writable(s) && s.call.Idle?
  }

  lemma WriteOne(c: Config, s: State, b: seq<byte>) returns (t: State)
    requires Smooth(c, s)
    ensures Smooth(c, t) && t.past.accepted == s.past.accepted + [b]
  {
    var a := CallWrite(b, true);
    BeginWrite(c, s, b);
    var actions;
    actions, t := CallReturns(c, s, a);
    ServedKeepsFaithful(c, s, a);
    WritableRun(c, Step(c, s, a), actions);
  }

  lemma {:induction false} WriteAll(c: Config, writes: seq<seq<byte>>) returns (s: State)
    ensures Smooth(c, s) && s.past.accepted == writes
    decreases |writes|
  {
    if writes == [] {
      s := Init(c, 0);
      assert Runs(c, s, []) && After(c, s, []) == s;
    } else {
      var before := WriteAll(c, writes[..|writes| - 1]);
      s := WriteOne(c, before, writes[|writes| - 1]);
      assert writes == writes[..|writes| - 1] + [writes[|writes| - 1]];
    }
  }

  // ----- closing

  predicate Closing(s: State) {
    OnTheWay(s) && (s.past.aborted ==> s.lo.closed && s.lo.part == 0)
  }

  lemma ClosingStep(c: Config, s: State, a: Action)
    requires Inv(c, s) && Closing(s) && Enabled(s, a) && Served(a)
    ensures Closing(Step(c, s, a)) && Step(c, s, a).past.accepted == s.past.accepted
  {
    ServedStep(c, s, a);
    if a.PutPart? {
      OthersSameWriter(c, s, a);
    }
  }

  lemma {:induction false} ClosingRun(c: Config, s: State, actions: seq<Action>)
    requires Inv(c, s) && Faithful(s) && Closing(s) && Runs(c, s, actions) && AllServed(actions)
    ensures Faithful(After(c, s, actions)) && Closing(After(c, s, actions)) && Inv(c, After(c, s, actions))
    ensures After(c, s, actions).past.accepted == s.past.accepted
    decreases |actions|
  {
    if actions != [] {
      ServedKeepsFaithful(c, s, actions[0]);
      ClosingStep(c, s, actions[0]);
      StepKeepsInv(c, s, actions[0]);
      ClosingRun(c, Step(c, s, actions[0]), actions[1..]);
    }
  }

  lemma CloseAll(c: Config, s: State) returns (t: State)
    requires Smooth(c, s)
    ensures Reachable(c, t) && Faithful(t) && t.call.Idle? && t.past.accepted == s.past.accepted
    ensures t.past.cut == Finish(AcceptAll(Start(c.partSize), t.past.accepted))
    ensures t.past.completed <==> t.past.cut.parts != []
    ensures t.past.completed ==> !t.past.aborted
  {
    var a := CallClose(true);
    var actions;
    actions, t := CallReturns(c, s, a);
    ServedKeepsFaithful(c, s, a);
    ClosingRun(c, Step(c, s, a), actions);
  }

  // ----- a Close that fails and leaves its manifest

  /** On the way of a Close of an upload with a part in it, up to its first request for the manifest. */
  predicate BeforeManifest(s: State) {
    Closing(s) && s.lo.part > 0 && !s.call.Idle? && !s.past.completed
  }

  lemma {:induction false} RunToManifest(c: Config, s: State) returns (actions: seq<Action>)
    requires Inv(c, s) && BeforeManifest(s) && (s.call.PuttingManifest? ==> s.call.tries == 0)
    ensures Runs(c, s, actions) && Inv(c, After(c, s, actions))
    ensures After(c, s, actions).call == PuttingManifest(0) && After(c, s, actions).lo.part > 0
    ensures !After(c, s, actions).past.completed && After(c, s, actions).past.accepted == s.past.accepted
    decreases Remaining(s)
  {
    if s.call.PuttingManifest? {
      actions := [];
    } else {
      var a := WorkOn(c, s);
      NearerToManifest(c, s, a);
      var rest := RunToManifest(c, Step(c, s, a));
      actions := [a] + rest;
      RunsFirst(c, s, a, rest);
    }
  }

  lemma NearerToManifest(c: Config, s: State, a: Action)
    requires Inv(c, s) && BeforeManifest(s) && !s.call.PuttingManifest? && Enabled(s, a) && Served(a)
    ensures BeforeManifest(Step(c, s, a)) && Step(c, s, a).past.accepted == s.past.accepted
    ensures Step(c, s, a).call.PuttingManifest? ==> Step(c, s, a).call.tries == 0
  {
    ClosingStep(c, s, a);
    if a.PutPart? {
      OthersSameWriter(c, s, a);
    }
  }

  /** Three requests for the manifest of which only the last reaches the store, and is not answered. */
  lemma LoseAnswers(c: Config, s: State) returns (actions: seq<Action>)
    requires Inv(c, s) && s.call == PuttingManifest(0)
    ensures Runs(c, s, actions)
    ensures After(c, s, actions) == BeginAbort(s.(cloud := s.cloud.(manifest := true)), true)
  {
    var lost, unanswered := PutManifest(false, false, true), PutManifest(true, false, true);
    var s1 := Step(c, s, lost);
    var s2 := Step(c, s1, lost);
    assert Runs(c, Step(c, s2, unanswered), []);
    RunsFirst(c, s2, unanswered, []);
    RunsFirst(c, s1, lost, [unanswered] + []);
    RunsFirst(c, s, lost, [lost] + ([unanswered] + []));
    actions := [lost] + ([lost] + ([unanswered] + []));
  }

  /** Every part deleted, the manifest in place, and no Close that succeeded. */
  ghost predicate Bereft(s: State) {
    s.cloud == Cloud(map[], true) && s.call.Idle? && s.lo.closed && !s.past.completed
  }

  lemma AbortLeavesManifest(c: Config, s: State) returns (t: State)
    requires Reachable(c, s) && s.call == PuttingManifest(0) && !s.past.completed
    ensures Reachable(c, t) && Bereft(t) && t.past.accepted == s.past.accepted
  {
    ReachableInv(c, s);
    var puts := LoseAnswers(c, s);
    var u := After(c, s, puts);
    ReachableOn(c, s, puts);
    ReachableInv(c, u);
    var deletes := DeleteAll(c, u);
    var v := After(c, u, deletes);
    ReachableOn(c, u, deletes);
    assert v.cloud.store == map[];
    assert Runs(c, Step(c, v, EndAbort), []);
    RunsFirst(c, v, EndAbort, []);
    ReachableOn(c, v, [EndAbort] + []);
    t := Step(c, v, EndAbort);
  }

  /** A Close can return an error, delete every part and leave the manifest behind: for every stream
      with a byte in it, without the failure of any part. */
  lemma FailedCloseCanLeaveManifest(c: Config, writes: seq<seq<byte>>)
    requires Flatten(writes) != []
    ensures exists s :: Reachable(c, s) && Bereft(s) && s.past.accepted == writes
  {
    var open := WriteAll(c, writes);
    ReachableInv(c, open);
    var a := CallClose(true);
    StepKeepsInv(c, open, a);
    SomePartsIffSomeBytes(c.partSize, writes);
    ClosingHasParts(c, open);
    var actions := RunToManifest(c, Step(c, open, a));
    RunsFirst(c, open, a, actions);
    ReachableOn(c, open, [a] + actions);
    var s := AbortLeavesManifest(c, After(c, Step(c, open, a), actions));
  }

  lemma ClosingHasParts(c: Config, s: State)
    requires Smooth(c, s) && Inv(c, s) && Inv(c, Step(c, s, CallClose(true)))
    requires Finish(AcceptAll(Start(c.partSize), s.past.accepted)).parts != []
    ensures BeforeManifest(Step(c, s, CallClose(true))) && !Step(c, s, CallClose(true)).call.PuttingManifest?
    ensures Step(c, s, CallClose(true)).past.accepted == s.past.accepted
  {
  }

  /** An upload that a Close reported as done, and on which nothing was called since. */
  ghost predicate Finished(c: Config, s: State) {
    Reachable(c, s) && s.past.completed && !s.past.aborted && s.call.Idle? && NoCollision(c, s)
  }

  lemma FinishedParts(c: Config, s: State)
    requires Finished(c, s)
    ensures s.past.cut.parts == Finish(AcceptAll(Start(c.partSize), s.past.accepted)).parts
    ensures |s.past.cut.parts| == s.lo.part >= 1
  {
    CompletedUpload(c, s);
    ReachableInv(c, s);
  }

  /** The writes of some finished upload are those with a byte in them, whatever the ETag function. */
  lemma EveryStreamCanComplete(c: Config, writes: seq<seq<byte>>)
    ensures (exists s :: Finished(c, s) && s.past.accepted == writes) <==> Flatten(writes) != []
  {
    SomePartsIffSomeBytes(c.partSize, writes);
    if s :| Finished(c, s) && s.past.accepted == writes {
      FinishedParts(c, s);
    }
    if Flatten(writes) != [] {
      var open := WriteAll(c, writes);
      var s := CloseAll(c, open);
      assert Finished(c, s);
    }
  }

  // ----- the number of segments decides

  function FullWrite(b0: nat, k: nat): seq<byte>
    requires k >= 1
  {
    seq(Threshold(b0, k), _ => if k == 10 then 1 else 0)
  }

  /** Writes that each fill one segment exactly; the tenth differs from the others in every byte. */
  function FullWrites(b0: nat, n: nat): seq<seq<byte>> {
    seq(n, k requires 0 <= k => FullWrite(b0, k + 1))
  }

  lemma FullWritesLast(b0: nat, n: nat)
    requires n >= 1
    ensures var writes := FullWrites(b0, n);
            && writes[..n - 1] == FullWrites(b0, n - 1) && writes == FullWrites(b0, n - 1) + [writes[n - 1]]
            && writes[n - 1] == FullWrite(b0, n)
  {
    var writes := FullWrites(b0, n);
    assert writes == writes[..n - 1] + [writes[n - 1]];
  }

  lemma AcceptFull(c: Cutter, b: seq<byte>)
    requires c.pending == [] && |b| == c.bufsz
    ensures Accept(c, b).pending == [] && Accept(c, b).bufsz == Grow(c.bufsz, |c.parts| + 1)
    ensures Datas(Accept(c, b).parts) == Datas(c.parts) + [b]
  {
    assert c.pending + b == b;
  }

  lemma {:induction false} FullWritesFill(partSize: int, n: nat)
    ensures var c := AcceptAll(Start(partSize), FullWrites(StartSize(partSize), n));
            && Datas(c.parts) == FullWrites(StartSize(partSize), n)
            && |c.parts| == n && c.pending == [] && c.bufsz == Threshold(StartSize(partSize), n + 1)
  {
    var b0 := StartSize(partSize);
    var writes := FullWrites(b0, n);
    if n > 0 {
      FullWritesFill(partSize, n - 1);
      ThresholdGrows(b0, n);
      FullWritesLast(b0, n);
      AcceptFull(AcceptAll(Start(partSize), FullWrites(b0, n - 1)), FullWrite(b0, n));
      AcceptAllSnoc(Start(partSize), FullWrites(b0, n - 1), FullWrite(b0, n));
    }
  }

  /** A finished upload of any number of segments, each of one write. */
  lemma UploadOf(c: Config, n: nat) returns (s: State)
    requires n >= 1
    ensures Finished(c, s) && s.lo.part == n && Datas(s.past.cut.parts) == FullWrites(StartSize(c.partSize), n)
  {
    var writes := FullWrites(StartSize(c.partSize), n);
    FullWritesFill(c.partSize, n);
    SomePartsIffSomeBytes(c.partSize, writes);
    EveryStreamCanComplete(c, writes);
    s :| Finished(c, s) && s.past.accepted == writes;
    FinishedParts(c, s);
  }

  function ServedBytes(container: map<string, seq<byte>>, names: seq<string>): seq<byte>
    requires forall x :: x in names ==> x in container
  {
    Flatten(seq(|names|, i requires 0 <= i < |names| => container[names[i]]))
  }

  /** `names` is what the manifest of upload s covers in this container, and it covers nothing else. */
  ghost predicate Serves(container: map<string, seq<byte>>, names: seq<string>, s: State,
                         objectName: string, timestamp: string)
  {
    && SegmentNames.Alone(container, objectName, timestamp, s.cloud.store)
    && SegmentNames.Covers(container, objectName, timestamp, names)
  }

  /** What the manifest serves is the download in the order of some listing by name. */
  lemma ServesListing(c: Config, s: State, container: map<string, seq<byte>>, names: seq<string>,
                      objectName: string, timestamp: string) returns (listing: seq<nat>)
    requires Finished(c, s) && Serves(container, names, s, objectName, timestamp)
    ensures SegmentNames.SortedListing(objectName, timestamp, s.lo.part, listing)
    ensures forall k :: k in listing ==> k in s.cloud.store
    ensures ServedBytes(container, names) == Download(s.cloud.store, listing)
  {
    CompletedUpload(c, s);
    forall k | 1 <= k <= s.lo.part ensures k in s.cloud.store {
      assert Stored(c, s, k);
    }
    forall x
      ensures x in names <==> exists k :: 1 <= k <= s.lo.part && x == SegmentNames.Name(objectName, timestamp, k)
    {
      CoveredNames(s, container, names, objectName, timestamp, x);
    }
    listing := SegmentNames.NumbersOf(objectName, timestamp, s.lo.part, names);
    forall i | 0 <= i < |names| ensures container[names[i]] == Objects(s.cloud.store, listing)[i] {
      assert listing[i] in listing;
    }
    assert seq(|names|, i requires 0 <= i < |names| => container[names[i]]) == Objects(s.cloud.store, listing);
  }

  lemma CoveredNames(s: State, container: map<string, seq<byte>>, names: seq<string>,
                     objectName: string, timestamp: string, x: string)
    requires Serves(container, names, s, objectName, timestamp)
    requires forall k :: k in s.cloud.store <==> 1 <= k <= s.lo.part
    ensures x in names <==> exists k :: 1 <= k <= s.lo.part && x == SegmentNames.Name(objectName, timestamp, k)
  {
    if k :| 1 <= k <= s.lo.part && x == SegmentNames.Name(objectName, timestamp, k) {
      assert k in s.cloud.store;
      assert x[..|objectName| + 1 + |timestamp|] == objectName + "/" + timestamp;
    }
  }

  lemma ContainerOf(store: map<nat, seq<byte>>, objectName: string, timestamp: string)
    returns (container: map<string, seq<byte>>)
    ensures SegmentNames.Alone(container, objectName, timestamp, store)
    ensures forall x :: x in container <==> exists k :: k in store && x == SegmentNames.Name(objectName, timestamp, k)
  {
    forall j, k | j in store && k in store
               && SegmentNames.Name(objectName, timestamp, j) == SegmentNames.Name(objectName, timestamp, k)
      ensures j == k
    {
      SegmentNames.NameInjective(objectName, timestamp, j, k);
    }
    container := map k | k in store :: SegmentNames.Name(objectName, timestamp, k) := store[k];
  }

  /** There is a container that holds just this upload. */
  lemma SomeContainer(c: Config, s: State, objectName: string, timestamp: string)
    returns (container: map<string, seq<byte>>, names: seq<string>)
    requires Finished(c, s)
    ensures Serves(container, names, s, objectName, timestamp)
  {
    var store := s.cloud.store;
    CompletedUpload(c, s);
    forall k | 1 <= k <= s.lo.part ensures k in store {
      assert Stored(c, s, k);
    }
    container := ContainerOf(store, objectName, timestamp);
    var listing := SegmentNames.SortedListingExists(objectName, timestamp, s.lo.part);
    names := NamesOf(listing, objectName, timestamp);
    forall x
      ensures x in names <==> x in container && HasPrefix(x, SegmentNames.ManifestPrefix(objectName, timestamp))
    {
      ListedNames(store, s.lo.part, listing, objectName, timestamp, x);
    }
    assert forall i, j :: 0 <= i < j < |names| ==> Decimal.Before(names[i], names[j]);
  }

  function NamesOf(listing: seq<nat>, objectName: string, timestamp: string): (names: seq<string>)
    ensures |names| == |listing|
    ensures forall i :: 0 <= i < |names| ==> names[i] == SegmentNames.Name(objectName, timestamp, listing[i])
  {
    seq(|listing|, i requires 0 <= i < |listing| => SegmentNames.Name(objectName, timestamp, listing[i]))
  }

  lemma ListedNames(store: map<nat, seq<byte>>, n: nat, listing: seq<nat>,
                    objectName: string, timestamp: string, x: string)
    requires SegmentNames.SortedListing(objectName, timestamp, n, listing)
    requires forall k :: k in store <==> 1 <= k <= n
    ensures x in NamesOf(listing, objectName, timestamp)
       <==> exists k :: k in store && x == SegmentNames.Name(objectName, timestamp, k)
    ensures (exists k :: k in store && x == SegmentNames.Name(objectName, timestamp, k)) ==>
              HasPrefix(x, SegmentNames.ManifestPrefix(objectName, timestamp))
  {
    if k :| k in store && x == SegmentNames.Name(objectName, timestamp, k) {
      assert k in listing;
      var i :| 0 <= i < |listing| && listing[i] == k;
      assert NamesOf(listing, objectName, timestamp)[i] == x;
      assert x[..|objectName| + 1 + |timestamp|] == objectName + "/" + timestamp;
    }
    if x in NamesOf(listing, objectName, timestamp) {
      var i :| 0 <= i < |listing| && NamesOf(listing, objectName, timestamp)[i] == x;
      assert listing[i] in listing;
    }
  }

  /** In whatever container the upload is alone, its manifest serves what was written. */
  ghost predicate ComesBack(s: State, objectName: string, timestamp: string) {
    forall container, names :: Serves(container, names, s, objectName, timestamp) ==>
      ServedBytes(container, names) == Flatten(s.past.accepted)
  }

  /** In whatever container the upload is alone, its manifest serves something else. */
  ghost predicate ComesBackWrong(s: State, objectName: string, timestamp: string) {
    forall container, names :: Serves(container, names, s, objectName, timestamp) ==>
      ServedBytes(container, names) != Flatten(s.past.accepted)
  }

  /** From ten segments on there are streams, for every configuration and name of the upload, that come
      back wrong: ones in which the second and the tenth segment begin differently. */
  lemma SomeStreamComesBackWrong(c: Config, objectName: string, timestamp: string, n: nat)
    requires n >= 10
    ensures exists s :: Finished(c, s) && s.lo.part == n && ComesBackWrong(s, objectName, timestamp)
  {
    var s := UploadOf(c, n);
    FinishedParts(c, s);
    SecondAndTenthDiffer(s, StartSize(c.partSize));
    forall container, names | Serves(container, names, s, objectName, timestamp)
      ensures ServedBytes(container, names) != Flatten(s.past.accepted)
    {
      var listing := ServesListing(c, s, container, names, objectName, timestamp);
      DownloadStartsWithTenth(c, s, objectName, timestamp, listing);
    }
  }

  lemma SecondAndTenthDiffer(s: State, b0: nat)
    requires b0 >= 1 && |s.past.cut.parts| >= 10
    requires Datas(s.past.cut.parts) == FullWrites(b0, |s.past.cut.parts|)
    ensures !(Data(s, 10) <= Data(s, 2)) && !(Data(s, 2) <= Data(s, 10))
  {
    ThresholdPositive(b0, 2);
    ThresholdPositive(b0, 10);
    assert Data(s, 2) == Datas(s.past.cut.parts)[1] == FullWrite(b0, 2);
    assert Data(s, 10) == Datas(s.past.cut.parts)[9] == FullWrite(b0, 10);
    assert Data(s, 2)[0] == 0 && Data(s, 10)[0] == 1;
  }

  /** Uploads of n segments are possible, each can be served, and all of them come back as they were
      written if and only if there are at most nine. */
  lemma ComesBackIffNine(c: Config, objectName: string, timestamp: string, n: nat)
    requires n >= 1
    ensures exists s, container, names :: Finished(c, s) && s.lo.part == n
                                          && Serves(container, names, s, objectName, timestamp)
    ensures (forall s :: Finished(c, s) && s.lo.part == n ==> ComesBack(s, objectName, timestamp)) <==> n <= 9
  {
    var some := UploadOf(c, n);
    var container, names := SomeContainer(c, some, objectName, timestamp);
    if n <= 9 {
      forall s | Finished(c, s) && s.lo.part == n ensures ComesBack(s, objectName, timestamp) {
        FewComeBack(c, s, objectName, timestamp);
      }
    } else {
      SomeStreamComesBackWrong(c, objectName, timestamp, n);
      var s :| Finished(c, s) && s.lo.part == n && ComesBackWrong(s, objectName, timestamp);
      container, names := SomeContainer(c, s, objectName, timestamp);
      assert !ComesBack(s, objectName, timestamp);
    }
  }

  lemma FewComeBack(c: Config, s: State, objectName: string, timestamp: string)
    requires Finished(c, s) && s.lo.part <= 9
    ensures ComesBack(s, objectName, timestamp)
  {
    forall container, names | Serves(container, names, s, objectName, timestamp)
      ensures ServedBytes(container, names) == Flatten(s.past.accepted)
    {
      var listing := ServesListing(c, s, container, names, objectName, timestamp);
      ListedRoundTrip(c, s, objectName, timestamp, listing);
    }
  }
}
