/** The uploader never gets stuck: while a call is in progress or a worker holds a part some goroutine
    can go on, and there are only so many steps before every call has returned. */
module UploaderProgress {
  import opened Uploader
  import opened UploaderInvariant

  /** Steps that work off a call; the rest are new calls, the clock and the pool's timer. */
  predicate Working(a: Action) {
    !IsCall(a) && !a.Tick? && !a.SweepPool?
  }

  ghost predicate AtRest(s: State) {
    s.call.Idle? && forall w :: 0 <= w < |s.workers| ==> !Busy(s.workers[w])
  }

  // ----- no deadlock

  lemma WorkerCanGoOn(s: State, w: nat) returns (a: Action)
    requires Phases(s) && Counters(s) && w < |s.workers| && Busy(s.workers[w])
    ensures Working(a) && Served(a) && Enabled(s, a)
  {
    BusyMeansOpen(s, w);
    a := if s.workers[w].Putting? then PutPart(w, Intact(true)) else GiveBuffer(w);
  }

  lemma WriterCanGoOn(c: Config, s: State) returns (a: Action)
    requires Phases(s) && Counters(s) && WorkerStates(c, s) && !s.call.Idle?
    requires forall w :: 0 <= w < |s.workers| ==> !Busy(s.workers[w])
    ensures Working(a) && Served(a) && Enabled(s, a)
  {
    NoneBusy(s.workers);
    match s.call
    case Getting(_) => a := GetBuffer;
    case Sending(_, _) => a := SendPart(0);
    case Waiting => a := WaitDone;
    case Quitting => a := QuitPool(false);
    case PuttingManifest(_) => a := PutManifest(true, true, false);
    case Aborting(todo) =>
      if k :| k in todo {
        a := DeleteSegment(k, true);
      } else {
        a := EndAbort;
      }
  }

  lemma CanGoOn(c: Config, s: State) returns (a: Action)
    requires Inv(c, s) && !AtRest(s)
    ensures Working(a) && Served(a) && Enabled(s, a)
  {
    if w :| 0 <= w < |s.workers| && Busy(s.workers[w]) {
      a := WorkerCanGoOn(s, w);
    } else {
      a := WriterCanGoOn(c, s);
    }
  }

  /** No reachable state leaves the writer, a worker or Close stuck. */
  lemma NeverStuck(c: Config, s: State)
    requires Reachable(c, s) && !AtRest(s)
    ensures exists a :: Working(a) && Enabled(s, a)
  {
    ReachableInv(c, s);
    var a := CanGoOn(c, s);
  }

  /** When the pool is told to quit nobody is waiting for it, and nobody ever will be. */
  lemma QuitLeavesNobodyWaiting(c: Config, s: State)
    requires Reachable(c, s) && (s.call.Quitting? || !s.pool.running)
    ensures !s.call.Getting? && forall w :: 0 <= w < |s.workers| ==> !Busy(s.workers[w])
  {
    ReachableInv(c, s);
    forall w | 0 <= w < |s.workers| ensures !Busy(s.workers[w]) {
      CountsWorker(s.workers, w, IsBusy);
    }
  }

  // ----- termination

  /** Steps a worker may still take, attempts being counted down. */
  function Effort(w: Worker): nat {
    match w
    case Exited => 0
    case Ready => 1
    case Giving(_) => 2
    case Putting(_, attempt) => 3 + (if attempt < ATTEMPTS then ATTEMPTS - attempt else 0)
  }

  function TotalEffort(ws: seq<Worker>): nat {
    if ws == [] then 0 else Effort(ws[0]) + TotalEffort(ws[1..])
  }

  lemma {:induction false} ReplaceEffort(ws: seq<Worker>, i: nat, w: Worker)
    requires i < |ws|
    ensures TotalEffort(ws[i := w]) + Effort(ws[i]) == TotalEffort(ws) + Effort(w)
  {
    if i == 0 {
      assert ws[0 := w][1..] == ws[1..];
    } else {
      ReplaceEffort(ws[1..], i - 1, w);
      assert ws[i := w][1..] == ws[1..][i - 1 := w];
    }
  }

  /** Steps the call in progress may still take, each part counting for its deletion. */
  function CallEffort(call: Call, part: nat): nat {
    match call
    case Idle => 0
    case Aborting(todo) => |todo| + 1
    case PuttingManifest(tries) => part + 2 + (if tries < ATTEMPTS then ATTEMPTS - tries else 0)
    case Quitting => part + 6
    case Waiting => part + 7
    case Sending(_, closing) => if closing then part + 14 else 7
    case Getting(_) => 8
  }

  function Remaining(s: State): nat {
    TotalEffort(s.workers) + CallEffort(s.call, s.lo.part)
  }

  lemma {:induction false} FewNumbers(todo: set<nat>, n: nat)
    requires forall k :: k in todo ==> 1 <= k <= n
    ensures |todo| <= n
  {
    if n == 0 {
      assert todo == {};
    } else {
      FewNumbers(todo - {n}, n - 1);
      assert |todo| <= |todo - {n}| + 1;
    }
  }

  lemma CallWorks(c: Config, s: State, a: Action)
    requires StoreState(c, s) && Phases(s) && Enabled(s, a)
    requires a.WaitDone? || a.QuitPool? || a.PutManifest? || a.DeleteSegment? || a.EndAbort?
    ensures CallEffort(Step(c, s, a).call, Step(c, s, a).lo.part) < CallEffort(s.call, s.lo.part)
    ensures Step(c, s, a).workers == s.workers
  {
    FewNumbers(s.cloud.store.Keys, s.lo.part);
    LocalShape(c, s, a);
    if a.DeleteSegment? {
      assert |s.call.todo - {a.k}| < |s.call.todo|;
    }
  }

  lemma PutWorks(c: Config, s: State, w: nat, delivery: Delivery)
    requires w < |s.workers| && s.workers[w].Putting? && s.workers[w].attempt < ATTEMPTS
    ensures Remaining(Put(c, s, w, delivery)) < Remaining(s)
  {
    var x := PutShape(c, s, w, delivery);
    ReplaceEffort(s.workers, w, x);
  }

  lemma HandoverWorks(c: Config, s: State, a: Action)
    requires Enabled(s, a) && (a.GetBuffer? || a.SendPart? || a.GiveBuffer? || a.ExitWorker?)
    ensures Remaining(Step(c, s, a)) < Remaining(s)
  {
    match a
    case SendPart(w) => ReplaceEffort(s.workers, w, Putting(s.call.part, 0));
    case GiveBuffer(w) => ReplaceEffort(s.workers, w, Ready);
    case ExitWorker(w) => ReplaceEffort(s.workers, w, Exited);
    case GetBuffer =>
  }

  lemma WorkReduces(c: Config, s: State, a: Action)
    requires Inv(c, s) && Enabled(s, a) && Working(a)
    ensures Remaining(Step(c, s, a)) < Remaining(s)
  {
    if a.PutPart? {
      PutWorks(c, s, a.w, a.delivery);
    } else if a.GetBuffer? || a.SendPart? || a.GiveBuffer? || a.ExitWorker? {
      HandoverWorks(c, s, a);
    } else {
      CallWorks(c, s, a);
    }
  }

  function WorkCount(actions: seq<Action>): nat {
    if actions == [] then 0 else (if Working(actions[0]) then 1 else 0) + WorkCount(actions[1..])
  }

  lemma PauseKeepsRemaining(c: Config, s: State, a: Action)
    requires Enabled(s, a) && (a.Tick? || a.SweepPool?)
    ensures Remaining(Step(c, s, a)) == Remaining(s)
  {
  }

  /** Until the next call a run makes a bounded number of working steps, however often the clock
      and the pool's timer come between them; so every call returns if its steps are taken. */
  lemma {:induction false} WorkIsBounded(c: Config, s: State, actions: seq<Action>)
    requires Inv(c, s) && Runs(c, s, actions)
    requires forall i :: 0 <= i < |actions| ==> !IsCall(actions[i])
    ensures WorkCount(actions) + Remaining(After(c, s, actions)) <= Remaining(s)
    decreases |actions|
  {
    if actions != [] {
      var a := actions[0];
      StepKeepsInv(c, s, a);
      if Working(a) {
        WorkReduces(c, s, a);
      } else {
        PauseKeepsRemaining(c, s, a);
      }
      WorkIsBounded(c, Step(c, s, a), actions[1..]);
    }
  }

  ghost predicate AllWorking(actions: seq<Action>) {
    forall i :: 0 <= i < |actions| ==> Working(actions[i])
  }

  ghost predicate AllServed(actions: seq<Action>) {
    forall i :: 0 <= i < |actions| ==> Served(actions[i])
  }

  lemma WorkOn(c: Config, s: State) returns (a: Action)
    requires Inv(c, s) && !AtRest(s)
    ensures Working(a) && Served(a) && Enabled(s, a)
    ensures Inv(c, Step(c, s, a)) && Remaining(Step(c, s, a)) < Remaining(s)
  {
    a := CanGoOn(c, s);
    WorkReduces(c, s, a);
    StepKeepsInv(c, s, a);
  }

  lemma {:induction false} RunToRest(c: Config, s: State) returns (actions: seq<Action>)
    requires Inv(c, s)
    ensures Runs(c, s, actions) && AtRest(After(c, s, actions))
    ensures AllWorking(actions) && AllServed(actions)
    decreases Remaining(s)
  {
    if AtRest(s) {
      actions := [];
    } else {
      var a := WorkOn(c, s);
      var rest := RunToRest(c, Step(c, s, a));
      actions := [a] + rest;
      RunsFirst(c, s, a, rest);
    }
  }

  /** From every reachable state there is a run to rest; it needs no new call and no failing request. */
  lemma CanFinish(c: Config, s: State)
    requires Reachable(c, s)
    ensures exists actions :: AllWorking(actions) && AllServed(actions)
                              && Runs(c, s, actions) && AtRest(After(c, s, actions))
  {
    ReachableInv(c, s);
    var actions := RunToRest(c, s);
  }

  ghost predicate AllExited(s: State) {
    forall w :: 0 <= w < |s.workers| ==> s.workers[w].Exited?
  }

  lemma {:induction false} RunToExit(c: Config, s: State) returns (actions: seq<Action>)
    requires Inv(c, s) && s.lo.closed
    ensures Runs(c, s, actions) && AllExited(After(c, s, actions)) && AllWorking(actions)
    decreases Remaining(s)
  {
    if w :| 0 <= w < |s.workers| && !s.workers[w].Exited? {
      CountsWorker(s.workers, w, IsBusy);
      var a := ExitWorker(w);
      WorkReduces(c, s, a);
      StepKeepsInv(c, s, a);
      var rest := RunToExit(c, Step(c, s, a));
      actions := [a] + rest;
      RunsFirst(c, s, a, rest);
    } else {
      actions := [];
    }
  }

  /** Once Close has closed the channel every worker can end. */
  lemma WorkersCanExit(c: Config, s: State)
    requires Reachable(c, s) && s.lo.closed
    ensures exists actions :: AllWorking(actions) && Runs(c, s, actions) && AllExited(After(c, s, actions))
  {
    ReachableInv(c, s);
    var actions := RunToExit(c, s);
  }
}
