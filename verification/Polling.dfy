/** The loops that poll the cloud until a deadline (client.go). Times are in nanoseconds; what each
    request takes and returns is given by a script, and a sleep lasts as long as it is asked to. */
module Polling {
  import opened Common

  const SECOND: nat := 1_000_000_000

  /** What one poll means to the loop; `Busy` is an error after which the loop polls again at once,
      `Fatal` one that ends it, whose text may contain the loop's own message for a time-out. */
  datatype Seen = Done | Fatal(quotesTimeOut: bool) | Again | Busy

  datatype Poll = Poll(took: nat, seen: Seen)

  datatype Outcome = Succeeded | Failed(quotesTimeOut: bool) | TimedOut | OutOfScript

  /** How a wait ended, when each of its polls started, and when it ended. */
  datatype Trace = Trace(outcome: Outcome, starts: seq<int>, end: int)

  /** The sleep before the next poll: the lesser of `cap` and the time left, read as seconds,
      although the time left counts nanoseconds. */
  function Sleep(left: nat, cap: nat): nat {
    Min(cap, left) * SECOND
  }

  function Wait(now: int, until: int, cap: nat, script: seq<Poll>): Trace
    decreases |script|
  {
    if script == [] then Trace(OutOfScript, [], now)
    else
      var t := now + script[0].took;
      match script[0].seen
      case Done => Trace(Succeeded, [now], t)
      case Fatal(quotes) => Trace(Failed(quotes), [now], t)
      case Busy =>
        var rest := Wait(t, until, cap, script[1..]);
        Trace(rest.outcome, [now] + rest.starts, rest.end)
      case Again =>
        if t > until then Trace(TimedOut, [now], t)
        else
          var rest := Wait(t + Sleep(until - t, cap), until, cap, script[1..]);
          Trace(rest.outcome, [now] + rest.starts, rest.end)
  }

  /** What is left of a wait is the wait for what is left. */
  ghost predicate Resumes(w: Trace, before: seq<int>, rest: Trace, starts: seq<int>) {
    w.outcome == rest.outcome && w.end == rest.end && before + w.starts == starts + rest.starts
  }

  /** One more poll, started now. */
  lemma ResumesAfterPoll(w: Trace, before: seq<int>, now: int, rest: Trace, starts: seq<int>)
    requires Resumes(w, before, Trace(rest.outcome, [now] + rest.starts, rest.end), starts)
    ensures Resumes(w, before, rest, starts + [now])
  {
  }

  lemma WaitAt(now: int, until: int, cap: nat, script: seq<Poll>, i: nat)
    requires i < |script|
    ensures Wait(now, until, cap, script[i..]) ==
            var t := now + script[i].took;
            match script[i].seen
            case Done => Trace(Succeeded, [now], t)
            case Fatal(quotes) => Trace(Failed(quotes), [now], t)
            case Busy =>
              var rest := Wait(t, until, cap, script[i + 1..]);
              Trace(rest.outcome, [now] + rest.starts, rest.end)
            case Again =>
              if t > until then Trace(TimedOut, [now], t)
              else
                var rest := Wait(t + Sleep(until - t, cap), until, cap, script[i + 1..]);
                Trace(rest.outcome, [now] + rest.starts, rest.end)
  {
    assert script[i..][1..] == script[i + 1..];
  }

  class Clock {
    var now: int
    var starts: seq<int>

    constructor (now: int)
      ensures this.now == now && starts == []
    {
      this.now, starts := now, [];
    }

    method Pass(d: nat)
      modifies `now
      ensures now == old(now) + d
    {
      now := now + d;
    }
  }

  // ----- the instance loop

  /** GetInstance's answer. */
  datatype Answer =
    | Error(quotesTimeOut: bool)
    | NotFound
    | Guest(provisioned: bool, activeTransaction: Option<int>, lastReload: Option<int>, powerState: string)

  datatype Request = Request(took: nat, answer: Answer)

  predicate Reloading(a: Answer)
    requires a.Guest?
  {
    a.activeTransaction.Some? && a.lastReload.Some? && a.activeTransaction.value == a.lastReload.value
  }

  predicate IsReady(a: Answer) {
    a.Guest? && a.provisioned && !Reloading(a) && a.powerState == "RUNNING"
  }

  function Read(a: Answer): Seen {
    match a
    case Error(quotes) => Fatal(quotes)
    case NotFound => Fatal(false)
    case Guest(_, _, _, _) => if IsReady(a) then Done else Again
  }

  function Script(requests: seq<Request>): (script: seq<Poll>)
    ensures |script| == |requests|
    ensures forall i :: 0 <= i < |script| ==> script[i] == Poll(requests[i].took, Read(requests[i].answer))
  {
    seq(|requests|, i requires 0 <= i < |requests| => Poll(requests[i].took, Read(requests[i].answer)))
  }

  const INSTANCE_CAP: nat := 10

  method WaitInstanceUntilReady(clock: Clock, requests: seq<Request>, until: int) returns (r: Outcome)
    modifies clock
    ensures var w := Wait(old(clock.now), until, INSTANCE_CAP, Script(requests));
            r == w.outcome && clock.now == w.end && clock.starts == old(clock.starts) + w.starts
  {
    ghost var script := Script(requests);
    ghost var w := Wait(clock.now, until, INSTANCE_CAP, script);
    for i := 0 to |requests|
      invariant Resumes(w, old(clock.starts), Wait(clock.now, until, INSTANCE_CAP, script[i..]), clock.starts)
    {
      var q := requests[i];
      ghost var start, starts := clock.now, clock.starts;
      WaitAt(start, until, INSTANCE_CAP, script, i);
      clock.starts := clock.starts + [clock.now];
      clock.Pass(q.took);
      if q.answer.Error? {
        return Failed(q.answer.quotesTimeOut);
      }
      if q.answer.NotFound? {
        return Failed(false);
      }
      var reloading := q.answer.activeTransaction.Some? && q.answer.lastReload.Some?
                       && q.answer.activeTransaction.value == q.answer.lastReload.value;
      if q.answer.provisioned && !reloading {
        if q.answer.powerState == "RUNNING" {
          return Succeeded;
        }
      }
      if clock.now > until {
        return TimedOut;
      }
      clock.Pass(Min(INSTANCE_CAP, until - clock.now) * SECOND);
      ResumesAfterPoll(w, old(clock.starts), start, Wait(clock.now, until, INSTANCE_CAP, script[i + 1..]), starts);
    }
    assert clock.starts + [] == clock.starts;
    return OutOfScript;
  }

  // ----- the authorisation loops

  datatype Reply = Granted | Refused | Blocked | Rejected

  datatype Attempt = Attempt(took: nat, reply: Reply)

  function ReadReply(r: Reply): Seen {
    match r
    case Granted => Done
    case Refused => Again
    case Blocked => Busy
    case Rejected => Fatal(false)
  }

  function ReplyScript(attempts: seq<Attempt>): (script: seq<Poll>)
    ensures |script| == |attempts|
    ensures forall i :: 0 <= i < |script| ==> script[i] == Poll(attempts[i].took, ReadReply(attempts[i].reply))
  {
    seq(|attempts|, i requires 0 <= i < |attempts| => Poll(attempts[i].took, ReadReply(attempts[i].reply)))
  }

  const ACCESS_CAP: nat := 5

  /** The loop of AuthorizeHostToVolume and DeauthorizeHostToVolume. */
  method ChangeAccess(clock: Clock, attempts: seq<Attempt>, until: int) returns (r: Outcome)
    modifies clock
    ensures var w := Wait(old(clock.now), until, ACCESS_CAP, ReplyScript(attempts));
            r == w.outcome && clock.now == w.end && clock.starts == old(clock.starts) + w.starts
  {
    ghost var script := ReplyScript(attempts);
    ghost var w := Wait(clock.now, until, ACCESS_CAP, script);
    for i := 0 to |attempts|
      invariant Resumes(w, old(clock.starts), Wait(clock.now, until, ACCESS_CAP, script[i..]), clock.starts)
    {
      var a := attempts[i];
      ghost var start, starts := clock.now, clock.starts;
      WaitAt(start, until, ACCESS_CAP, script, i);
      clock.starts := clock.starts + [clock.now];
      clock.Pass(a.took);
      match a.reply {
        case Rejected => return Failed(false);
        case Granted => return Succeeded;
        case Blocked =>
        case Refused =>
          if clock.now > until {
            return TimedOut;
          }
          clock.Pass(Min(ACCESS_CAP, until - clock.now) * SECOND);
      }
      ResumesAfterPoll(w, old(clock.starts), start, Wait(clock.now, until, ACCESS_CAP, script[i + 1..]), starts);
    }
    assert clock.starts + [] == clock.starts;
    return OutOfScript;
  }

  // ----- what a wait guarantees

  ghost predicate NeverBusy(script: seq<Poll>) {
    forall i :: 0 <= i < |script| ==> !script[i].seen.Busy?
  }

  predicate StartsBy(starts: seq<int>, latest: int) {
    forall i :: 0 <= i < |starts| ==> starts[i] <= latest
  }

  /** Success means that the last poll saw the goal, and no poll before it did. */
  lemma {:induction false} SuccessWasSeen(now: int, until: int, cap: nat, script: seq<Poll>)
    ensures var w := Wait(now, until, cap, script);
            && |w.starts| <= |script|
            && (w.outcome.Succeeded? ==> |w.starts| >= 1 && script[|w.starts| - 1].seen.Done?)
            && (forall i :: 0 <= i < |w.starts| - 1 ==> !script[i].seen.Done? && !script[i].seen.Fatal?)
    decreases |script|
  {
    if script != [] {
      var t := now + script[0].took;
      if script[0].seen.Busy? {
        SuccessWasSeen(t, until, cap, script[1..]);
      } else if script[0].seen.Again? && t <= until {
        SuccessWasSeen(t + Sleep(until - t, cap), until, cap, script[1..]);
      }
    }
  }

  lemma SleepBound(left: nat, cap: nat)
    ensures 0 <= Sleep(left, cap) <= cap * SECOND
  {
  }

  /** The polls that fit into a budget when each is followed by a full sleep, and one more. */
  function MostPolls(budget: int, period: nat): nat
    requires period >= 1
    decreases if budget <= 0 then 0 else budget
  {
    if budget <= 0 then 1 else 1 + MostPolls(budget - period, period)
  }

  lemma {:induction false} MostPollsMonotone(a: int, b: int, period: nat)
    requires period >= 1 && a <= b
    ensures MostPolls(a, period) <= MostPolls(b, period)
    decreases if b <= 0 then 0 else b
  {
    if b > 0 {
      MostPollsMonotone(a - period, b - period, period);
    }
  }

  lemma MostPollsStep(budget: int, left: nat, cap: nat)
    requires cap >= 1 && left < budget
    ensures 1 + MostPolls(left - Sleep(left, cap), cap * SECOND) <= MostPolls(budget, cap * SECOND)
  {
    MostPollsMonotone(left - cap * SECOND, budget - cap * SECOND, cap * SECOND);
  }

  lemma {:induction false} MostPollsOfTen(budget: nat)
    ensures MostPolls(budget, 10 * SECOND) <= budget / (10 * SECOND) + 2
  {
    if budget > 10 * SECOND {
      MostPollsOfTen(budget - 10 * SECOND);
    }
  }

  /** With polls that take time, a budget bounds their number. */
  lemma {:induction false} PollBound(now: int, until: int, cap: nat, script: seq<Poll>)
    requires cap >= 1 && NeverBusy(script) && forall i :: 0 <= i < |script| ==> script[i].took >= 1
    ensures |Wait(now, until, cap, script).starts| <= MostPolls(until - now, cap * SECOND)
    decreases |script|
  {
    if script != [] {
      var t := now + script[0].took;
      if script[0].seen.Again? && t <= until {
        MostPollsStep(until - now, until - t, cap);
        PollBound(t + Sleep(until - t, cap), until, cap, script[1..]);
      }
    }
  }

  lemma {:induction false} OutOfScriptUsesAll(now: int, until: int, cap: nat, script: seq<Poll>)
    ensures var w := Wait(now, until, cap, script);
            w.outcome.OutOfScript? ==> |w.starts| == |script|
    decreases |script|
  {
    if script != [] {
      var t := now + script[0].took;
      if script[0].seen.Busy? {
        OutOfScriptUsesAll(t, until, cap, script[1..]);
      } else if script[0].seen.Again? && t <= until {
        OutOfScriptUsesAll(t + Sleep(until - t, cap), until, cap, script[1..]);
      }
    }
  }

  /** A guest that is provisioned and running, and not in the transaction of its last reload. */
  ghost predicate Up(a: Answer) {
    && a.Guest? && a.provisioned && a.powerState == "RUNNING"
    && (a.activeTransaction.Some? && a.lastReload.Some? ==> a.activeTransaction.value != a.lastReload.value)
  }

  /** WaitInstanceUntilReady on any sequence of requests that take time: it makes at most
      floor(D / 10 s) + 2 polls, none of them later than 10 s after the deadline. */
  lemma InstanceWait(now: int, until: int, requests: seq<Request>)
    requires now <= until && forall i :: 0 <= i < |requests| ==> requests[i].took >= 1
    ensures var w := Wait(now, until, INSTANCE_CAP, Script(requests));
            && |w.starts| <= |requests| && |w.starts| <= (until - now) / 10_000_000_000 + 2
            && (forall i :: 0 <= i < |w.starts| ==> w.starts[i] <= until + 10_000_000_000)
            && (|requests| > (until - now) / 10_000_000_000 + 2 ==> !w.outcome.OutOfScript?)
  {
    var script := Script(requests);
    assert NeverBusy(script);
    PollBound(now, until, INSTANCE_CAP, script);
    NoLateStart(now, until, INSTANCE_CAP, script);
    SuccessWasSeen(now, until, INSTANCE_CAP, script);
    OutOfScriptUsesAll(now, until, INSTANCE_CAP, script);
    MostPollsOfTen(until - now);
  }

  /** What it made of the answers: all but the last were of a guest that was not up, and the last one
      decides. It is a success exactly if the guest was up, a failure exactly if there was no guest, and
      it times out only after the deadline. */
  lemma InstanceAnswers(now: int, until: int, requests: seq<Request>)
    requires now <= until && requests != []
    ensures var w := Wait(now, until, INSTANCE_CAP, Script(requests));
            var n := |w.starts|;
            && 1 <= n <= |requests|
            && (forall i :: 0 <= i < n - 1 ==> requests[i].answer.Guest? && !Up(requests[i].answer))
            && (w.outcome == Succeeded <==> Up(requests[n - 1].answer))
            && (w.outcome.Failed? <==> !requests[n - 1].answer.Guest?)
            && (w.outcome.Failed? ==> w.outcome.quotesTimeOut == (requests[n - 1].answer == Error(true)))
            && (w.outcome == TimedOut ==> w.end > until)
            && (w.outcome == OutOfScript ==> n == |requests|)
  {
    var script := Script(requests);
    LastDecides(now, until, INSTANCE_CAP, script);
    OutOfScriptUsesAll(now, until, INSTANCE_CAP, script);
    var w := Wait(now, until, INSTANCE_CAP, script);
    forall i | 0 <= i < |w.starts| - 1 ensures requests[i].answer.Guest? && !Up(requests[i].answer) {
      assert GoesOn(script[i].seen);
    }
  }

  /** The last poll made decides the outcome, and the ones before it let the wait go on. */
  lemma {:induction false} LastDecides(now: int, until: int, cap: nat, script: seq<Poll>)
    requires script != []
    ensures var w := Wait(now, until, cap, script);
            var n := |w.starts|;
            && 1 <= n <= |script|
            && (forall i :: 0 <= i < n - 1 ==> GoesOn(script[i].seen))
            && (w.outcome == Succeeded <==> script[n - 1].seen == Done)
            && (w.outcome.Failed? <==> script[n - 1].seen.Fatal?)
            && (w.outcome.Failed? ==> w.outcome.quotesTimeOut == script[n - 1].seen.quotesTimeOut)
            && (w.outcome == TimedOut ==> script[n - 1].seen == Again && w.end > until)
    decreases |script|
  {
    var t := now + script[0].took;
    var rest := script[1..];
    if rest != [] {
      if script[0].seen.Busy? {
        LastDecides(t, until, cap, rest);
      } else if script[0].seen.Again? && t <= until {
        LastDecides(t + Sleep(until - t, cap), until, cap, rest);
      }
    }
  }

  /** When the loop starts the poll after the i-th, which started at `start`. */
  function Next(start: int, until: int, cap: nat, p: Poll): int {
    var end := start + p.took;
    if p.seen.Busy? || end > until then end else end + Min(cap, until - end) * 1_000_000_000
  }

  lemma WaitUnfolds(now: int, until: int, cap: nat, script: seq<Poll>)
    requires |Wait(now, until, cap, script).starts| >= 2
    ensures script != [] && (script[0].seen.Busy? || script[0].seen.Again?)
    ensures Wait(now, until, cap, script).starts
         == [now] + Wait(Next(now, until, cap, script[0]), until, cap, script[1..]).starts
  {
  }

  /** A poll starts when the one before has ended, or as many seconds later as the lesser of the cap and
      the nanoseconds then left if that one asked for a pause. */
  lemma {:induction false} PollTimes(now: int, until: int, cap: nat, script: seq<Poll>, i: nat)
    requires i + 1 < |Wait(now, until, cap, script).starts|
    ensures i < |script| && (script[i].seen.Busy? || script[i].seen.Again?)
    ensures Wait(now, until, cap, script).starts[i + 1]
         == Next(Wait(now, until, cap, script).starts[i], until, cap, script[i])
    ensures script[i].seen.Again? ==> Wait(now, until, cap, script).starts[i] + script[i].took <= until
    ensures Wait(now, until, cap, script).starts[0] == now
    decreases i
  {
    WaitUnfolds(now, until, cap, script);
    var next := Next(now, until, cap, script[0]);
    if i == 0 {
      LastDecides(next, until, cap, script[1..]);
    } else {
      PollTimes(next, until, cap, script[1..], i - 1);
    }
  }

  /** The same for the authorisation loops: the last reply granted the access exactly if the loop
      succeeded and rejected it exactly if it failed; the ones before refused or blocked. */
  lemma AccessAnswers(now: int, until: int, attempts: seq<Attempt>)
    requires attempts != []
    ensures var w := Wait(now, until, ACCESS_CAP, ReplyScript(attempts));
            var n := |w.starts|;
            && 1 <= n <= |attempts|
            && (forall i :: 0 <= i < n - 1 ==> attempts[i].reply == Refused || attempts[i].reply == Blocked)
            && (w.outcome == Succeeded <==> attempts[n - 1].reply == Granted)
            && (w.outcome.Failed? <==> attempts[n - 1].reply == Rejected)
            && (w.outcome == TimedOut ==> attempts[n - 1].reply == Refused && w.end > until)
  {
    var script := ReplyScript(attempts);
    LastDecides(now, until, ACCESS_CAP, script);
    forall i | 0 <= i < |Wait(now, until, ACCESS_CAP, script).starts| - 1
      ensures attempts[i].reply == Refused || attempts[i].reply == Blocked
    {
      assert GoesOn(script[i].seen);
    }
  }

  /** The times of the instance loop: after every poll but the last, which ended by the deadline, it sleeps
      ten seconds, or as many as nanoseconds are left if that is less. */
  lemma InstanceTimes(now: int, until: int, requests: seq<Request>, i: nat)
    requires i + 1 < |Wait(now, until, INSTANCE_CAP, Script(requests)).starts|
    ensures i < |requests|
    ensures var starts := Wait(now, until, INSTANCE_CAP, Script(requests)).starts;
            var end := starts[i] + requests[i].took;
            && starts[0] == now && end <= until
            && starts[i + 1] == end + 1_000_000_000 * if until - end < 10 then until - end else 10
  {
    var script := Script(requests);
    PollTimes(now, until, INSTANCE_CAP, script, i);
    LastDecides(now, until, INSTANCE_CAP, script);
    assert script[i].seen.Again?;
  }

  /** The times of the authorisation loops: a refusal by the deadline is followed by a sleep of at most
      five seconds, a blocked reply at any time by the next attempt. */
  lemma AccessTimes(now: int, until: int, attempts: seq<Attempt>, i: nat)
    requires i + 1 < |Wait(now, until, ACCESS_CAP, ReplyScript(attempts)).starts|
    ensures i < |attempts|
    ensures var starts := Wait(now, until, ACCESS_CAP, ReplyScript(attempts)).starts;
            var end := starts[i] + attempts[i].took;
            && starts[0] == now
            && if attempts[i].reply == Blocked then starts[i + 1] == end
               else end <= until && starts[i + 1] == end + 1_000_000_000 * if until - end < 5 then until - end else 5
  {
    var script := ReplyScript(attempts);
    PollTimes(now, until, ACCESS_CAP, script, i);
    LastDecides(now, until, ACCESS_CAP, script);
  }

  // ----- the authorisation loops ignore the deadline while they are blocked

  predicate GoesOn(seen: Seen) {
    seen.Again? || seen.Busy?
  }

  /** Reply i blocks the loop, and another poll comes after it. */
  predicate BlocksAt(seens: seq<Seen>, i: nat) {
    && i + 1 < |seens| && seens[i].Busy?
    && forall j :: 0 <= j < i ==> GoesOn(seens[j])
  }

  predicate SameReplies(script: seq<Poll>, seens: seq<Seen>) {
    |script| == |seens| && forall i :: 0 <= i < |script| ==> script[i].seen == seens[i]
  }

  lemma StartsByFirst(first: int, starts: seq<int>, latest: int)
    ensures StartsBy([first] + starts, latest) <==> first <= latest && StartsBy(starts, latest)
  {
    var all := [first] + starts;
    assert all[0] == first && all[1..] == starts;
    forall i | 0 <= i < |starts| ensures all[i + 1] == starts[i] {
    }
    if first <= latest && StartsBy(starts, latest) {
      forall i | 0 <= i < |all| ensures all[i] <= latest {
        assert i > 0 ==> all[i] == starts[i - 1];
      }
    }
  }

  lemma BlocksLater(seens: seq<Seen>, i: nat)
    requires seens != [] && GoesOn(seens[0])
    ensures BlocksAt(seens[1..], i) <==> BlocksAt(seens, i + 1)
  {
    if BlocksAt(seens, i + 1) {
      forall j | 0 <= j < i ensures GoesOn(seens[1..][j]) {
        assert GoesOn(seens[j + 1]);
      }
    }
    if BlocksAt(seens[1..], i) {
      forall j | 0 <= j < i + 1 ensures GoesOn(seens[j]) {
        assert j > 0 ==> GoesOn(seens[1..][j - 1]);
      }
    }
  }

  /** A loop that is never blocked before its last poll is at most a sleep late. */
  lemma {:induction false} UnblockedIsOnTime(now: int, until: int, cap: nat, script: seq<Poll>, seens: seq<Seen>)
    requires SameReplies(script, seens) && now <= until + cap * SECOND
    requires forall i: nat :: !BlocksAt(seens, i)
    ensures StartsBy(Wait(now, until, cap, script).starts, until + cap * SECOND)
    decreases |script|
  {
    if script != [] {
      var t := now + script[0].took;
      assert !BlocksAt(seens, 0);
      if script[0].seen.Again? && t <= until {
        forall i: nat ensures !BlocksAt(seens[1..], i) {
          BlocksLater(seens, i);
          assert !BlocksAt(seens, i + 1);
        }
        SleepBound(until - t, cap);
        var next := t + Sleep(until - t, cap);
        UnblockedIsOnTime(next, until, cap, script[1..], seens[1..]);
        StartsByFirst(now, Wait(next, until, cap, script[1..]).starts, until + cap * SECOND);
      } else if script[0].seen.Busy? {
        assert script[1..] == [];
      }
    }
  }

  /** Without blocked replies the first poll starts at once, and none more than `cap` seconds late. */
  lemma NoLateStart(now: int, until: int, cap: nat, script: seq<Poll>)
    requires NeverBusy(script) && now <= until + cap * SECOND
    ensures var w := Wait(now, until, cap, script);
            && (script != [] ==> w.starts != [] && w.starts[0] == now)
            && StartsBy(w.starts, until + cap * SECOND)
  {
    var seens := seq(|script|, i requires 0 <= i < |script| => script[i].seen);
    UnblockedIsOnTime(now, until, cap, script, seens);
  }

  /** The answer that blocks can take any time, and the ones before it just the time that is left. */
  lemma {:induction false} BlockedTiming(now: int, until: int, cap: nat, seens: seq<Seen>, i: nat, late: nat)
    returns (script: seq<Poll>)
    requires BlocksAt(seens, i) && now <= until
    ensures SameReplies(script, seens) && !StartsBy(Wait(now, until, cap, script).starts, until + late)
    decreases |seens|
  {
    if i == 0 {
      var rest := seq(|seens| - 1, k requires 0 <= k < |seens| - 1 => Poll(0, seens[k + 1]));
      script := [Poll(until - now + late + 1, Busy)] + rest;
      assert script[1..] == rest && rest != [];
      var w := Wait(until + late + 1, until, cap, rest);
      assert w.starts[0] == until + late + 1;
      StartsByFirst(now, w.starts, until + late);
    } else {
      assert GoesOn(seens[0]);
      BlocksLater(seens, i - 1);
      var rest := BlockedTiming(until, until, cap, seens[1..], i - 1, late);
      script := [Poll(until - now, seens[0])] + rest;
      assert script[1..] == rest;
      StartsByFirst(now, Wait(until, until, cap, rest).starts, until + late);
    }
  }

  /** With some timing of these replies a poll starts more than `late` after the deadline. */
  ghost predicate CanBeLate(now: int, until: int, cap: nat, seens: seq<Seen>, late: nat) {
    exists script :: SameReplies(script, seens) && !StartsBy(Wait(now, until, cap, script).starts, until + late)
  }

  /** A loop that gets these replies can start a poll later than any bound from one sleep up, if and
      only if one of them blocks it while another poll is to come. */
  lemma BlockedRepliesIgnoreTheDeadline(now: int, until: int, cap: nat, seens: seq<Seen>, late: nat)
    requires now <= until && late >= cap * SECOND
    ensures CanBeLate(now, until, cap, seens, late) <==> exists i: nat :: BlocksAt(seens, i)
  {
    if i: nat :| BlocksAt(seens, i) {
      var script := BlockedTiming(now, until, cap, seens, i, late);
    } else {
      forall script | SameReplies(script, seens) ensures StartsBy(Wait(now, until, cap, script).starts, until + late) {
        UnblockedIsOnTime(now, until, cap, script, seens);
      }
    }
  }

  // ----- the wait with a ticket

  datatype TicketTrace = TicketTrace(outcome: Outcome, starts: seq<int>, tickets: nat)

  /** Go's integer division truncates toward zero. */
  function Half(d: int): int {
    if d >= 0 then d / 2 else -((-d) / 2)
  }

  function FirstWait(now: int, until: int, script: seq<Poll>): Trace {
    Wait(now, now + Half(until - now), INSTANCE_CAP, script)
  }

  /** The error is taken for a time-out by its text. */
  predicate OpensTicket(o: Outcome) {
    o.TimedOut? || (o.Failed? && o.quotesTimeOut)
  }

  /** When the second wait starts, if it does. */
  function SecondStart(now: int, until: int, script: seq<Poll>, ticketTook: nat): Option<int> {
    var first := FirstWait(now, until, script);
    match first.outcome
    case Succeeded => Some(first.end)
    case OutOfScript => None
    case _ => if OpensTicket(first.outcome) then Some(first.end + ticketTook) else None
  }

  function Later(now: int, until: int, script: seq<Poll>): seq<Poll> {
    var used := |FirstWait(now, until, script).starts|;
    if used <= |script| then script[used..] else []
  }

  /** WaitInstanceUntilReadyWithTicket: half the time, a ticket on a time-out, and then,
      even after the first wait succeeded, another wait to the full deadline. */
  function WaitWithTicket(now: int, until: int, script: seq<Poll>, ticketTook: nat): TicketTrace {
    var first := FirstWait(now, until, script);
    var start := SecondStart(now, until, script, ticketTook);
    if start.None? then TicketTrace(first.outcome, first.starts, 0)
    else
      var second := Wait(start.value, until, INSTANCE_CAP, Later(now, until, script));
      TicketTrace(second.outcome, first.starts + second.starts, if OpensTicket(first.outcome) then 1 else 0)
  }

  /** The same in place; `ticketTook` is what creating the ticket takes, whether or not it fails. */
  method WaitInstanceUntilReadyWithTicket(clock: Clock, requests: seq<Request>, until: int, ticketTook: nat)
    returns (r: Outcome, tickets: nat)
    modifies clock
    ensures var w := WaitWithTicket(old(clock.now), until, Script(requests), ticketTook);
            r == w.outcome && tickets == w.tickets && clock.starts == old(clock.starts) + w.starts
  {
    tickets := 0;
    var ticketTime := clock.now + Half(until - clock.now);
    var polled := |clock.starts|;
    ghost var begun, before := clock.now, clock.starts;
    r := WaitInstanceUntilReady(clock, requests, ticketTime);
    ghost var first := FirstWait(begun, until, Script(requests));
    assert r == first.outcome && clock.starts == before + first.starts && clock.now == first.end;
    if OpensTicket(r) {
      tickets := 1;
      clock.Pass(ticketTook);
    } else if !r.Succeeded? {
      return;
    }
    var used := |clock.starts| - polled;
    GoesOnWith(begun, until, requests, ticketTook);
    r := WaitInstanceUntilReady(clock, requests[used..], until);
  }

  /** If there is a second wait, its polls go on after the first one's. */
  lemma GoesOnWith(now: int, until: int, requests: seq<Request>, ticketTook: nat)
    requires SecondStart(now, until, Script(requests), ticketTook).Some?
    ensures var first := FirstWait(now, until, Script(requests));
            var start := SecondStart(now, until, Script(requests), ticketTook).value;
            var w := WaitWithTicket(now, until, Script(requests), ticketTook);
            && |first.starts| <= |requests|
            && (var second := Wait(start, until, INSTANCE_CAP, Script(requests[|first.starts|..]));
                w.outcome == second.outcome
                && forall before: seq<int> :: before + w.starts == before + first.starts + second.starts)
  {
    FirstUses(now, until, requests);
    var w := WaitWithTicket(now, until, Script(requests), ticketTook);
    var first := FirstWait(now, until, Script(requests));
    var start := SecondStart(now, until, Script(requests), ticketTook).value;
    var second := Wait(start, until, INSTANCE_CAP, Script(requests[|first.starts|..]));
    forall before: seq<int> ensures before + w.starts == before + first.starts + second.starts {
      assert before + (first.starts + second.starts) == before + first.starts + second.starts;
    }
  }

  lemma FirstUses(now: int, until: int, requests: seq<Request>)
    ensures var used := |FirstWait(now, until, Script(requests)).starts|;
            used <= |requests| && Later(now, until, Script(requests)) == Script(requests[used..])
  {
    SuccessWasSeen(now, now + Half(until - now), INSTANCE_CAP, Script(requests));
  }

  /** At most one ticket is opened, after a time-out or an error that reads like one; a success takes at
      least two polls, of which the last saw the goal. */
  lemma TicketWait(now: int, until: int, script: seq<Poll>, ticketTook: nat)
    ensures var w := WaitWithTicket(now, until, script, ticketTook);
            && (w.tickets == if FirstWait(now, until, script).outcome in {TimedOut, Failed(true)} then 1 else 0)
            && |w.starts| <= |script|
            && (w.outcome.Succeeded? ==> |w.starts| >= 2 && script[|w.starts| - 1].seen.Done?)
  {
    SuccessWasSeen(now, now + Half(until - now), INSTANCE_CAP, script);
    var start := SecondStart(now, until, script, ticketTook);
    if start.Some? {
      SuccessWasSeen(start.value, until, INSTANCE_CAP, Later(now, until, script));
      FirstIsNotEmpty(now, until, script);
    }
  }

  /** The first wait has half of the time: it times out only after that, and polls no later than 10 s
      after it unless replies block. */
  lemma TicketTimes(now: int, until: int, script: seq<Poll>)
    requires now <= until && script != []
    ensures var first := FirstWait(now, until, script);
            && (first.outcome == TimedOut ==> first.end > now + (until - now) / 2)
            && (NeverBusy(script) ==> StartsBy(first.starts, now + (until - now) / 2 + 10_000_000_000))
  {
    var half := now + Half(until - now);
    LastDecides(now, half, INSTANCE_CAP, script);
    if NeverBusy(script) {
      NoLateStart(now, half, INSTANCE_CAP, script);
    }
  }

  /** The last poll of all decides, and a wait that times out has lasted until the full deadline. */
  lemma TicketAnswers(now: int, until: int, script: seq<Poll>, ticketTook: nat)
    requires now <= until && script != []
    ensures var w := WaitWithTicket(now, until, script, ticketTook);
            && 1 <= |w.starts| <= |script|
            && (w.outcome == TimedOut ==> w.starts[|w.starts| - 1] + script[|w.starts| - 1].took > until)
            && (w.outcome == Succeeded ==> script[|w.starts| - 1].seen == Done)
            && (w.outcome.Failed? ==> script[|w.starts| - 1].seen == Fatal(w.outcome.quotesTimeOut))
  {
    var half := now + Half(until - now);
    LastDecides(now, half, INSTANCE_CAP, script);
    var start := SecondStart(now, until, script, ticketTook);
    if start.Some? && Later(now, until, script) != [] {
      LastDecides(start.value, until, INSTANCE_CAP, Later(now, until, script));
      EndsAfterLastPoll(start.value, until, INSTANCE_CAP, Later(now, until, script));
    }
  }

  lemma FirstIsNotEmpty(now: int, until: int, script: seq<Poll>)
    requires !FirstWait(now, until, script).outcome.OutOfScript?
    ensures |FirstWait(now, until, script).starts| >= 1
  {
  }

  lemma {:induction false} EndsAfterLastPoll(now: int, until: int, cap: nat, script: seq<Poll>)
    ensures var w := Wait(now, until, cap, script);
            w.outcome.OutOfScript?
            || (1 <= |w.starts| <= |script| && w.end == w.starts[|w.starts| - 1] + script[|w.starts| - 1].took)
    decreases |script|
  {
    if script != [] {
      var t := now + script[0].took;
      if script[0].seen.Busy? {
        EndsAfterLastPoll(t, until, cap, script[1..]);
      } else if script[0].seen.Again? && t <= until {
        EndsAfterLastPoll(t + Sleep(until - t, cap), until, cap, script[1..]);
      }
    }
  }

  lemma StartsByBoth(starts: seq<int>, more: seq<int>, latest: int)
    ensures StartsBy(starts + more, latest) <==> StartsBy(starts, latest) && StartsBy(more, latest)
  {
    var all := starts + more;
    if StartsBy(all, latest) {
      forall i | 0 <= i < |starts| ensures starts[i] <= latest {
        assert all[i] <= latest;
      }
      forall i | 0 <= i < |more| ensures more[i] <= latest {
        assert all[|starts| + i] <= latest;
      }
    }
  }

  /** The polls of both waits are in time if the second wait starts in time. */
  lemma SecondStartDecides(now: int, until: int, script: seq<Poll>, ticketTook: nat)
    requires now <= until && NeverBusy(script)
    ensures var start := SecondStart(now, until, script, ticketTook);
            StartsBy(WaitWithTicket(now, until, script, ticketTook).starts, until + 10 * SECOND)
            <==> (start.Some? && Later(now, until, script) != [] ==> start.value <= until + 10 * SECOND)
  {
    var start := SecondStart(now, until, script, ticketTook);
    var first := FirstWait(now, until, script);
    NoLateStart(now, now + Half(until - now), INSTANCE_CAP, script);
    if start.Some? {
      var later := Later(now, until, script);
      var second := Wait(start.value, until, INSTANCE_CAP, later);
      StartsByBoth(first.starts, second.starts, until + 10 * SECOND);
      if later != [] {
        assert second.starts[0] == start.value;
        if start.value <= until + 10 * SECOND {
          NoLateStart(start.value, until, INSTANCE_CAP, later);
        }
      }
    }
  }

  lemma SecondStartAfter(now: int, until: int, script: seq<Poll>, ticketTook: nat)
    ensures var first := FirstWait(now, until, script);
            var start := SecondStart(now, until, script, ticketTook);
            && |first.starts| <= |script|
            && (Later(now, until, script) == [] <==> |first.starts| == |script|)
            && (start.None? ==> first.outcome == Failed(false) || |first.starts| == |script|)
            && (first.outcome == Failed(false) ==> start.None?)
            && (start.Some? ==> |first.starts| >= 1)
            && (start.Some? ==>
                  start.value == first.starts[|first.starts| - 1] + script[|first.starts| - 1].took
                                 + if first.outcome.Succeeded? then 0 else ticketTook)
            && (first.starts == [] ==> |first.starts| == |script|)
  {
    var half := now + Half(until - now);
    SuccessWasSeen(now, half, INSTANCE_CAP, script);
    OutOfScriptUsesAll(now, half, INSTANCE_CAP, script);
    EndsAfterLastPoll(now, half, INSTANCE_CAP, script);
  }

  /** No poll starts more than 10 s after the full deadline if and only if the first wait failed, or
      nothing is left to poll, or its last poll and the ticket took no more than the time that was left
      then and 10 s. */
  lemma TicketOvershoot(now: int, until: int, script: seq<Poll>, ticketTook: nat)
    requires now <= until && NeverBusy(script)
    ensures var w := WaitWithTicket(now, until, script, ticketTook);
            var first := FirstWait(now, until, script);
            |first.starts| <= |script|
            && (StartsBy(w.starts, until + 10_000_000_000)
            <==> first.outcome == Failed(false) || |first.starts| == |script|
                 || script[|first.starts| - 1].took + (if first.outcome.Succeeded? then 0 else ticketTook)
                    <= until - first.starts[|first.starts| - 1] + 10_000_000_000)
  {
    SecondStartDecides(now, until, script, ticketTook);
    SecondStartAfter(now, until, script, ticketTook);
  }
}
