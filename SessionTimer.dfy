/** The study stopwatch: a running flag and a count of elapsed seconds, driven by start,
    stop, reset and the once-a-second tick of the interval that exists while running. */
module SessionTimer {

  /** `isRunning` and `elapsedTime`. */
  datatype State = State(running: bool, elapsed: nat)

  /** The state the component starts in, and the one `resetStopwatch` returns to. */
  const Initial: State := State(false, 0)

  /** What can happen to the stopwatch: the three buttons and one firing of the interval. */
  datatype Event = Start | Stop | Reset | Tick

  /** The effect of one event. A tick counts only while running, because the interval is
      created when the stopwatch starts and cleared when it stops. */
  function Step(s: State, e: Event): (r: State)
    ensures e == Start ==> r.running && r.elapsed == s.elapsed
    ensures e == Stop ==> !r.running && r.elapsed == s.elapsed
    ensures e == Reset ==> r == Initial
    ensures e == Tick ==> r.running == s.running
    ensures e == Tick ==> (r.elapsed == s.elapsed + 1 <==> s.running)
    ensures e == Tick ==> (r == s <==> !s.running)
  {
    match e
    case Start => State(true, s.elapsed)
    case Stop => State(false, s.elapsed)
    case Reset => Initial
    case Tick => if s.running then State(true, s.elapsed + 1) else s
  }

  /** The state after a sequence of events, applied first to last. */
  function Replay(s: State, events: seq<Event>): State
    decreases |events|
  {
    if events == [] then s else Replay(Step(s, events[0]), events[1..])
  }

  /** Replaying two stretches one after the other is replaying them joined. */
  lemma {:induction false} ReplayAppend(s: State, a: seq<Event>, b: seq<Event>)
    ensures Replay(s, a + b) == Replay(Replay(s, a), b)
    decreases |a|
  {
    if a == [] {
      assert a + b == b;
    } else {
      assert (a + b)[1..] == a[1..] + b;
      ReplayAppend(Step(s, a[0]), a[1..], b);
    }
  }

  /** A reset forgets everything before it: what happens afterwards is as if from the start. */
  lemma ResetForgetsHistory(s: State, before: seq<Event>, after: seq<Event>)
    ensures Replay(s, before + [Reset] + after) == Replay(Initial, after)
  {
    ReplayAppend(s, before + [Reset], after);
    ReplayAppend(s, before, [Reset]);
  }

  /** The number of ticks in a sequence of events. */
  function TickCount(events: seq<Event>): nat {
    if events == [] then 0 else (if events[0] == Tick then 1 else 0) + TickCount(events[1..])
  }

  /** The elapsed count grows by at most one per tick, and without a reset it never shrinks. */
  lemma {:induction false} ElapsedBoundedByTicks(s: State, events: seq<Event>)
    ensures Replay(s, events).elapsed <= s.elapsed + TickCount(events)
    ensures Reset !in events ==> Replay(s, events).elapsed >= s.elapsed
    decreases |events|
  {
    if events != [] {
      ElapsedBoundedByTicks(Step(s, events[0]), events[1..]);
      assert Reset !in events ==> Reset !in events[1..];
    }
  }

  /** `n` firings of the interval. */
  function Ticks(n: nat): (r: seq<Event>)
    ensures |r| == n && TickCount(r) == n
  {
    if n == 0 then [] else [Tick] + Ticks(n - 1)
  }

  /** Ticks add their number to a running stopwatch and leave a stopped one as it is. */
  lemma {:induction false} ReplayTicks(s: State, n: nat)
    ensures s.running ==> Replay(s, Ticks(n)) == State(true, s.elapsed + n)
    ensures !s.running ==> Replay(s, Ticks(n)) == s
    decreases n
  {
    if n > 0 {
      ReplayTicks(Step(s, Tick), n - 1);
    }
  }

  /** Start, five ticks, stop, three ticks, start, two ticks: seven seconds counted, and the
      stopwatch still running. */
  lemma StartStopStartCounts()
    ensures Replay(Initial, [Start] + Ticks(5) + [Stop] + Ticks(3) + [Start] + Ticks(2))
            == State(true, 7)
  {
    var s1 := State(true, 0);
    var s2 := State(true, 5);
    var s3 := State(false, 5);
    ReplayTicks(s1, 5);
    ReplayTicks(s3, 3);
    ReplayTicks(State(true, 5), 2);
    ReplayAppend(Initial, [Start], Ticks(5));
    ReplayAppend(Initial, [Start] + Ticks(5), [Stop]);
    ReplayAppend(Initial, [Start] + Ticks(5) + [Stop], Ticks(3));
    ReplayAppend(Initial, [Start] + Ticks(5) + [Stop] + Ticks(3), [Start]);
    ReplayAppend(Initial, [Start] + Ticks(5) + [Stop] + Ticks(3) + [Start], Ticks(2));
    assert Replay(Initial, [Start]) == s1;
    assert Replay(s2, [Stop]) == s3;
    assert Replay(s3, [Start]) == State(true, 5);
  }

  /** The stopwatch as the component holds it: two state fields updated in place. */
  class Stopwatch {
    var isRunning: bool
    var elapsedTime: nat

    function Current(): State
      reads this
    {
      State(isRunning, elapsedTime)
    }

    constructor()
      ensures Current() == Initial
    {
      isRunning := false;
      elapsedTime := 0;
    }

    /** `startStopwatch`. */
    method Start()
      modifies this
      ensures isRunning && elapsedTime == old(elapsedTime)
      ensures Current() == Step(old(Current()), Event.Start)
    {
      isRunning := true;
    }

    /** `stopStopwatch`. */
    method Stop()
      modifies this
      ensures !isRunning && elapsedTime == old(elapsedTime)
      ensures Current() == Step(old(Current()), Event.Stop)
    {
      isRunning := false;
    }

    /** `resetStopwatch`. */
    method Reset()
      modifies this
      ensures !isRunning && elapsedTime == 0
      ensures Current() == Step(old(Current()), Event.Reset)
    {
      isRunning := false;
      elapsedTime := 0;
    }

    /** One firing of the interval, `setElapsedTime(prev => prev + 1)`; there is no interval
        while stopped, so then nothing happens. */
    method Tick()
      modifies this
      ensures isRunning == old(isRunning)
      ensures elapsedTime == if old(isRunning) then old(elapsedTime) + 1 else old(elapsedTime)
      ensures Current() == Step(old(Current()), Event.Tick)
    {
      if isRunning {
        elapsedTime := elapsedTime + 1;
      }
    }
  }

  /** The start, five ticks, stop, three ticks, start, two ticks sequence on a fresh
      stopwatch object. */
  method StartStopStartScenario() returns (elapsed: nat, running: bool)
    ensures elapsed == 7 && running
  {
    var w := new Stopwatch();
    w.Start();
    w.Tick(); w.Tick(); w.Tick(); w.Tick(); w.Tick();
    w.Stop();
    w.Tick(); w.Tick(); w.Tick();
    w.Start();
    w.Tick(); w.Tick();
    elapsed, running := w.elapsedTime, w.isRunning;
  }
}
