/**
 What a completion does to a closed Almgren-Chriss executor. Closing ends in the framework's
 stop(), which detaches the callbacks; the transition system does not rely on that.
 */
module ACExecutionReopen {
  import opened Common
  import opened ACMath
  import opened ACShape
  import opened ACExecution
  import opened ACExecutionRuns
  import opened ACExecutionTheorems
  import PA = PassiveAggressive

  /** With its callbacks detached a closed executor stays exactly as it is: only control tasks
      still reach it. */
  lemma {:induction false} ClosedIsFinal(f: Elementary, w: World, es: seq<Event>)
    requires Lawful(f) && w.exec.status.Terminated? && LegalRun(f, w, es)
    requires forall k :: 0 <= k < |es| ==> es[k].ControlTask?
    ensures RunOf(f, w, es).exec == w.exec
    decreases |es|
  {
    hide Tick, Honest, Beyond, Settled;
    if es != [] {
      assert es[0].ControlTask?;
      ClosedIsFinal(f, Next(f, w, es[0]), es[1..]);
    }
  }

  // ---- A run that reopens ------------------------------------------------------------------

  // One slice, no risk aversion.
  function Lone(total: real): Config {
    Config(Params(total, 60.0, 1, 0.0, 0.0, 1.0, 0.0, None), true, false, 10)
  }

  function Fresh(total: real): State {
    State(Lone(total), [total], 60.0, true, 0, [], [], [], 0.0, None, None, 0, PA.Running, None)
  }

  function LoneSent(total: real): World {
    World(Fresh(total).(idx := 1, submitted := [0], orders := [total], started := Some(0.0), lastSlice := Some(0.0)),
          [Working], [0.0], 0.0, false, 0.0, 0.0, false, false)
  }

  function LoneStopped(total: real): World {
    var w := LoneSent(total);
    w.(exec := w.exec.(status := PA.ShuttingDown, closeType := Some(PA.EarlyStop)), stopped := true)
  }

  function LoneClosed(total: real): World {
    var w := LoneStopped(total);
    w.(exec := w.exec.(status := PA.Terminated), clock := 1.0)
  }

  function SendStopClose(): seq<Event> { [TickAt(0.0), StopRequest(false), TickAt(1.0)] }

  lemma LoneCreated(f: Elementary, total: real)
    requires Lawful(f) && total > 0.0
    ensures Create(f, Lone(total)) == Success(Fresh(total))
  {
    var p := Lone(total).params;
    assert Tau(p) == 60.0 && EtaTilde(p) == 1.0;
    CreateSound(f, Lone(total));
    ZeroRiskIsEven(f, p);
    hide BuildSchedule, Lawful;
    var schedule := BuildSchedule(f, p, None).value;
    assert EqualPart(schedule[0], 1, total);
    assert schedule == [total];
    assert IntervalFor(60.0, [total]) == 60.0;
  }

  lemma LoneSends(f: Elementary, total: real)
    requires Lawful(f) && total > 0.0
    ensures Legal(f, Start(Fresh(total), 0.0), TickAt(0.0))
    ensures Next(f, Start(Fresh(total), 0.0), TickAt(0.0)) == LoneSent(total)
  {
    hide Lawful;
  }

  lemma LoneStops(f: Elementary, total: real)
    requires Lawful(f)
    ensures Legal(f, LoneSent(total), StopRequest(false))
    ensures Next(f, LoneSent(total), StopRequest(false)) == LoneStopped(total)
  {
    hide Lawful;
  }

  lemma LoneCloses(f: Elementary, total: real)
    requires Lawful(f) && total > 0.0
    ensures Legal(f, LoneStopped(total), TickAt(1.0))
    ensures Next(f, LoneStopped(total), TickAt(1.0)) == LoneClosed(total)
  {
    hide Lawful;
  }

  /** Were a completion still delivered after stop(), it would reopen the executor: a single
      slice is sent, the run is stopped and closes, and then its order completes. */
  lemma LateCompletionReopens(f: Elementary, total: real) returns (w: World)
    requires Lawful(f) && total > 0.0
    ensures Reaches(f, Lone(total), SendStopClose(), w) && w.exec.status.Terminated?
    ensures var e := OrderCompleted(0, total, Shown);
            Legal(f, w, e) && Next(f, w, e).exec.status.ShuttingDown?
  {
    LoneCreated(f, total);
    LoneSends(f, total);
    LoneStops(f, total);
    LoneCloses(f, total);
    w := LoneClosed(total);
    LoneReopens(f, total);
    RunOfThree(f, Start(Fresh(total), 0.0), SendStopClose(), LoneSent(total), LoneStopped(total), w);
  }

  lemma LoneReopens(f: Elementary, total: real)
    requires Lawful(f) && total > 0.0
    ensures var w := LoneClosed(total); var e := OrderCompleted(0, total, Shown);
            Legal(f, w, e) && Next(f, w, e).exec.status.ShuttingDown?
  {
    hide Lawful;
  }

  lemma RunOfThree(f: Elementary, w0: World, es: seq<Event>, w1: World, w2: World, w3: World)
    requires Lawful(f) && |es| == 3
    requires Legal(f, w0, es[0]) && w1 == Next(f, w0, es[0])
    requires Legal(f, w1, es[1]) && w2 == Next(f, w1, es[1])
    requires Legal(f, w2, es[2]) && w3 == Next(f, w2, es[2])
    ensures LegalRun(f, w0, es) && RunOf(f, w0, es) == w3
  {
    hide Next, Legal;
    RunOne(f, w0, es[0]);
    RunOne(f, w1, es[1]);
    RunOne(f, w2, es[2]);
    RunConcat(f, w0, [es[0]], [es[1]]);
    RunConcat(f, w0, [es[0]] + [es[1]], [es[2]]);
    assert [es[0]] + [es[1]] + [es[2]] == es;
  }
}
