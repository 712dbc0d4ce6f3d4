/**
 All increments get done: whatever the state of the queue, the threads can finish their rounds.
 */
module ClhProgress {
  import opened Sums
  import opened ClhLock

  /** No thread has gone, or is going, beyond its rounds. */
  ghost predicate Within(s: State, rounds: nat) {
    forall t :: 0 <= t < |s.threads| ==>
      s.threads[t].rounds <= rounds && (s.threads[t].phase.Armed? ==> s.threads[t].rounds < rounds)
  }

  /** How many steps a thread still takes, not counting the turns of its spin loop. */
  function Rank(th: Thread, rounds: nat): nat {
    var togo := if th.rounds < rounds then 7 * (rounds - th.rounds) else 0;
    match th.phase
    case Outside => togo
    case Armed => if togo > 0 then togo - 1 else 0
    case Spinning => togo + 5
    case Critical => togo + 4
    case Loaded(_) => togo + 3
    case Leaving => togo + 2
    case Recycling => togo + 1
  }

  function Ranks(s: State, rounds: nat): seq<nat> {
    seq(|s.threads|, t requires 0 <= t < |s.threads| => Rank(s.threads[t], rounds))
  }

  lemma StepFalls(s: State, s': State, t: nat, rounds: nat)
    requires Step(s, s', t) && s'.threads[t] != s.threads[t] && Within(s, rounds)
    requires s.threads[t].phase.Outside? ==> s.threads[t].rounds < rounds
    ensures |s'.threads| == |s.threads| && Within(s', rounds) && Sum(Ranks(s', rounds)) < Sum(Ranks(s, rounds))
  {
    SumAt(Ranks(s, rounds), Ranks(s', rounds), t);
  }

  ghost predicate AllDone(s: State, rounds: nat) {
    forall t :: 0 <= t < |s.threads| ==> s.threads[t].phase.Outside? && s.threads[t].rounds == rounds
  }

  lemma OwnStep(s: State, t: nat) returns (s': State)
    requires Inv(s) && t < |s.threads| && !s.threads[t].phase.Spinning?
    ensures Step(s, s', t) && s'.threads[t].phase != s.threads[t].phase
  {
    assert ThreadOk(s, t);
    var th := s.threads[t];
    match th.phase
    case Outside => s' := ArmStep(s, t);
    case Armed => s' := SwapStep(s, t);
    case Critical => s' := Put(s, t, th.(phase := Loaded(s.counter)));
    case Loaded(v) => s' := Put(s, t, th.(phase := Leaving)).(counter := v + 1);
    case Leaving => s' := LeaveStep(s, t);
    case Recycling => s' := Put(s, t, th.(phase := Outside, node := th.pred));
  }

  /** If every thread that is not done spins, the first in the queue does, and may enter. */
  lemma SomeStep(s: State, rounds: nat) returns (t: nat, s': State)
    requires Inv(s) && !AllDone(s, rounds) && Within(s, rounds)
    ensures Step(s, s', t) && s'.threads[t] != s.threads[t]
    ensures s.threads[t].phase.Outside? ==> s.threads[t].rounds < rounds
  {
    t :| t < |s.threads| && !(s.threads[t].phase.Outside? && s.threads[t].rounds == rounds);
    if s.threads[t].phase.Spinning? {
      assert ThreadOk(s, t) && SlotOk(s, s.released);
      t := s.swaps[s.released];
      assert ThreadOk(s, t);
      FirstIsFree(s, t);
    }
    if s.threads[t].phase.Spinning? {
      s' := SpinStep(s, t);
    } else {
      s' := OwnStep(s, t);
    }
  }

  /** From every reachable state the run can be continued until every thread has done its rounds; the counter is then
      the number of threads times rounds. */
  lemma {:induction false} EveryRunCanFinish(run: seq<State>, rounds: nat) returns (run': seq<State>)
    requires Run(run) && Within(run[|run|-1], rounds)
    ensures run <= run' && Run(run') && |run'[|run'|-1].threads| == |run[|run|-1].threads|
    ensures AllDone(run'[|run'|-1], rounds)
    ensures run'[|run'|-1].counter == |run[|run|-1].threads| * rounds
    decreases Sum(Ranks(run[|run|-1], rounds))
  {
    var s := run[|run|-1];
    if AllDone(s, rounds) {
      run' := run;
      NoIncrementLost(run, |run| - 1, rounds);
    } else {
      RunKeepsInv(run, |run| - 1);
      var t, s' := SomeStep(s, rounds);
      StepFalls(s, s', t, rounds);
      var longer := run + [s'];
      assert Next(s, s');
      forall n | 0 <= n < |longer| - 1 ensures Steps(longer, n) { if n < |run| - 1 { assert Steps(run, n); } }
      run' := EveryRunCanFinish(longer, rounds);
    }
  }
}
