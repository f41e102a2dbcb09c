/** Runs of several steps. */
module Runs {
  import opened Random
  import opened Parameters
  import opened Engine
  import opened Properties

  lemma {:induction false} StepsPreserveValid(params: Params, s: State, n: nat, rand: Stream, k: nat)
    requires Valid(params, s)
    ensures Valid(params, Steps(params, s, n, rand, k).0)
    decreases n
  {
    if n > 0 {
      var (next, k') := Step(params, s, rand, k);
      StepPreservesValid(params, s, rand, k);
      StepsPreserveValid(params, next, n - 1, rand, k');
    }
  }

  /** Over any number of steps nobody's disease state moves backwards. */
  lemma {:induction false} StepsNeverRegress(params: Params, s: State, n: nat, rand: Stream, k: nat, m: nat)
    requires Settled(s.people)
    requires m < |s.people|
    ensures Rank(s.people[m].kind) <= Rank(Steps(params, s, n, rand, k).0.people[m].kind)
    decreases n
  {
    if n > 0 {
      var (next, k') := Step(params, s, rand, k);
      StepTransitions(params, s, rand, k, m);
      StepsNeverRegress(params, next, n - 1, rand, k', m);
    }
  }

  /** With a chance of 0, the susceptible people stay exactly the
      susceptible people, for any number of steps and any proximity. */
  lemma {:induction false} NoChanceNoInfection(params: Params, s: State, n: nat, rand: Stream, k: nat, m: nat)
    requires Settled(s.people)
    requires params.percentChance <= 0
    requires m < |s.people|
    ensures Steps(params, s, n, rand, k).0.people[m].kind == Susceptible <==>
      s.people[m].kind == Susceptible
    decreases n
  {
    if n > 0 {
      var (next, k') := Step(params, s, rand, k);
      StepTransitions(params, s, rand, k, m);
      NoChanceNoInfection(params, next, n - 1, rand, k', m);
    }
  }

  /** With a finite `NUM_STEPS`, the step that brings the time step to
      it stops the model whatever the counts, and so does every later
      one. */
  lemma {:induction false} StepLimitStops(params: Params, s: State, n: nat, rand: Stream, k: nat)
    requires params.numSteps.Some? && n > 0
    requires s.timeStep + n >= params.numSteps.value
    ensures Finished(params, Steps(params, s, n, rand, k).0)
    ensures !Steps(params, s, n, rand, k).0.isRunning
    decreases n
  {
    var (next, k') := Step(params, s, rand, k);
    if n > 1 {
      StepLimitStops(params, next, n - 1, rand, k');
    }
  }
}
