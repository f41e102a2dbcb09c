/** What a step, and a run of steps, does to each person and to the
    engine as a whole. */
module Properties {
  import opened Random
  import opened Parameters
  import opened Persons
  import opened Census
  import opened Infection
  import opened Engine

  /** The disease only moves forward: susceptible, infected, recovered. */
  function Rank(t: PersonType): nat {
    match t
    case Susceptible => 0
    case Infected => 1
    case Recovered => 2
  }

  /** The transitions a single step allows. */
  predicate Advances(before: PersonType, after: PersonType) {
    || before == after
    || (before == Susceptible && after == Infected)
    || (before == Infected && after == Recovered)
  }

  /** One step, person by person, from a settled population: recovered
      people stay recovered; an infected person recovers exactly when its
      duration had elapsed before the step; a susceptible person becomes
      infected only when an infected person was next to it at the start
      of the step, always does so at a chance of 100 and never at a
      chance of 0; only infected people gain an infected time step; and
      every move is bounded by the speed of the type held before the
      step. */
  lemma {:induction false} StepTransitions(params: Params, s: State, rand: Stream, k: nat, m: nat)
    requires Settled(s.people)
    requires m < |s.people|
    ensures var before, after := s.people[m], Step(params, s, rand, k).0.people[m];
      && Advances(before.kind, after.kind)
      && (before.kind == Recovered ==> after.kind == Recovered)
      && (before.kind == Infected ==> (after.kind == Recovered <==> Recovers(params, before)))
      && (before.kind == Susceptible && after.kind == Infected ==> ExposedFrom(params, s.people, 0, before))
      && (params.percentChance >= 100 && before.kind == Susceptible && ExposedFrom(params, s.people, 0, before) ==>
            after.kind == Infected)
      && (params.percentChance <= 0 && before.kind == Susceptible ==> after.kind == Susceptible)
      && after.infectedTimeSteps == before.infectedTimeSteps + (if before.kind == Infected then 1 else 0)
      && (InBounds(params, before) ==>
            && AxisGap(after.x, before.x) <= params.MaxSpeed(before.kind)
            && AxisGap(after.y, before.y) <= params.MaxSpeed(before.kind))
  {
    var (decided, k1) := DecisionPass(params, s.people, 0, rand, k);
    var before, after := s.people[m], Step(params, s, rand, k).0.people[m];
    assert after == Commit(params, decided[m], rand, k1 + 2 * m) by {
      StepCommits(params, s, rand, k, m);
    }
    DecisionPassKeepsBodies(params, s.people, 0, rand, k);
    assert SameBody(decided[m], before);
    if before.kind == Susceptible {
      DecisionPassStagesOnlyExposed(params, s.people, 0, rand, k, m);
      if params.percentChance >= 100 && ExposedFrom(params, s.people, 0, before) {
        DecisionPassFullChance(params, s.people, 0, rand, k, m);
      }
      if params.percentChance <= 0 {
        DecisionPassNoChance(params, s.people, 0, rand, k, m);
      }
    }
  }

  /** The person at `m` after a step is the one the decision pass left
      there, committed with the two draws after those of the people
      before it. */
  lemma StepCommits(params: Params, s: State, rand: Stream, k: nat, m: nat)
    requires m < |s.people|
    ensures var (decided, k1) := DecisionPass(params, s.people, 0, rand, k);
      Step(params, s, rand, k).0.people[m] == Commit(params, decided[m], rand, k1 + 2 * m)
  {
    var (decided, k1) := DecisionPass(params, s.people, 0, rand, k);
    ApplyPassCommitsAt(params, decided, 0, rand, k1, m);
  }

  /** A step keeps the invariant of a run. */
  lemma {:induction false} StepPreservesValid(params: Params, s: State, rand: Stream, k: nat)
    requires Valid(params, s)
    ensures Valid(params, Step(params, s, rand, k).0)
  {
    var next := Step(params, s, rand, k).0;
    forall m | 0 <= m < |next.people| && next.people[m].kind == Susceptible
      ensures next.people[m].infectedTimeSteps == 0
    {
      StepTransitions(params, s, rand, k, m);
    }
  }

  /** At a chance of 100, a susceptible person next to an infected one
      (with another index) is infected after one step. */
  lemma FullChanceInfectsNeighbour(params: Params, s: State, rand: Stream, k: nat, sick: nat, m: nat)
    requires Settled(s.people)
    requires params.percentChance >= 100
    requires sick < |s.people| && m < |s.people|
    requires s.people[sick].kind == Infected && s.people[m].kind == Susceptible
    requires s.people[sick].index != s.people[m].index
    requires NextTo(params, s.people[sick], s.people[m])
    ensures Step(params, s, rand, k).0.people[m].kind == Infected
  {
    assert CanInfect(params, s.people[sick], s.people[m]);
    StepTransitions(params, s, rand, k, m);
  }

  /** With a duration of 0, every infected person is recovered after one
      step, neighbours or not. */
  lemma ZeroDurationRecoversAtOnce(params: Params, s: State, rand: Stream, k: nat, m: nat)
    requires Settled(s.people)
    requires params.duration == Some(0)
    requires m < |s.people| && s.people[m].kind == Infected
    ensures Step(params, s, rand, k).0.people[m].kind == Recovered
  {
    StepTransitions(params, s, rand, k, m);
  }

  /** With `STOP_WHEN_NO_INFECTED` and nobody infected, the first step
      finds nobody infected and stops the model. */
  lemma NoInfectedStopsAtOnce(params: Params, s: State, rand: Stream, k: nat)
    requires Settled(s.people)
    requires params.stopWhenNoInfected
    requires forall m :: 0 <= m < |s.people| ==> s.people[m].kind != Infected
    ensures Finished(params, Step(params, s, rand, k).0)
    ensures !Step(params, s, rand, k).0.isRunning
  {
    var next := Step(params, s, rand, k).0;
    forall m | 0 <= m < |next.people| ensures next.people[m].kind != Infected {
      StepTransitions(params, s, rand, k, m);
    }
  }
}
