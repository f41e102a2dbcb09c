/** The simulation engine: `reset`, the two passes of `step`, and the
    stop condition. */
module Engine {
  import opened Random
  import opened Parameters
  import opened Persons
  import opened Census
  import opened Infection

  /** The model's globals: `People`, `TimeStep`, `PersonCounts` (as the
      last `output` left it) and `IsRunning`. */
  datatype State = State(people: seq<Person>, timeStep: nat, counts: Counts, isRunning: bool)

  /** The infection duration has elapsed for `p`: `infectedTimeSteps >=
      DURATION`, never true for an infinite duration. */
  predicate Recovers(params: Params, p: Person) {
    match params.duration
    case None => false
    case Some(d) => p.infectedTimeSteps >= d
  }

  /** `TimeStep >= NUM_STEPS`, never true for an infinite number. */
  predicate TimeUp(params: Params, timeStep: nat) {
    match params.numSteps
    case None => false
    case Some(n) => timeStep >= n
  }

  /** The stop condition `step` evaluates after its recount. */
  predicate Finished(params: Params, s: State) {
    (params.stopWhenNoInfected && s.counts.infected == 0) || TimeUp(params, s.timeStep)
  }

  /** `src`, being infected, may infect `target` this step. */
  predicate CanInfect(params: Params, src: Person, target: Person) {
    src.kind == Infected && Eligible(params, src, target)
  }

  /** Some person at a position from `lo` on may infect `target`. */
  predicate ExposedFrom(params: Params, people: seq<Person>, lo: nat, target: Person) {
    exists j :: lo <= j < |people| && CanInfect(params, people[j], target)
  }

  /** Every staged type equals the current one, as after construction and
      after every apply pass. */
  predicate Settled(people: seq<Person>) {
    forall m :: 0 <= m < |people| ==> people[m].nextKind == people[m].kind
  }

  predicate AllInBounds(params: Params, people: seq<Person>) {
    forall m :: 0 <= m < |people| ==> InBounds(params, people[m])
  }

  /** The decision pass of `step` from position `i` on: each person whose
      current type is infected calls `infect`, is staged recovered once its
      infection duration has elapsed, and counts one more infected time
      step.  What the pass does to each person is stated by
      `DecisionPassKeepsBodies`, `DecisionPassStagesOnlyExposed`,
      `DecisionPassFullChance` and `DecisionPassNoChance`. */
  function DecisionPass(params: Params, people: seq<Person>, i: nat, rand: Stream, k: nat): (r: (seq<Person>, nat))
    requires i <= |people|
    ensures |r.0| == |people|
    ensures k <= r.1
    decreases |people| - i, 1
  {
    if i == |people| then (people, k) else DecisionTurn(params, people, i, rand, k)
  }

  /** One iteration of the decision loop, at position `i`, followed by the
      rest of the loop. */
  function DecisionTurn(params: Params, people: seq<Person>, i: nat, rand: Stream, k: nat): (r: (seq<Person>, nat))
    requires i < |people|
    ensures |r.0| == |people|
    ensures k <= r.1
    decreases |people| - i, 0
  {
    if people[i].kind == Infected then
      var (next, k') := InfectedTurn(params, people, i, rand, k);
      DecisionPass(params, next, i + 1, rand, k')
    else
      DecisionPass(params, people, i + 1, rand, k)
  }

  /** Nothing in the decision pass writes a type, index or position, so
      every test in it reads the state the step started from.  The people
      from position `i` on who are infected gain an infected time step and
      are staged recovered once their duration has elapsed; nobody else
      who is not susceptible has anything staged. */
  lemma {:induction false} DecisionPassKeepsBodies(params: Params, people: seq<Person>, i: nat, rand: Stream, k: nat)
    requires i <= |people|
    ensures var r := DecisionPass(params, people, i, rand, k).0;
      && (forall m :: 0 <= m < |people| ==> SameBody(r[m], people[m]))
      && (forall m :: 0 <= m < |people| ==>
            r[m].infectedTimeSteps ==
              people[m].infectedTimeSteps + (if i <= m && people[m].kind == Infected then 1 else 0))
      && (forall m :: 0 <= m < |people| && people[m].kind != Susceptible ==>
            r[m].nextKind ==
              (if i <= m && people[m].kind == Infected && Recovers(params, people[m]) then Recovered
               else people[m].nextKind))
    decreases |people| - i
  {
    if i < |people| {
      if people[i].kind == Infected {
        var (next, k') := InfectedTurn(params, people, i, rand, k);
        DecisionPassKeepsBodies(params, next, i + 1, rand, k');
      } else {
        DecisionPassKeepsBodies(params, people, i + 1, rand, k);
      }
    }
  }

  /** The step of the decision pass at position `i`, an infected person:
      `infect`, then its own recovery test and time step. */
  function InfectedTurn(params: Params, people: seq<Person>, i: nat, rand: Stream, k: nat): (r: (seq<Person>, nat))
    requires i < |people|
    ensures |r.0| == |people|
    ensures forall m :: 0 <= m < |people| ==> SameBody(r.0[m], people[m])
    ensures r.0[i] == people[i].(
      nextKind := if Recovers(params, people[i]) then Recovered else people[i].nextKind,
      infectedTimeSteps := people[i].infectedTimeSteps + 1)
    ensures forall m :: 0 <= m < |people| && m != i ==>
      || r.0[m] == people[m]
      || (Eligible(params, people[i], people[m]) && r.0[m] == people[m].(nextKind := Infected))
    ensures params.percentChance >= 100 ==>
      forall m :: 0 <= m < |people| && m != i && Eligible(params, people[i], people[m]) ==>
        r.0[m].nextKind == Infected
    ensures params.percentChance <= 0 ==>
      forall m :: 0 <= m < |people| && m != i ==> r.0[m] == people[m]
  {
    var (infected, k') := Infect(params, people, people[i], rand, k);
    var me := infected[i];
    (infected[i := me.(nextKind := if Recovers(params, me) then Recovered else me.nextKind,
                       infectedTimeSteps := me.infectedTimeSteps + 1)], k')
  }

  /** A susceptible person is staged infected by the decision pass only
      when someone infected from position `i` on may infect it; otherwise
      its staged type is left alone. */
  lemma {:induction false} DecisionPassStagesOnlyExposed(params: Params, people: seq<Person>, i: nat, rand: Stream, k: nat, m: nat)
    requires i <= |people| && m < |people| && people[m].kind == Susceptible
    ensures var after := DecisionPass(params, people, i, rand, k).0[m];
      || after.nextKind == people[m].nextKind
      || (after.nextKind == Infected && ExposedFrom(params, people, i, people[m]))
    decreases |people| - i
  {
    if i < |people| {
      if people[i].kind == Infected {
        var (next, k') := InfectedTurn(params, people, i, rand, k);
        ExposedFrame(params, people, next, i, m);
        DecisionPassStagesOnlyExposed(params, next, i + 1, rand, k', m);
      } else {
        ExposedFrame(params, people, people, i, m);
        DecisionPassStagesOnlyExposed(params, people, i + 1, rand, k, m);
      }
    }
  }

  /** At a chance of 100, every susceptible person someone infected from
      position `i` on may infect is staged infected. */
  lemma {:induction false} DecisionPassFullChance(params: Params, people: seq<Person>, i: nat, rand: Stream, k: nat, m: nat)
    requires i <= |people| && m < |people|
    requires params.percentChance >= 100 && ExposedFrom(params, people, i, people[m])
    ensures DecisionPass(params, people, i, rand, k).0[m].nextKind == Infected
    decreases |people| - i
  {
    if people[i].kind == Infected {
      var (next, k') := InfectedTurn(params, people, i, rand, k);
      ExposedFrame(params, people, next, i, m);
      if CanInfect(params, people[i], people[m]) {
        DecisionPassStagesOnlyExposed(params, next, i + 1, rand, k', m);
      } else {
        DecisionPassFullChance(params, next, i + 1, rand, k', m);
      }
    } else {
      ExposedFrame(params, people, people, i, m);
      DecisionPassFullChance(params, people, i + 1, rand, k, m);
    }
  }

  /** At a chance of 0, the decision pass stages nothing for a
      susceptible person. */
  lemma {:induction false} DecisionPassNoChance(params: Params, people: seq<Person>, i: nat, rand: Stream, k: nat, m: nat)
    requires i <= |people| && m < |people| && people[m].kind == Susceptible
    requires params.percentChance <= 0
    ensures DecisionPass(params, people, i, rand, k).0[m].nextKind == people[m].nextKind
    decreases |people| - i
  {
    if i < |people| {
      if people[i].kind == Infected {
        var (next, k') := InfectedTurn(params, people, i, rand, k);
        DecisionPassNoChance(params, next, i + 1, rand, k', m);
      } else {
        DecisionPassNoChance(params, people, i + 1, rand, k, m);
      }
    }
  }

  /** Exposure reads only what `SameBody` keeps, and the person at `lo`
      is the only one that separates exposure from `lo` and from
      `lo + 1`. */
  lemma ExposedFrame(params: Params, a: seq<Person>, b: seq<Person>, lo: nat, m: nat)
    requires |a| == |b| && lo < |a| && m < |a|
    requires forall j :: 0 <= j < |a| ==> SameBody(a[j], b[j])
    ensures ExposedFrom(params, a, lo, a[m]) <==>
      (CanInfect(params, a[lo], a[m]) || ExposedFrom(params, b, lo + 1, b[m]))
  {
    if ExposedFrom(params, a, lo, a[m]) {
      var j :| lo <= j < |a| && CanInfect(params, a[j], a[m]);
      if j > lo {
        assert CanInfect(params, b[j], b[m]);
      }
    }
    if ExposedFrom(params, b, lo + 1, b[m]) {
      var j :| lo + 1 <= j < |b| && CanInfect(params, b[j], b[m]);
      assert CanInfect(params, a[j], a[m]);
    }
  }

  /** One iteration of the apply pass: move with the speed of the current
      type, then take the staged type. */
  function Commit(params: Params, p: Person, rand: Stream, k: nat): (c: Person)
    ensures c.kind == p.nextKind && c.nextKind == p.nextKind
    ensures c.index == p.index && c.infectedTimeSteps == p.infectedTimeSteps
    ensures params.FitsWorld() ==> InBounds(params, c)
    ensures InBounds(params, p) ==>
      && AxisGap(c.x, p.x) <= params.MaxSpeed(p.kind)
      && AxisGap(c.y, p.y) <= params.MaxSpeed(p.kind)
  {
    var moved := Move(params, p, rand, k).0;
    moved.(kind := moved.nextKind)
  }

  /** The apply pass of `step` from position `i` on: commit every person
      in turn, each taking two draws. */
  function ApplyPass(params: Params, people: seq<Person>, i: nat, rand: Stream, k: nat): (r: (seq<Person>, nat))
    requires i <= |people|
    ensures |r.0| == |people|
    ensures r.1 == k + 2 * (|people| - i)
    decreases |people| - i, 1
  {
    if i == |people| then (people, k) else ApplyTurn(params, people, i, rand, k)
  }

  /** One iteration of the apply loop, at position `i`, followed by the
      rest of the loop. */
  function ApplyTurn(params: Params, people: seq<Person>, i: nat, rand: Stream, k: nat): (r: (seq<Person>, nat))
    requires i < |people|
    ensures |r.0| == |people|
    ensures r.1 == k + 2 * (|people| - i)
    decreases |people| - i, 0
  {
    ApplyPass(params, people[i := Commit(params, people[i], rand, k)], i + 1, rand, k + 2)
  }

  /** Each person takes the two draws after those of the people before
      it, so the apply pass is the same as committing every person
      independently; the people before `i` are left alone. */
  lemma {:induction false} ApplyPassCommitsAt(params: Params, people: seq<Person>, i: nat, rand: Stream, k: nat, m: nat)
    requires i <= |people| && m < |people|
    ensures ApplyPass(params, people, i, rand, k).0[m] ==
      if m < i then people[m] else Commit(params, people[m], rand, k + 2 * (m - i))
    decreases |people| - i
  {
    if i < |people| {
      var next := people[i := Commit(params, people[i], rand, k)];
      ApplyPassCommitsAt(params, next, i + 1, rand, k + 2, m);
      if i < m {
        assert k + 2 + 2 * (m - (i + 1)) == k + 2 * (m - i);
      }
    }
  }

  /** `ApplyPassCommitsAt` for everybody at once. */
  lemma ApplyPassCommits(params: Params, people: seq<Person>, i: nat, rand: Stream, k: nat)
    requires i <= |people|
    ensures forall m :: 0 <= m < i ==> ApplyPass(params, people, i, rand, k).0[m] == people[m]
    ensures forall m :: i <= m < |people| ==>
      ApplyPass(params, people, i, rand, k).0[m] == Commit(params, people[m], rand, k + 2 * (m - i))
  {
    forall m | 0 <= m < |people| {
      ApplyPassCommitsAt(params, people, i, rand, k, m);
    }
  }

  /** `step`: the decision pass, the apply pass, one more time step, the
      recount of `output`, and the stop condition, which clears
      `IsRunning`. */
  function Step(params: Params, s: State, rand: Stream, k: nat): (r: (State, nat))
    ensures r.0.timeStep == s.timeStep + 1
    ensures |r.0.people| == |s.people|
    ensures k <= r.1
    ensures forall m :: 0 <= m < |s.people| ==> r.0.people[m].index == s.people[m].index
    ensures Settled(r.0.people)
    ensures r.0.counts == Tally(r.0.people)
    ensures r.0.counts.susceptible + r.0.counts.infected + r.0.counts.recovered == |s.people|
    ensures params.FitsWorld() ==> AllInBounds(params, r.0.people)
    ensures Finished(params, r.0) <==>
      || (params.stopWhenNoInfected && forall m :: 0 <= m < |r.0.people| ==> r.0.people[m].kind != Infected)
      || TimeUp(params, s.timeStep + 1)
    ensures r.0.isRunning <==> s.isRunning && !Finished(params, r.0)
  {
    var (decided, k1) := DecisionPass(params, s.people, 0, rand, k);
    var (moved, k2) := ApplyPass(params, decided, 0, rand, k1);
    DecisionPassKeepsBodies(params, s.people, 0, rand, k);
    ApplyPassCommits(params, decided, 0, rand, k1);
    var counted := State(moved, s.timeStep + 1, Tally(moved), s.isRunning);
    NoneOfType(moved, Infected);
    (counted.(isRunning := s.isRunning && !Finished(params, counted)), k2)
  }

  /** `n` successive calls of `step`, whoever makes them. */
  function Steps(params: Params, s: State, n: nat, rand: Stream, k: nat): (r: (State, nat))
    ensures r.0.timeStep == s.timeStep + n
    ensures |r.0.people| == |s.people|
    ensures !s.isRunning ==> !r.0.isRunning
    decreases n
  {
    if n == 0 then (s, k)
    else
      var first := Step(params, s, rand, k);
      Steps(params, first.0, n - 1, rand, first.1)
  }

  /** The loop of `reset`: people 0 to n - 1, in order, each taking the
      four draws after those of the people before it. */
  function Populate(params: Params, n: nat, rand: Stream, k: nat): (r: (seq<Person>, nat))
    ensures |r.0| == n
    ensures r.1 == k + 4 * n
    ensures forall i :: 0 <= i < n ==> r.0[i] == NewPerson(params, i, rand, k + 4 * i).0
  {
    if n == 0 then ([], k)
    else
      var (front, k1) := Populate(params, n - 1, rand, k);
      var (p, k2) := NewPerson(params, n - 1, rand, k1);
      assert forall i :: 0 <= i < n - 1 ==> (front + [p])[i] == front[i];
      (front + [p], k2)
  }

  /** The invariant of a run: the people are indexed by position, fixed
      in number, settled, never infected while susceptible, counted,
      and (in a world that fits them) in bounds. */
  predicate Valid(params: Params, s: State) {
    && |s.people| == params.NumPeople()
    && (forall m :: 0 <= m < |s.people| ==> s.people[m].index == m)
    && Settled(s.people)
    && (forall m :: 0 <= m < |s.people| && s.people[m].kind == Susceptible ==>
          s.people[m].infectedTimeSteps == 0)
    && s.counts == Tally(s.people)
    && (params.FitsWorld() ==> AllInBounds(params, s.people))
  }

  /** `reset`: stop, time step zero, a fresh population, and the first
      count.  The counts start at the configured initial numbers. */
  function Reset(params: Params, rand: Stream, k: nat): (r: (State, nat))
    ensures Valid(params, r.0)
    ensures r.0.timeStep == 0 && !r.0.isRunning
    ensures forall m :: 0 <= m < |r.0.people| ==> r.0.people[m].kind == InitialKind(params, m)
    ensures r.0.counts ==
      Counts(params.susceptible.initNum, params.infected.initNum, params.recovered.initNum)
    ensures r.1 == k + 4 * params.NumPeople()
  {
    var (people, k1) := Populate(params, params.NumPeople(), rand, k);
    BandTally(params, people);
    (State(people, 0, Tally(people), false), k1)
  }

  /** The counts of the first n people when types follow the index bands. */
  function BandCounts(params: Params, n: nat): Counts {
    var s := if n < params.susceptible.initNum then n else params.susceptible.initNum;
    var i := if n - s < params.infected.initNum then n - s else params.infected.initNum;
    Counts(s, i, n - s - i)
  }

  lemma {:induction false} BandTally(params: Params, people: seq<Person>)
    requires forall m :: 0 <= m < |people| ==> people[m].kind == InitialKind(params, m)
    ensures Tally(people) == BandCounts(params, |people|)
    decreases |people|
  {
    if |people| > 0 {
      var n := |people| - 1;
      BandTally(params, people[..n]);
      assert InitialKind(params, n) == people[n].kind;
    }
  }
}
