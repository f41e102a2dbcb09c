/** `infect`: one infected person's attempts on everybody near it. */
module Infection {
  import opened Random
  import opened Parameters
  import opened Persons

  /** Two records of a person agree on everything `infect` and `nextTo`
      read: index, position and current type. */
  predicate SameBody(a: Person, b: Person) {
    a.index == b.index && a.x == b.x && a.y == b.y && a.kind == b.kind
  }

  /** The guard `infect` evaluates before drawing: another index, a
      susceptible type, and proximity. */
  predicate Eligible(params: Params, src: Person, other: Person) {
    && src.index != other.index
    && other.kind == Susceptible
    && NextTo(params, src, other)
  }

  /** `getRandomIntLessThan(100) < PERCENT_CHANCE` on one draw. */
  predicate Succeeds(params: Params, r: Unit) {
    RandomIntLessThan(r, 100) < params.percentChance
  }

  /** The successful draws are exactly those below `PERCENT_CHANCE / 100`:
      the test succeeds with the configured percent chance. */
  lemma SucceedsBelowChance(params: Params, r: Unit)
    ensures Succeeds(params, r) <==> r * 100.0 < params.percentChance as real
  {
  }

  /** A chance of 100 always succeeds and a chance of 0 never does. */
  lemma ChanceExtremes(params: Params, r: Unit)
    ensures params.percentChance >= 100 ==> Succeeds(params, r)
    ensures params.percentChance <= 0 ==> !Succeeds(params, r)
  {
  }

  /** How many of the people at positions [lo, hi) `src` may infect:
      each of them costs one draw. */
  function EligibleBetween(params: Params, people: seq<Person>, src: Person, lo: nat, hi: nat): (n: nat)
    requires lo <= hi <= |people|
    ensures n <= hi - lo
    decreases hi - lo
  {
    if lo == hi then 0
    else (if Eligible(params, src, people[lo]) then 1 else 0)
         + EligibleBetween(params, people, src, lo + 1, hi)
  }

  lemma {:induction false} EligibleBetweenFrameOne(params: Params, a: seq<Person>, b: seq<Person>, src: Person, lo: nat, hi: nat)
    requires |a| == |b|
    requires forall m :: 0 <= m < |a| ==> SameBody(a[m], b[m])
    requires lo <= hi <= |a|
    ensures EligibleBetween(params, a, src, lo, hi) == EligibleBetween(params, b, src, lo, hi)
    decreases hi - lo
  {
    if lo < hi {
      EligibleBetweenFrameOne(params, a, b, src, lo + 1, hi);
    }
  }

  /** The staged type of `other` after `src`'s attempt with draw `r`. */
  function Staged(params: Params, src: Person, other: Person, r: Unit): PersonType {
    if Eligible(params, src, other) && Succeeds(params, r) then Infected else other.nextKind
  }

  /** The loop of `infect` from position `j` on.  A person is skipped when
      it has `src`'s index; otherwise, when it is susceptible and next to
      `src`, one draw decides whether its staged type becomes infected.
      Only the draws of eligible people are taken. */
  function InfectFrom(params: Params, people: seq<Person>, src: Person, j: nat, rand: Stream, k: nat): (r: (seq<Person>, nat))
    requires j <= |people|
    ensures |r.0| == |people|
    ensures r.1 == k + EligibleBetween(params, people, src, j, |people|)
    decreases |people| - j
  {
    if j == |people| then (people, k)
    else
      var other := people[j];
      if Eligible(params, src, other) then
        var next := people[j := other.(nextKind := Staged(params, src, other, rand(k)))];
        EligibleBetweenFrameOne(params, people, next, src, j + 1, |people|);
        InfectFrom(params, next, src, j + 1, rand, k + 1)
      else
        InfectFrom(params, people, src, j + 1, rand, k)
  }

  /** The loop leaves the people before `j` alone, and the person at
      `m` from `j` on is decided by the draw after all those of the
      eligible people in [j, m). */
  lemma {:induction false} InfectFromAt(params: Params, people: seq<Person>, src: Person, j: nat, rand: Stream, k: nat, m: nat)
    requires j <= |people| && m < |people|
    ensures InfectFrom(params, people, src, j, rand, k).0[m] ==
      if m < j then people[m]
      else people[m].(nextKind := Staged(params, src, people[m], rand(k + EligibleBetween(params, people, src, j, m))))
    decreases |people| - j
  {
    if j < |people| {
      var other := people[j];
      if Eligible(params, src, other) {
        var next := people[j := other.(nextKind := Staged(params, src, other, rand(k)))];
        InfectFromAt(params, next, src, j + 1, rand, k + 1, m);
        if j < m {
          EligibleBetweenFrameOne(params, people, next, src, j + 1, m);
        }
      } else {
        InfectFromAt(params, people, src, j + 1, rand, k, m);
      }
    }
  }

  /** `infect(src)`: the whole loop.  It changes nothing but staged types,
      stages only "infected", and only for susceptible people near `src`
      with another index; a chance of 100 stages every one of them and a
      chance of 0 none. */
  function Infect(params: Params, people: seq<Person>, src: Person, rand: Stream, k: nat): (r: (seq<Person>, nat))
    ensures |r.0| == |people|
    ensures k <= r.1
    ensures forall m :: 0 <= m < |people| ==>
      || r.0[m] == people[m]
      || (Eligible(params, src, people[m]) && r.0[m] == people[m].(nextKind := Infected))
    ensures params.percentChance >= 100 ==>
      forall m :: 0 <= m < |people| && Eligible(params, src, people[m]) ==> r.0[m].nextKind == Infected
    ensures params.percentChance <= 0 ==> r.0 == people
  {
    var r := InfectFrom(params, people, src, 0, rand, k);
    forall m | 0 <= m < |people|
      ensures || r.0[m] == people[m]
              || (Eligible(params, src, people[m]) && r.0[m] == people[m].(nextKind := Infected))
      ensures params.percentChance >= 100 && Eligible(params, src, people[m]) ==> r.0[m].nextKind == Infected
      ensures params.percentChance <= 0 ==> r.0[m] == people[m]
    {
      InfectFromAt(params, people, src, 0, rand, k, m);
      ChanceExtremes(params, rand(k + EligibleBetween(params, people, src, 0, m)));
    }
    r
  }
}
