/** The per-type head count that `output` takes after every reset and
    step (`PersonCounts`). */
module Census {
  import opened Parameters
  import opened Persons

  datatype Counts = Counts(susceptible: nat, infected: nat, recovered: nat) {
    function Get(t: PersonType): nat {
      match t
      case Susceptible => susceptible
      case Infected => infected
      case Recovered => recovered
    }

    /** `PersonCounts[type]++`. */
    function Add(t: PersonType): (c: Counts)
      ensures c.Get(t) == Get(t) + 1
      ensures forall u :: u != t ==> c.Get(u) == Get(u)
    {
      match t
      case Susceptible => this.(susceptible := susceptible + 1)
      case Infected => this.(infected := infected + 1)
      case Recovered => this.(recovered := recovered + 1)
    }
  }

  const Zero := Counts(0, 0, 0)

  /** The counts after the loop of `output` has visited every person. */
  function Tally(people: seq<Person>): (c: Counts)
    ensures c.susceptible + c.infected + c.recovered == |people|
    decreases |people|
  {
    if |people| == 0 then Zero
    else Tally(people[..|people| - 1]).Add(people[|people| - 1].kind)
  }

  /** The positions of the people of type `t`. */
  function IndicesOf(people: seq<Person>, t: PersonType): set<int> {
    set i | 0 <= i < |people| && people[i].kind == t
  }

  /** Each count is the number of people of that type. */
  lemma {:induction false} TallyCountsEachType(people: seq<Person>, t: PersonType)
    ensures Tally(people).Get(t) == |IndicesOf(people, t)|
    decreases |people|
  {
    if |people| > 0 {
      var n := |people| - 1;
      TallyCountsEachType(people[..n], t);
      IndicesOfSnoc(people, t);
    } else {
      assert IndicesOf(people, t) == {};
    }
  }

  lemma IndicesOfSnoc(people: seq<Person>, t: PersonType)
    requires |people| > 0
    ensures var n := |people| - 1;
      && n !in IndicesOf(people[..n], t)
      && IndicesOf(people, t) ==
           IndicesOf(people[..n], t) + (if people[n].kind == t then {n} else {})
  {
    var n := |people| - 1;
    var front := people[..n];
    var before, after := IndicesOf(front, t), IndicesOf(people, t);
    var last: set<int> := if people[n].kind == t then {n} else {};
    forall i | i in after ensures i in before + last {
      if i < n { assert front[i] == people[i]; }
    }
    forall i | i in before + last ensures i in after {
      if i < n { assert front[i] == people[i]; }
    }
  }

  /** The infected count is zero exactly when nobody is infected, which is
      what the stop condition of `step` relies on. */
  lemma NoneOfType(people: seq<Person>, t: PersonType)
    ensures Tally(people).Get(t) == 0 <==> forall i :: 0 <= i < |people| ==> people[i].kind != t
  {
    TallyCountsEachType(people, t);
    var found := IndicesOf(people, t);
    if found == {} {
      forall i | 0 <= i < |people| ensures people[i].kind != t {
        assert i !in found;
      }
    } else {
      var i :| i in found;
      assert |found| != 0;
    }
  }

  /** The loop of `output` (main.js 217-230): start every count at zero
      and add one for each person's type. */
  method CountPeople(people: seq<Person>) returns (counts: Counts)
    ensures counts == Tally(people)
    ensures counts.susceptible + counts.infected + counts.recovered == |people|
    ensures forall t :: counts.Get(t) == |IndicesOf(people, t)|
  {
    counts := Zero;
    var i := 0;
    while i < |people|
      invariant 0 <= i <= |people|
      invariant counts == Tally(people[..i])
    {
      assert people[..i + 1][..i] == people[..i];
      counts := counts.Add(people[i].kind);
      i := i + 1;
    }
    assert people[..i] == people;
    forall t {
      TallyCountsEachType(people, t);
    }
  }
}
