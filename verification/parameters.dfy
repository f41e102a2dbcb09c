/** The frozen `PARAMETERS` object of the simulation and the quantities
    derived from it. */
module Parameters {

  /** An optional bound; `None` stands for the source's `Infinity`. */
  datatype Option<T> = None | Some(value: T)

  /** The three person types, in the order the source declares them. */
  datatype PersonType = Susceptible | Infected | Recovered

  /** Per-type settings: how many people of the type a run starts with
      and the largest per-axis step they take. */
  datatype TypeSettings = TypeSettings(initNum: nat, maxSpeed: nat)

  datatype Params = Params(
    susceptible: TypeSettings,
    infected: TypeSettings,
    recovered: TypeSettings,
    personRadius: nat,
    percentChance: int,       // INFECTION.PERCENT_CHANCE
    infectionRadius: nat,     // INFECTION.RADIUS
    duration: Option<nat>,    // INFECTION.DURATION, None = Infinity
    width: nat,
    height: nat,
    stopWhenNoInfected: bool,
    numSteps: Option<nat>     // TIME.NUM_STEPS, None = Infinity
  )
  {
    function Settings(t: PersonType): TypeSettings {
      match t
      case Susceptible => susceptible
      case Infected => infected
      case Recovered => recovered
    }

    function MaxSpeed(t: PersonType): nat {
      Settings(t).maxSpeed
    }

    /** `NEARBY_DISTANCE`: the infection radius plus the person radius. */
    function NearbyDistance(): nat {
      infectionRadius + personRadius
    }

    /** The number of people in a run: the sum of the initial numbers of
        every type. */
    function NumPeople(): nat {
      susceptible.initNum + infected.initNum + recovered.initNum
    }

    /** The world leaves room for a person of the configured radius on
        both axes. */
    predicate FitsWorld() {
      width >= 2 * personRadius && height >= 2 * personRadius
    }
  }

  /** The values the source ships with. */
  const Default := Params(
    TypeSettings(599, 10),
    TypeSettings(1, 2),
    TypeSettings(0, 5),
    2,
    60,
    6,
    None,
    300,
    300,
    true,
    None
  )

  /** The shipped configuration leaves room for a person on both axes and
      runs with 600 people, so every in-bounds result of the model applies
      to it. */
  lemma DefaultFitsWorld()
    ensures Default.FitsWorld()
    ensures Default.NumPeople() == 600
  {
  }
}
