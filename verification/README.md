# SIR engine in Dafny

A model of the simulation engine of the agent-based SIR (susceptible /
infected / recovered) epidemic model in `main.js`. Everything the page
draws is left out. What remains is this:

- **Construction.** `reset` fills the world with `NumPeople` people.
  `Person(index)` picks a random start position and takes its type from its
  index band. It sets `nextType := type` and `infectedTimeSteps := 0`, then
  calls `move` once.
- **Movement.** `move` draws an integer velocity in
  `[-MAX_SPEED, MAX_SPEED]` on each axis, using the speed of the person's
  current type. It adds the velocity to the position and clamps the result
  into the world shrunk by the person radius.
- **Infection.** `nextTo` and `infect` decide which susceptible people an
  infected person stages as infected. `nextTo` compares distance with
  `NEARBY_DISTANCE`, and `infect` draws once per candidate against
  `PERCENT_CHANCE`.
- **Step.** `step` runs in two passes:
  - The decision pass calls `infect`, runs the recovery test and counts
    infected time.
  - The apply pass moves each person with its old type's speed, then
    commits `type := nextType`.
  - After both passes, `TimeStep` grows by one, the counting loop of
    `output` recounts the types, and the stop condition clears `IsRunning`.

The model is functional. A person is an immutable record and the population
is a sequence. The engine's globals (`People`, `TimeStep`, `PersonCounts`,
`IsRunning`) are one `State` value, and every operation is a pure function.
The configuration constants are a `Params` record. `Parameters.Default`
holds the values of the original. An infinite `DURATION` or `NUM_STEPS` is
`None`.

`Math.random()` enters the model as an injected stream `rand: nat -> real`
of values in `[0, 1)`, read through a cursor. Every operation that draws
takes the cursor and returns the advanced one. The draws are consumed in
the original's order:

- `Person` draws x, then y, then the x- and y-velocities of its first move.
- `infect` draws only for a person that is another index, susceptible and
  next to the infected one. This follows the short-circuit `&&`.
- The apply pass draws two values per person.

So a run is a pure function of the state, the stream and the cursor.

The tests the engine makes are predicates of the model:

- `Persons.NextTo` is `nextTo` (main.js:428-439).
- `Infection.Eligible` is the guard of `infect` (main.js:412-418).
- `Infection.Succeeds` is its percent test (main.js:419).
- `Engine.Recovers` is the duration test of `step` (main.js:317).
- `Engine.Finished` is the stop condition (main.js:348-349).

Each loop of `step` is a pair of functions: the pass (`DecisionPass`,
`ApplyPass`), which ends the loop or hands over to the turn, and the turn
(`DecisionTurn`, `ApplyTurn`), which is one iteration of the loop body
followed by the rest of the pass.

Modules, in dependency order:

| file | module | contents |
|---|---|---|
| random.dfy | Random | `getRandomIntLessThan` over a stream of draws |
| parameters.dfy | Parameters | person types, the `PARAMETERS` record, `NEARBY_DISTANCE`, `NumPeople` |
| persons.dfy | Persons | `Person`, `move`, `nextTo` |
| census.dfy | Census | the counting loop of `output` |
| infection.dfy | Infection | `infect` |
| engine.dfy | Engine | the decision and apply passes, `step`, `reset` |
| properties.dfy | Properties | what one step does to each person, and the invariant of a run |
| runs.dfy | Runs | properties of any number of steps |

The model keeps these behaviours of the code:

- `Math.random()` is not seeded; the model takes the draws as a parameter.
- `reset` leaves the model stopped: it calls `stop()`, so `IsRunning` is
  false.
- `step` has no "halted" state and never turns into a no-op. The stop
  condition only clears `IsRunning` and disables buttons.
- Configuration is never validated.

## Model

| member | source | states |
|---|---|---|
| Parameters.DefaultFitsWorld | main.js:18-54 | the shipped configuration leaves room for a person on both axes of the world and runs with 600 people, so the in-bounds results below apply to it |
| Random.RandomIntLessThan | main.js:194-208 | a draw scaled by a positive `max` and rounded down lies in `[0, max)`; with `max` 0 the result is 0 |
| Random.RandomIntReachesAll | main.js:194-208 | every integer in `[0, max)` is the result of some draw in `[0, 1)`, so no outcome is unreachable |
| Persons.Clamp | main.js:385-398 | in a world at least two radii wide the clamped coordinate lies in `[RADIUS, size - RADIUS]`; a coordinate already there is kept; a world too narrow puts every person at `size - RADIUS` |
| Persons.ClampIsNearest | main.js:385-398 | the clamped coordinate is the point of the allowed range nearest to the unclamped one |
| Persons.ClampStaysBetween | main.js:385-398 | clamping never takes a point further from an in-range coordinate than the unclamped point was |
| Persons.Velocity | main.js:377-379 | each velocity component lies in `[-maxSpeed, maxSpeed]`, so a speed of 0 gives velocity 0 |
| Persons.VelocityReachesAll | main.js:377-379 | every velocity in `[-maxSpeed, maxSpeed]` is produced by some draw |
| Persons.Move | main.js:372-399 | `move` takes two draws and changes only the position; in a world that fits a person the result is in bounds; from an in-bounds start each axis moves at most the speed of the current type |
| Persons.MoveUsesCurrentSpeed | main.js:374-383 | the velocity is drawn with the speed of the person's current type, and a position that is in bounds after adding it is left unchanged |
| Persons.StillWhenSpeedZero | main.js:374-383 | an in-bounds person whose type has speed 0 does not move |
| Persons.NextToIsDistanceTest | main.js:428-439 | the squared integer comparison holds exactly when the Euclidean distance is at most `NEARBY_DISTANCE` |
| Persons.NextToIsSymmetric | main.js:428-439 | proximity does not depend on which of the two people asks |
| Persons.InitialKind | main.js:165-179 | indices below `SUSCEPTIBLE.INIT_NUM` are susceptible, the next `INFECTED.INIT_NUM` infected, and the rest recovered, each as an if-and-only-if |
| Persons.NewPerson | main.js:152-190 | a new person has the given index, the type of its index band, `nextType == type` and no infected time; it takes four draws; in a world that fits it, it starts in bounds |
| Census.Counts.Add | main.js:230 | `PersonCounts[type]++` adds one to the count of that type and leaves the other two counts alone |
| Census.Tally | main.js:217-231 | the three counts add up to the number of people |
| Census.TallyCountsEachType | main.js:217-231 | each count equals the number of positions holding a person of that type |
| Census.NoneOfType | main.js:348 | a type's count is 0 exactly when nobody has that type |
| Census.CountPeople | main.js:216-231 | the counting loop of `output` produces, for every type, the number of people of that type; the counts sum to the population |
| Infection.SucceedsBelowChance | main.js:417-419 | the percent test succeeds exactly for the draws below `PERCENT_CHANCE / 100`, so it succeeds with the configured percent chance |
| Infection.ChanceExtremes | main.js:419 | a chance of 100 or more always succeeds and a chance of 0 or less never does |
| Infection.InfectFrom | main.js:405-424 | the loop of `infect` keeps the number of people and takes exactly one draw per person who is eligible: another index, susceptible and next to the infected one. What it does to each person is stated by `Infection.InfectFromAt` |
| Infection.InfectFromAt | main.js:404-424 | the loop of `infect` leaves the earlier people alone; from the start position on, each person is decided by the draw that comes after the draws of all eligible people before it |
| Infection.Infect | main.js:402-425 | `infect` changes only the staged type, and only of a susceptible person with another index who is next to the infected one, and only to infected; at a chance of 100 it stages all such people, and at a chance of 0 it changes nothing |
| Engine.DecisionPass | main.js:304-324 | the decision loop from a position on keeps the number of people and only advances the draw cursor; what it does to each person is stated by the four `Engine.DecisionPass…` lemmas and `Engine.InfectedTurn` |
| Engine.DecisionTurn | main.js:307-323 | one iteration of the decision loop followed by the rest of it keeps the number of people and only advances the draw cursor; the per-person facts are in the same lemmas |
| Engine.InfectedTurn | main.js:310-323 | an infected person's turn writes nobody's index, position or type; it adds one infected time step to that person and stages it recovered exactly when `DURATION` had elapsed; any other person is unchanged or, if eligible, staged infected; at a chance of 100 every eligible person is staged infected, and at 0 nobody else changes |
| Engine.DecisionPassKeepsBodies | main.js:303-324 | the decision pass never writes an index, position or type; exactly the people who are infected gain one infected time step; one of them is staged recovered iff its time before the step had reached `DURATION`; other people who are not susceptible keep their staged type |
| Engine.DecisionPassStagesOnlyExposed | main.js:303-324 | a susceptible person is staged infected only when a person who was infected at the start of the step may infect it |
| Engine.DecisionPassFullChance | main.js:303-324 | at a chance of 100, every susceptible person whom an infected person may infect is staged infected |
| Engine.DecisionPassNoChance | main.js:303-324 | at a chance of 0, no susceptible person's staged type changes |
| Engine.ExposedFrame | main.js:304-324 | exposure to infection reads only index, position and type, which is why the decision pass sees the state the step started from |
| Engine.Commit | main.js:330-336 | one person of the apply pass takes its staged type, keeps its index and infected time, ends in bounds in a world that fits it, and from an in-bounds start moves at most the speed of its old type on each axis |
| Engine.ApplyPass | main.js:327-337 | the apply loop from position `i` on keeps the number of people and takes exactly two draws per remaining person; what it does to each person is stated by `Engine.ApplyPassCommitsAt` and `Engine.ApplyPassCommits` |
| Engine.ApplyTurn | main.js:330-336 | one iteration of the apply loop followed by the rest of it keeps the number of people and takes two draws per remaining person |
| Engine.ApplyPassCommitsAt | main.js:326-337 | the apply pass commits every person independently, each with the two draws after those of the people before it |
| Engine.ApplyPassCommits | main.js:326-337 | every person after the apply pass is its own record committed with the two draws after those of the people before it, so the pass is the same as committing each person on its own |
| Engine.Step | main.js:301-357 | a step adds one to `TimeStep`; it keeps the number of people and their indices; afterwards every staged type equals the type; the counts are the recount and sum to the population; every position is in bounds in a world that fits the people; the model is finished iff `STOP_WHEN_NO_INFECTED` holds and nobody is infected, or `TimeStep >= NUM_STEPS`; `IsRunning` is cleared exactly then |
| Engine.Steps | main.js:301-369 | `n` steps add `n` to `TimeStep`, keep the population size, and never restart a stopped model |
| Engine.Populate | main.js:134-142 | the loop of `reset` constructs person `i` at position `i` from the four draws after those of the people before it |
| Engine.BandTally | main.js:134-142 | a population built by index bands is counted as the initial numbers, truncated to its size |
| Engine.Reset | main.js:120-149 | `reset` stops the model and sets `TimeStep` to 0; it builds `NumPeople` people indexed by position, each with the type of its index band; it establishes the run invariant; the first count equals the configured initial numbers |
| Properties.StepCommits | main.js:326-337 | after a step, each person is the decision pass's record committed with its own two draws |
| Properties.StepTransitions | main.js:301-337 | over one step a type stays the same, goes susceptible to infected, or goes infected to recovered; recovered people stay recovered; an infected person recovers iff its duration had elapsed; a person becomes infected only when someone infected was next to it, always at a chance of 100, and never at a chance of 0; only infected people gain infected time; from an in-bounds start, each move is bounded on each axis by the speed of the old type |
| Properties.StepPreservesValid | main.js:301-357 | a step keeps the run invariant: positions index the people, their number is `NumPeople`, types are committed, susceptible people have no infected time, the counts are the recount, and positions are in bounds |
| Properties.FullChanceInfectsNeighbour | main.js:310-323 | at a chance of 100, a susceptible person next to an infected person with another index is infected after one step |
| Properties.ZeroDurationRecoversAtOnce | main.js:315-319 | with `DURATION` 0, every infected person is recovered after one step |
| Properties.NoInfectedStopsAtOnce | main.js:345-357 | with `STOP_WHEN_NO_INFECTED` and nobody infected, the first step finishes the run and clears `IsRunning` |
| Runs.StepsPreserveValid | main.js:301-357 | the run invariant holds after any number of steps |
| Runs.StepsNeverRegress | main.js:310-336 | over any number of steps nobody moves back from recovered to infected or from infected to susceptible |
| Runs.NoChanceNoInfection | main.js:417-423 | at a chance of 0 the susceptible people stay exactly the susceptible people for any number of steps |
| Runs.StepLimitStops | main.js:348-357 | with a finite `NUM_STEPS`, a run that reaches it ends finished and stopped, whatever the counts |

## Left out

- `graph.js`: the Chart.js chart is presentation over a library that is not part of this model.
- Canvas drawing (`draw`) and the DOM and canvas parts of `initialize` and `output`, including the counter outputs: these are output only.
- `start`, `stop`, `startOrStop`, the `setTimeout` cadence and the enabling of buttons: scheduling and UI. Only `IsRunning` is kept. `reset` clears it, as its `stop()` call does, and the stop condition of `step` clears it. Whoever calls `step` is outside the model.
- `Math.random()`: treated as an exact real in `[0, 1)` from an injected stream. Floating-point rounding of `r * max` is not modelled.
- `Math.sqrt` and `Math.pow` in `nextTo`: replaced by the exact integer comparison of squares. `Persons.NextToIsDistanceTest` proves this agrees with the exact distance test. Rounding of the floating-point square root is not modelled.
- JavaScript numbers: modelled as unbounded integers. With the configured constants, positions and counts stay far below 2^53.
- Colours, `SHOW_PERSON_INDICES` and `MILLISECS_PER_TIME_STEP`: presentation only.
- The loop of `initialize` that sums `NumPeople` is `Parameters.Params.NumPeople`, a plain sum with no contract of its own.
