# Oral-cancer microsimulation: sequencer and OPL management

A Dafny model of the core of a discrete-event microsimulation of oral cancer. The model
has two parts.

- **The sequencer** (`Code/Sequencer.py`). It first reads three parameter tables from its
  input workbook: the estimates, the unit-cost dictionary and the nested regression
  configuration. It then runs every simulated person ("entity") through a `while True`
  loop until the entity dies (state 100) or hits an error (state 99). Each pass of the loop:
  - sets up a newly created entity;
  - resolves the dentist-access branch (state 0.1);
  - lets the clock collaborator move to the next event;
  - runs the handler of each state code in a fixed order of independent tests.

  After an entity's loop ends, the sequencer appends the entity, its resource history and
  its utility history to index-aligned result lists.
- **The OPL management processor** (`Code/SysP_OPLmanage.py`). It handles state 2.0: the
  periodic surveillance of a person with a detected oral potentially-malignant lesion.
  - A follow-up clock discharges the person to regular screening after 1825 days.
  - A lazily created counter triggers a biopsy once it reaches a per-entity interval,
    drawn uniformly from 1..10.
  - Before that interval, a visual screen can give a false positive (with probability
    1 − specificity) or miss a cancer (with probability 1 − sensitivity).
  - A detected cancer moves the entity to state 3.0, with the event stamped at the
    current time.

Modules:

| file | module | contents |
|---|---|---|
| `entities.dfy` | `Entities` | The entity record: state code, clocks, flags, lazily created OPL attributes (`Option`), append-only histories. |
| `opl_manage.dfy` | `OPLManage` | The processor's construction, one `Process` call, and lemmas about one call. |
| `surveillance.dfy` | `Surveillance` | Runs of repeated state-2.0 visits, and lemmas about whole runs. |
| `sequencer.dfy` | `Sequencer` | The per-entity loop: setup, dispatch, exit, and the cohort's result lists. |
| `tables.dfy` | `ParameterTables` | The estimate fold, the cost dictionary and the regression configuration. |

Randomness is an input. The processor's construction-time samples form a `Policy`. The
three random draws of one call form a `Draws`. The dispatch order and the rule that a
handler which moves the entity to a later-tested code runs in the same pass are proved
once, for any handler (`Sequencer.LaterCodeSamePass`, `Sequencer.OtherCodeWaits`). Each
concrete handler lemma is then an instance of those two.

Behaviour of the code worth knowing:

- **Invalid dentist-access flag.** The code sends an invalid or missing `hasDentist` to
  code 0.9, not to the error code 99. Its message says the simulation must terminate.
  But 0.9 has no handler and no `break`, so the loop goes round again.
  `Sequencer.InvalidAccessNeverExits` proves this: when the clock collaborator leaves
  code 0.9 alone, every pass continues.
- **The death event.** The death event goes to the loop-local `events` list. The cohort's
  events list is never appended to, so it stays empty (`Sequencer.SimulateRule`).
- **Resources per call.** One non-guarded call logs one or two resources: an appointment,
  and possibly a biopsy.
- **One processor per pass.** The OPL processor is rebuilt in every pass. So its
  construction samples belong to the pass, not to the entity. Each pass builds its policy
  from its own three samples with `OPLManage.MakePolicy`.

## Model

| member | source | states |
|---|---|---|
| OPLManage.MakePolicy | Code/SysP_OPLmanage.py:14-20 | The processor keeps the sampled sensitivity and specificity unchanged. The appointment interval is the interval sample truncated toward zero: within one day of the sample, and never further from zero. |
| OPLManage.Process | Code/SysP_OPLmanage.py:23-96 | Every call sets `OPLdetected`. Before the next scheduled event the call changes nothing else. A call never writes the simulation clock, the death times, `hasCancer`, `hasDentist` or the utility history. It keeps `currentState` consistent with the state code. |
| OPLManage.FollowUpClockRule | Code/SysP_OPLmanage.py:34-43 | `time_OPLfu` starts at 0 and grows by exactly the appointment interval while it is at most 1825. Above 1825 it is left as it is, `OPLStatus` becomes 9, and without a detection in the same call the entity returns to state 1.0 with its label. `OPLStatus` changes only then. |
| OPLManage.CounterRule | Code/SysP_OPLmanage.py:45-60 | After a non-guarded call the interval is the entity's own, or the fresh draw when it was absent or 0. Below the interval the counter goes up by one, unless a false positive resets it to 0. At the interval it is reset to 0. |
| OPLManage.CounterBounds | Code/SysP_OPLmanage.py:45-52 | From valid counters, a non-guarded call leaves an interval in [1, 10] and a count in [0, interval]. Any call keeps valid counters valid. |
| OPLManage.HistoryRule | Code/SysP_OPLmanage.py:51-92 | Each non-guarded call appends exactly one appointment to the resources. It then appends a biopsy exactly when one is performed (scheduled, false positive or true positive), stamped with the current time. An event is appended exactly when cancer is detected, with the label of the route. A guarded call leaves the resources unchanged. |
| OPLManage.DetectionRule | Code/SysP_OPLmanage.py:55-96 | Cancer found at the scheduled biopsy, or by a true-positive screen before it, sets state 3.0, its label, the detection flags and the detection time (the current time). It applies the cancer flags and does not reschedule. Any other non-guarded call moves `time_Sysp` by exactly one interval and leaves flags and treatment alone. It keeps the state and its label, except that a discharge sets 1.0 and its label. |
| Surveillance.SurveilHistory | Code/SysP_OPLmanage.py:51-92 | Over any run of visits the histories only grow, the clock never goes back, and no entry is ever stamped later than the clock. |
| Surveillance.SurveilFlags | Code/SysP_OPLmanage.py:38-92 | Over any run, valid counters stay valid, `hasCancer` is untouched, and a detection or a discharge (`OPLStatus` 9) is never undone. |
| Surveillance.NoFalsePositiveVisit | Code/SysP_OPLmanage.py:51-61 | Without cancer and with specificity at least 1, one call below the interval logs one appointment and raises the count. At the interval it logs an appointment and a biopsy and resets the count. |
| Surveillance.EntryVisit | Code/SysP_OPLmanage.py:45-61 | The first non-guarded call for a person without cancer and without counters, under a test with specificity at least 1, fixes the interval to the call's draw, sets the count to 1 and logs one appointment and no biopsy. |
| Surveillance.NoFalsePositiveCycle | Code/SysP_OPLmanage.py:45-96 | For such a person, whether they already carry counters or are just entering 2.0, one cycle does nothing, adds an appointment and one count, or adds an appointment and a biopsy at the interval and resets the count. The entry visit fixes the interval to its draw. |
| Surveillance.NoFalsePositiveBiopsies | Code/SysP_OPLmanage.py:45-96 | Over any run of such a person, from the visit that brings them into surveillance or from any later point: biopsies × (interval + 1) + final count = appointments + initial count. So every biopsy closes exactly one full interval. |
| Surveillance.SurveilOutside | Code/Sequencer.py:184-187 | Once the entity has left 2.0, later visits only move its clock: the OPL processor is not called again. |
| Surveillance.SensitiveScreenDetects | Code/SysP_OPLmanage.py:63-78 | With sensitivity at least 1, the first surveillance visit of a person with cancer moves them to 3.0 with the detection stamped at that visit's time, whatever the counter. They stay in 3.0 with those flags for the rest of the run. |
| Surveillance.DetectedWithinBudget | Code/SysP_OPLmanage.py:34-92 | A person with cancer in state 2.0 leaves surveillance within the remaining appointments before the biopsy interval plus one: in 3.0 with the cancer detected, or in 1.0 discharged with `OPLStatus` 9. |
| Surveillance.DetectedWithinElevenVisits | Code/SysP_OPLmanage.py:34-92 | So any run of eleven visits takes a person with cancer out of 2.0, detected or discharged, whatever the draws. |
| Sequencer.SetupRule | Code/Sequencer.py:141-164 | A new entity (0.0) gets its demographics, then its natural history, and then meets the dentist-access node in the same pass. Any other entity meets the node directly. No entity reaches the clock in 0.1, and the loop's events and QALY lists are untouched. |
| Sequencer.DentistNode | Code/Sequencer.py:155-164 | At 0.1, `hasDentist` 1 gives state 1.0 and 0 gives 1.8, each with its label. Any other value, or none, gives 0.9 with the label untouched. Other codes are not touched. |
| Sequencer.UnhandledUntouched | Code/Sequencer.py:174-210 | An entity in a code without a handler (0.0, 0.1, 0.9, 100, 99) passes the handler tests unchanged. |
| Sequencer.HandlerRuns | Code/Sequencer.py:174-210 | The entity's own handler runs, and the tests of the later codes follow. |
| Sequencer.LaterCodeSamePass | Code/Sequencer.py:174-210 | A handler that moves the entity to a code tested later has that code's handler run in the same pass. |
| Sequencer.OtherCodeWaits | Code/Sequencer.py:174-210 | A handler that leaves the entity in a code not tested later ends the pass's handling. That code waits for the next pass. |
| Sequencer.NoDentistDispatch | Code/Sequencer.py:180-181 | For an entity in state 1.8 after the clock, the handler tests of the pass move `time_Sysp` 1000 days on and change nothing else. What the clock collaborator does before them is not constrained. |
| Sequencer.OplDetectionDispatch | Code/Sequencer.py:184-193 | In state 2.0, a call that detects cancer hands the entity to the incident-cancer processor in the same pass. |
| Sequencer.OplOtherDispatch | Code/Sequencer.py:184-187 | For an entity in state 2.0 after the clock, any other call (guarded, a plain appointment, a discharge to 1.0) is all the handler tests of that pass do. A discharged entity is screened in the next pass if that pass's clock leaves it in 1.0. |
| Sequencer.PassIsCycle | Code/Sequencer.py:139-187 | A pass over an entity in 2.0, whose clock moves it to its next appointment and whose OPL call does not find cancer, goes round again with exactly the entity of one surveillance cycle, under the pass's own policy and draws. |
| Sequencer.RemissionDispatch | Code/Sequencer.py:202-204 | In state 4.8 the simulation clock jumps to the natural-history death age plus 0.0001. Nothing else changes. |
| Sequencer.Finish | Code/Sequencer.py:212-223 | The loop is left exactly in states 100 and 99. Death appends `('Entity dies', time_death)` to the loop's events and `('Dead', 0, time_death)` to the entity's utility, and changes nothing else. An error, and every other code, changes nothing. |
| Sequencer.Run | Code/Sequencer.py:139-223 | A loop that finishes does so in state 100 or 99. After a death, the death is the last entry of both lists. |
| Sequencer.InvalidAccessNeverExits | Code/Sequencer.py:155-223 | An invalid dentist-access flag never leaves the loop when the clock keeps the entity in 0.9. The entity stays in invalid access through every pass. |
| Sequencer.CollectAllRule | Code/Sequencer.py:122-227 | The cohort loop keeps entity, resource and QALY lists index-aligned, keeps earlier entries, and never writes the events list. The k-th new entity is the final entity of the k-th loop, which finished in death or error. A loop that does not finish stops the cohort at that entity's index. |
| Sequencer.SimulateRule | Code/Sequencer.py:108-227 | From the empty lists, entry i of the entity list is the entity person i's own loop finished with, and the resource and QALY entries are its histories. This holds up to the first loop that does not finish, which is the loop of the person at that index. The events list stays empty. |
| ParameterTables.EstimateRowsRule | Code/Sequencer.py:30-34 | The estimate fold succeeds exactly when every row is readable. It then holds exactly the non-empty names, each with the three cells of the last row of that name. Otherwise it reports an unreadable row. |
| ParameterTables.LoadEstimatesRule | Code/Sequencer.py:30-36 | Loading the estimates succeeds exactly when every row is readable and some row is named "Parameter". The result holds every other non-empty name, with the last row's cells. |
| ParameterTables.CostTableRule | Code/Sequencer.py:88-96 | The cost dictionary exists exactly when some row's name converts to "Parameter". It keys every other row by its converted name, last row winning. |
| ParameterTables.UnnamedCostRowKept | Code/Sequencer.py:90-96 | A row with an empty name cell is kept under "None" (it is not skipped as in the estimate fold). |
| ParameterTables.RegRows | Code/Sequencer.py:48-54 | The data rows (all but the header) convert exactly when each is six cells wide. Parameter and factor become text, and the other four cells are kept. |
| ParameterTables.ConfigureKeys | Code/Sequencer.py:58-71 | The configuration holds a parameter exactly when some row names it, and a factor exactly when some row is about it. |
| ParameterTables.ConfigureLookup | Code/Sequencer.py:58-71 | Every entry `config[p][f][key]` equals an independent per-key reading taken from the last row about that factor. |
| ParameterTables.LevelLastWins | Code/Sequencer.py:66-69 | A level's `{mean, SE}` pair is the last such row's, unless a later row of that factor has no level. The mean is 0 for "ref" or missing, and SE is 0 when blank. |
| ParameterTables.WholesaleLastWins | Code/Sequencer.py:70-71 | A row without a level replaces the factor's whole dictionary with exactly vartype, mean and SE. |
| ParameterTables.VartypeFirstWins | Code/Sequencer.py:66-68 | "vartype" is written only when a level row creates the factor, so later level rows keep the first row's value. The exception is a later row whose level is the text "vartype": it overwrites that entry with its `{mean, SE}` pair, and the lemma excludes such rows. |
| ParameterTables.ConfigureNormal | Code/Sequencer.py:59-62 | No stored mean is "ref" or missing, and no stored SE or vartype is blank. |

## Left out

- Workbook reading (`openpyxl`), pickling, `numpy.save`, timing and progress prints are I/O. A sheet is given as its sequence of rows of cell values.
- Float formatting of numbers turned into text (`str(...)`) is the parameter `show`. Boolean cells are not modelled, and floats are real numbers.
- The random draws (`random.random`, `random.randint(1, 10)`, `Estimate.sample`) are parameters. Their ranges are stated as `ValidDraws`.
- The collaborators whose source is not part of this model are parameters of a pass in `Sequencer`. These are `ApplyInit`, `NatHistOCa`, `CheckTime`, `ScreenAppt`, `IncidentCancer`, `Followup`, `Terminal` and `CancerFlags`. The cancer-flags collaborator is a function on a separate `treatment` part of the entity, so the processor's own writes can be told apart from it.
- The cost and survival aggregation after the cohort loop is left out: it uses a name (`np`) the file never imports.
- A `hasDentist` attribute that was never assigned is treated as an invalid value (code 0.9). In the code, reading it would raise an error.
- Surveillance.Cycle: the clock of a surveillance run is an assumed one, not the unseen `Glb_CheckTime`. Before each visit it moves `allTime` forward to `time_Sysp` when that lies ahead, and does nothing else. The facts that the clock never goes back (`SurveilHistory`) and that every visit is non-guarded hold for this assumed clock. `Sequencer.PassIsCycle` states that a sequencer pass whose clock collaborator behaves this way is one cycle.
- Sequencer.Run: the `while True` loop is given a finite sequence of passes, one collaborator set each. A loop still running when they are used up is `OutOfFuel`. Nothing is claimed about loops that never end, beyond `InvalidAccessNeverExits`.
- The tables start from an empty estimates object; class-level attributes of `Estimates` are not part of this model.
- The loop-local `resources` list, which the sequencer creates and never uses, is not modelled.
- The error branch's prints of `currentState` are I/O and left out.
