/** The simulated individual ("entity") of the oral-cancer model: its health-state code,
    clocks, flags, lazily created counters and append-only history lists.

    Attributes that the program creates on first write are `Option` fields here:
    `None` stands for "attribute not yet present". */
module Entities {

  datatype Option<T> = None | Some(value: T) {

    /** The value, or `default` when absent (the program's `getattr(entity, name, default)`). */
    function GetOr(default: T): T {
      if Some? then value else default
    }
  }

  /** The closed set of health-state codes. The constructor name spells the numeric tag
      the program uses: `S1_8` is 1.8, `S100` is 100. `S0_9` is the code the
      dentist branch writes for an invalid access flag; no handler exists for it. */
  datatype StateCode =
    | S0_0   // newly created
    | S0_1   // dentist-access branch
    | S0_9   // invalid access flag
    | S1_0   // regular dental screening
    | S1_8   // no access to a dentist
    | S2_0   // OPL under surveillance
    | S3_0   // invasive cancer detected
    | S4_0   // post-treatment follow-up
    | S4_8   // long-term remission
    | S5_0   // terminal / palliative care
    | S100   // dead
    | S99    // error

  const ScreeningLabel := "1.0 - Undergoing regular dental screening"
  const NoDentistLabel := "1.8 - No access to dentist"
  const CancerLabel := "3.0 - Invasive cancer detected"

  /** The human-readable label the core itself writes for a state code, when it writes one. */
  function LabelOf(code: StateCode): Option<string> {
    match code
    case S1_0 => Some(ScreeningLabel)
    case S1_8 => Some(NoDentistLabel)
    case S3_0 => Some(CancerLabel)
    case _ => None
  }

  /** `currentState` describes `stateNum`, for every code whose label the core writes. */
  predicate LabelConsistent(e: Entity) {
    LabelOf(e.state).Some? ==> e.currentState == LabelOf(e.state).value
  }

  /** A `(name, time)` entry of the `resources` or `events` history. */
  datatype Stamp = Stamp(name: string, time: real)

  /** A `(name, utility, time)` entry of the `utility` history. */
  datatype UtilityEntry = UtilityEntry(name: string, value: real, time: real)

  /** Attributes that only the cancer-flags collaborator writes. */
  type Treatment = map<string, int>

  /** Simulation clock, next scheduled system-process time, and the death times set by the
      natural-history collaborator. */
  datatype Clock = Clock(allTime: real, timeSysp: real, timeDeath: real, natHistDeathAge: real)

  /** Access and disease flags; `hasDentist` is `None` when never assigned. */
  datatype Flags = Flags(
    hasDentist: Option<int>,
    hasCancer: int,
    cancerDetected: int,
    cancerScreenDetected: int,
    timeCancerDetected: Option<real>)

  /** Attributes of OPL follow-up: `OPLdetected`, `OPLStatus`, `time_OPLfu`,
      `count_BiopsyInt` and `OPLscreenInt`. */
  datatype OplRecord = OplRecord(
    detected: int,
    status: Option<int>,
    timeFU: Option<int>,
    countBiopsyInt: Option<int>,
    screenInt: Option<int>)

  /** The append-only histories. */
  datatype History = History(resources: seq<Stamp>, events: seq<Stamp>, utility: seq<UtilityEntry>)

  datatype Entity = Entity(
    state: StateCode,
    currentState: string,
    clock: Clock,
    flags: Flags,
    opl: OplRecord,
    history: History,
    treatment: Treatment)

  /** Every entry of `added` carries timestamp `t`. */
  predicate StampedAt(added: seq<Stamp>, t: real) {
    forall i :: 0 <= i < |added| ==> added[i].time == t
  }

  /** No entry of `h` is later than `t`. */
  predicate StampsUpTo(h: seq<Stamp>, t: real) {
    forall i :: 0 <= i < |h| ==> h[i].time <= t
  }

  /** Number of entries of `h` named `name`. */
  function Occurrences(h: seq<Stamp>, name: string): nat {
    if |h| == 0 then 0
    else Occurrences(h[..|h| - 1], name) + (if h[|h| - 1].name == name then 1 else 0)
  }

  /** Counting distributes over appending one history to another. */
  lemma {:induction false} OccurrencesAppend(a: seq<Stamp>, b: seq<Stamp>, name: string)
    ensures Occurrences(a + b, name) == Occurrences(a, name) + Occurrences(b, name)
    decreases |b|
  {
    if |b| == 0 {
      assert a + b == a;
    } else {
      assert (a + b)[..|a + b| - 1] == a + b[..|b| - 1];
      OccurrencesAppend(a, b[..|b| - 1], name);
    }
  }

}
