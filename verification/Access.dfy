/** The write-access probe as a state machine: a durable record, a conditional creation, a
    conditional deletion, with other writers on the remote and crashes anywhere. */
module Access {
  import opened Strings
  import opened ImageRefs
  import opened Storage

  /** A reference of a remote, by the address of the remote and the name of the reference. */
  datatype Key = Key(origin: string, ref: string)

  datatype Record = Record(ref: string, revision: string)

  /** Why a clean-up runs: for a record left by an earlier operation, or for this probe, whose
      creation was answered with `created`. */
  datatype Purpose = Leftover | Probe(created: bool)

  datatype Phase =
    | Idle
    | Cleaning(origin: string, branch: string, record: Record, purpose: Purpose)
    | Deleting(origin: string, branch: string, record: Record, purpose: Purpose)
    | Deleted(origin: string, branch: string, record: Record, purpose: Purpose)
    | Absent(origin: string, branch: string, record: Record, purpose: Purpose)
    | Clear(origin: string, branch: string)
    | Listed(origin: string, branch: string, names: set<string>, revision: string)
    | Recorded(origin: string, branch: string, record: Record)

  /** A push that was not answered and may still take effect, also after the process died. */
  datatype Late = LateCreation(key: Key, revision: string) | LateDeletion(key: Key, revision: string)

  /** How a push is answered: in time, with what it did, or not at all while it may still take effect. */
  datatype Delivery = InTime(effect: bool, ok: bool) | Delayed

  /** `owned` are the references that a creation by this program made in time, with the revision it
      gave them, `strays` those that a creation made late; both for as long as they exist, moved by
      others or not. `late` are the pushes that may still land. */
  datatype State = State(
    refs: map<Key, string>, records: map<string, Record>, owned: map<Key, string>, strays: set<Key>, late: set<Late>, phase: Phase,
    granted: Option<(string, string)>)

  datatype Step =
    | Foreign(key: Key, to: Option<string>)
    | Land(push: Late)
    | Lose(push: Late)
    | Crash
    | Begin(origin: string, branch: string)
    | Abandon
    | List
    | Insert(nonce: string, write: Write)
    | Create(delivery: Delivery)
    | Look
    | Delete(delivery: Delivery)
    | LookAgain
    | Forget(write: Write)

  // ----- names -----

  const HEADS := "refs/heads/"
  const PREFIX := "refs/heads/git-updater-verify/"

  predicate HexChar(c: char) {
    '0' <= c <= '9' || 'a' <= c <= 'f' || 'A' <= c <= 'F'
  }

  predicate IsNonce(s: string) {
    |s| == 32 && forall i :: 0 <= i < |s| ==> HexChar(s[i])
  }

  predicate IsHash(s: string) {
    (|s| == 40 || |s| == 64) && forall i :: 0 <= i < |s| ==> HexChar(s[i])
  }

  predicate IsProbeRef(ref: string) {
    HasPrefix(ref, PREFIX) && IsNonce(ref[|PREFIX|..])
  }

  function ProbeRef(nonce: string): string {
    PREFIX + nonce
  }

  lemma ProbeRefIsOne(nonce: string)
    requires IsNonce(nonce)
    ensures IsProbeRef(ProbeRef(nonce))
  {
    var prefix := PREFIX;
    assert (prefix + nonce)[|prefix|..] == nonce;
  }

  predicate RecordOk(r: Record) {
    IsProbeRef(r.ref) && IsHash(r.revision)
  }

  function NamesAt(refs: map<Key, string>, origin: string): set<string> {
    set k | k in refs && k.origin == origin :: k.ref
  }

  // ----- steps -----

  function KeyOf(p: Phase): Key
    requires p.Cleaning? || p.Deleting? || p.Deleted? || p.Absent? || p.Recorded?
  {
    Key(p.origin, p.record.ref)
  }

  function Without<K, V>(m: map<K, V>, k: K): map<K, V> {
    map x | x in m && x != k :: m[x]
  }

  /** A late push does what it would have done in time, if its condition still holds. */
  function AfterLanding(s: State, push: Late): State {
    match push
    case LateCreation(key, revision) =>
      if key in s.refs then s else s.(refs := s.refs[key := revision], strays := s.strays + {key})
    case LateDeletion(key, revision) =>
      if key in s.refs && s.refs[key] == revision
      then s.(refs := Without(s.refs, key), owned := Without(s.owned, key), strays := s.strays - {key}) else s
  }

  /** Somebody else creates, moves or deletes a reference; a late push lands or is lost; the process dies. */
  ghost predicate OutsideStep(s: State, s': State, step: Step) {
    match step
    case Foreign(key, to) =>
      && (to.Some? ==> IsHash(to.value))
      && s' == if to.Some? then s.(refs := s.refs[key := to.value])
               else s.(refs := Without(s.refs, key), owned := Without(s.owned, key), strays := s.strays - {key})
    case Land(push) => push in s.late && s' == AfterLanding(s, push).(late := s.late - {push})
    case Lose(push) => s' == s.(late := s.late - {push})
    case Crash => s' == s.(phase := Idle, granted := None)
    case _ => false
  }

  /** Up to the durable record. */
  ghost predicate PrepareStep(s: State, s': State, step: Step) {
    match step
    case Begin(origin, branch) =>
      && s.phase == Idle
      && s' == s.(phase := if origin in s.records then Cleaning(origin, branch, s.records[origin], Leftover) else Clear(origin, branch))
    case Abandon => !s.phase.Recorded? && s' == s.(phase := Idle)
    case List =>
      && s.phase.Clear?
      && var target := Key(s.phase.origin, HEADS + s.phase.branch);
         s' == if target in s.refs
               then s.(phase := Listed(s.phase.origin, s.phase.branch, NamesAt(s.refs, s.phase.origin), s.refs[target]))
               else s.(phase := Idle)
    case Insert(nonce, write) =>
      && s.phase.Listed? && IsNonce(nonce) && ProbeRef(nonce) !in s.phase.names
      && var record := Record(ProbeRef(nonce), s.phase.revision);
         s' == s.(records := if write == Refused then s.records else s.records[s.phase.origin := record],
                  phase := if write == Done then Recorded(s.phase.origin, s.phase.branch, record) else Idle)
    case _ => false
  }

  /** The push that creates the probe, on the condition that the name is unused. */
  ghost predicate CreateStep(s: State, s': State, step: Step) {
    match step
    case Create(delivery) =>
      && s.phase.Recorded?
      && var key, revision := KeyOf(s.phase), s.phase.record.revision;
         var next := Cleaning(s.phase.origin, s.phase.branch, s.phase.record, Probe(delivery.InTime? && delivery.ok));
         (match delivery
          case InTime(effect, ok) =>
            && (ok ==> effect) && (effect ==> key !in s.refs)
            && s' == if effect then s.(refs := s.refs[key := revision], owned := s.owned[key := revision], phase := next) else s.(phase := next)
          case Delayed => s' == s.(late := s.late + {LateCreation(key, revision)}, phase := next))
    case _ => false
  }

  /** Cleaning up: look, delete on the condition that nothing changed, look again, forget. */
  ghost predicate CleanStep(s: State, s': State, step: Step) {
    var p := s.phase;
    match step
    case Look =>
      && p.Cleaning?
      && s' == s.(phase := if KeyOf(p) !in s.refs then Absent(p.origin, p.branch, p.record, p.purpose)
                           else if s.refs[KeyOf(p)] == p.record.revision then Deleting(p.origin, p.branch, p.record, p.purpose)
                           else Idle)
    case Delete(delivery) =>
      && p.Deleting?
      && (match delivery
          case InTime(effect, ok) =>
            && (ok ==> effect) && (effect ==> KeyOf(p) in s.refs && s.refs[KeyOf(p)] == p.record.revision)
            && var next := if ok then Deleted(p.origin, p.branch, p.record, p.purpose) else Idle;
               s' == if effect
                     then s.(refs := Without(s.refs, KeyOf(p)), owned := Without(s.owned, KeyOf(p)), strays := s.strays - {KeyOf(p)}, phase := next)
                     else s.(phase := next)
          case Delayed => s' == s.(late := s.late + {LateDeletion(KeyOf(p), p.record.revision)}, phase := Idle))
    case LookAgain =>
      && p.Deleted?
      && s' == s.(phase := if KeyOf(p) in s.refs then Idle else Absent(p.origin, p.branch, p.record, p.purpose))
    case Forget(write) =>
      && p.Absent?
      && s' == s.(records := if write == Refused then s.records else Without(s.records, p.origin),
                  phase := if write == Done && p.purpose == Leftover then Clear(p.origin, p.branch) else Idle,
                  granted := if write == Done && p.purpose == Probe(true) then Some((p.origin, p.branch)) else s.granted)
    case _ => false
  }

  ghost predicate NextStep(s: State, s': State, step: Step) {
    OutsideStep(s, s', step) || PrepareStep(s, s', step) || CreateStep(s, s', step) || CleanStep(s, s', step)
  }

  ghost predicate Init(s: State) {
    s.records == map[] && s.owned == map[] && s.strays == {} && s.late == {} && s.phase == Idle && s.granted == None && forall k :: k in s.refs ==> IsHash(s.refs[k])
  }

  ghost predicate IsRun(run: seq<State>, steps: seq<Step>) {
    && |run| == |steps| + 1 && Init(run[0])
    && forall i :: 0 <= i < |steps| ==> NextStep(run[i], run[i + 1], steps[i])
  }

  // ----- the invariant -----

  /** A probe that was made in time and still exists is in the durable table, at the revision it
      was made at. */
  ghost predicate OwnedOk(s: State) {
    forall k :: k in s.owned ==> k in s.refs && k.origin in s.records && s.records[k.origin] == Record(k.ref, s.owned[k])
  }

  ghost predicate WellFormed(s: State) {
    (forall k :: k in s.refs ==> IsHash(s.refs[k])) && (forall o :: o in s.records ==> RecordOk(s.records[o]))
  }

  /** Late pushes are about probes; a stray is what a late creation made of it. */
  ghost predicate LateOk(s: State) {
    && (forall push :: push in s.late ==> IsProbeRef(push.key.ref) && IsHash(push.revision))
    && (forall k :: k in s.strays ==> k in s.refs && IsProbeRef(k.ref))
  }

  ghost predicate PhaseOk(s: State) {
    match s.phase
    case Idle => true
    case Clear(origin, _) => origin !in s.records
    case Listed(origin, branch, names, revision) => origin !in s.records && HEADS + branch in names && IsHash(revision)
    case Recorded(origin, branch, record) =>
      && origin in s.records && s.records[origin] == record && Key(origin, record.ref) !in s.owned && record.ref != HEADS + branch
    case Cleaning(origin, _, record, _) => origin in s.records && s.records[origin] == record
    case Deleting(origin, _, record, _) => origin in s.records && s.records[origin] == record
    case Deleted(origin, _, record, _) => origin in s.records && s.records[origin] == record
    case Absent(origin, _, record, _) => origin in s.records && s.records[origin] == record && Key(origin, record.ref) !in s.owned
  }

  ghost predicate Inv(s: State) {
    OwnedOk(s) && WellFormed(s) && LateOk(s) && PhaseOk(s)
  }

  lemma OutsideKeeps(s: State, s': State, step: Step)
    requires Inv(s) && OutsideStep(s, s', step)
    ensures Inv(s')
  {
    hide IsHash, IsProbeRef, AfterLanding;
    if step.Land? {
      LandingKeeps(s, step.push);
    }
  }

  lemma LandingKeeps(s: State, push: Late)
    requires Inv(s) && push in s.late
    ensures Inv(AfterLanding(s, push).(late := s.late - {push}))
  {
    hide IsHash, IsProbeRef;
  }

  lemma PrepareKeeps(s: State, s': State, step: Step)
    requires Inv(s) && PrepareStep(s, s', step)
    ensures Inv(s')
  {
    hide IsHash, IsProbeRef, IsNonce, ProbeRef;
    if step.Insert? {
      ProbeRefIsOne(step.nonce);
    }
  }

  lemma CreateKeeps(s: State, s': State, step: Step)
    requires Inv(s) && CreateStep(s, s', step)
    ensures Inv(s')
  {
    hide IsHash, IsProbeRef;
  }

  lemma CleanKeeps(s: State, s': State, step: Step)
    requires Inv(s) && CleanStep(s, s', step)
    ensures Inv(s')
  {
    hide IsHash, IsProbeRef;
  }

  lemma {:induction false} RunInvariant(run: seq<State>, steps: seq<Step>, n: nat)
    requires IsRun(run, steps) && n < |run|
    ensures Inv(run[n])
  {
    hide Inv, OutsideStep, PrepareStep, CreateStep, CleanStep;
    if n == 0 {
      StartIsOk(run[0]);
    } else {
      RunInvariant(run, steps, n - 1);
      assert NextStep(run[n - 1], run[n - 1 + 1], steps[n - 1]);
      if OutsideStep(run[n - 1], run[n], steps[n - 1]) {
        OutsideKeeps(run[n - 1], run[n], steps[n - 1]);
      } else if PrepareStep(run[n - 1], run[n], steps[n - 1]) {
        PrepareKeeps(run[n - 1], run[n], steps[n - 1]);
      } else if CreateStep(run[n - 1], run[n], steps[n - 1]) {
        CreateKeeps(run[n - 1], run[n], steps[n - 1]);
      } else {
        CleanKeeps(run[n - 1], run[n], steps[n - 1]);
      }
    }
  }

  lemma StartIsOk(s: State)
    requires Init(s)
    ensures Inv(s)
  {
  }

  // ----- whole runs -----

  /** The step creates the reference: a creation that took effect in time, or one that landed late. */
  predicate Creates(s: State, step: Step, k: Key) {
    || (step.Create? && step.delivery.InTime? && step.delivery.effect && s.phase.Recorded? && KeyOf(s.phase) == k)
    || (step.Land? && step.push.LateCreation? && step.push.key == k && k !in s.refs)
  }

  /** Step `i` created the reference, and it exists without interruption up to state `n`. */
  ghost predicate MadeAt(run: seq<State>, steps: seq<Step>, i: int, n: nat, k: Key)
    requires n < |run| == |steps| + 1
  {
    0 <= i < n && Creates(run[i], steps[i], k) && forall m :: i < m <= n ==> k in run[m].refs
  }

  lemma StepMakes(s: State, s': State, step: Step, k: Key)
    requires Inv(s) && NextStep(s, s', step)
    ensures k in s'.owned <==> (step.Create? && Creates(s, step, k)) || (k in s.owned && k in s'.refs)
    ensures k in s'.strays <==> (step.Land? && Creates(s, step, k)) || (k in s.strays && k in s'.refs)
    ensures Creates(s, step, k) ==> k !in s.refs && k in s'.refs
    ensures step.Create? && Creates(s, step, k) ==> s'.owned[k] == s.phase.record.revision
    ensures k in s.owned && k in s'.owned ==> s'.owned[k] == s.owned[k]
  {
    hide IsProbeRef, IsHash, WellFormed, PhaseOk, OutsideStep, PrepareStep, CreateStep, CleanStep;
    if step.Create? {
      CreateMakes(s, s', step, k);
    } else if step.Delete? {
      DeleteMakes(s, s', step, k);
    } else {
      OtherStepsMake(s, s', step, k);
    }
  }

  lemma CreateMakes(s: State, s': State, step: Step, k: Key)
    requires NextStep(s, s', step) && step.Create?
    ensures s'.strays == s.strays
    ensures Creates(s, step, k) ==> k !in s.refs && k in s'.refs && k in s'.owned && s'.owned[k] == s.phase.record.revision
    ensures !Creates(s, step, k) ==> (k in s'.owned <==> k in s.owned) && (k in s'.refs <==> k in s.refs) && (k in s.owned ==> s'.owned[k] == s.owned[k])
  {
  }

  lemma DeleteMakes(s: State, s': State, step: Step, k: Key)
    requires NextStep(s, s', step) && step.Delete?
    ensures (k in s'.owned <==> k in s.owned && (s' == s.(phase := s'.phase, late := s'.late) || k != KeyOf(s.phase)))
    ensures (k in s'.refs <==> k in s.refs && (s' == s.(phase := s'.phase, late := s'.late) || k != KeyOf(s.phase)))
    ensures (k in s'.strays <==> k in s.strays && (s' == s.(phase := s'.phase, late := s'.late) || k != KeyOf(s.phase)))
    ensures k in s'.owned ==> s'.owned[k] == s.owned[k]
  {
  }

  lemma OtherStepsMake(s: State, s': State, step: Step, k: Key)
    requires NextStep(s, s', step) && !step.Create? && !step.Delete? && (k in s.owned || k in s.strays ==> k in s.refs)
    ensures k in s'.owned <==> k in s.owned && k in s'.refs
    ensures k in s'.strays <==> (step.Land? && Creates(s, step, k)) || (k in s.strays && k in s'.refs)
    ensures Creates(s, step, k) ==> k !in s.refs && k in s'.refs
    ensures k in s'.owned ==> s'.owned[k] == s.owned[k]
  {
    hide OutsideStep, PrepareStep, CreateStep, CleanStep;
    if OutsideStep(s, s', step) {
      OutsideMakes(s, s', step, k);
    } else {
      RestIsStill(s, s', step, k);
    }
  }

  lemma OutsideMakes(s: State, s': State, step: Step, k: Key)
    requires OutsideStep(s, s', step) && (k in s.owned || k in s.strays ==> k in s.refs)
    ensures k in s'.owned <==> k in s.owned && k in s'.refs
    ensures k in s'.strays <==> (step.Land? && Creates(s, step, k)) || (k in s.strays && k in s'.refs)
    ensures Creates(s, step, k) ==> k !in s.refs && k in s'.refs
    ensures k in s'.owned ==> s'.owned[k] == s.owned[k]
  {
    hide IsHash;
  }

  lemma RestIsStill(s: State, s': State, step: Step, k: Key)
    requires NextStep(s, s', step) && !step.Create? && !step.Delete? && !OutsideStep(s, s', step)
    ensures s'.refs == s.refs && s'.owned == s.owned && s'.strays == s.strays && !step.Land? && !Creates(s, step, k)
  {
    hide IsNonce, ProbeRef, NamesAt, Without;
  }

  /** The references that a creation made and that still exist are exactly the owned ones and the
      strays, whatever others did to them. */
  lemma {:induction false} MadeExactly(run: seq<State>, steps: seq<Step>, n: nat, k: Key)
    requires IsRun(run, steps) && n < |run|
    ensures k in run[n].owned <==> exists i :: MadeAt(run, steps, i, n, k) && steps[i].Create?
    ensures k in run[n].strays <==> exists i :: MadeAt(run, steps, i, n, k) && steps[i].Land?
    decreases n
  {
    hide NextStep, Inv, Creates, Init;
    if n == 0 {
      NothingAtFirst(run[0]);
    } else {
      RunInvariant(run, steps, n - 1);
      assert NextStep(run[n - 1], run[n - 1 + 1], steps[n - 1]);
      MadeExactly(run, steps, n - 1, k);
      StepMakes(run[n - 1], run[n], steps[n - 1], k);
      MadeSince(run, steps, n, k);
      RunInvariant(run, steps, n);
      MadeExist(run[n]);
    }
  }

  lemma MadeSince(run: seq<State>, steps: seq<Step>, n: nat, k: Key)
    requires 0 < n < |run| == |steps| + 1
    ensures MadeAt(run, steps, n - 1, n, k) <==> Creates(run[n - 1], steps[n - 1], k) && k in run[n].refs
    ensures forall i :: i != n - 1 ==> (MadeAt(run, steps, i, n, k) <==> MadeAt(run, steps, i, n - 1, k) && k in run[n].refs)
  {
    hide Creates;
  }

  lemma MadeExist(s: State)
    requires Inv(s)
    ensures forall k :: k in s.owned || k in s.strays ==> k in s.refs
  {
    hide IsHash, IsProbeRef;
  }

  /** However an operation or the process ended, and whoever moved it: a probe that a creation of this
      program made in time and that still exists is on record by name, with the revision it was made
      at, and there is at most one for a remote. */
  lemma NoStrayProbe(run: seq<State>, steps: seq<Step>, i: nat, n: nat, k: Key)
    requires IsRun(run, steps) && n < |run| && MadeAt(run, steps, i, n, k) && steps[i].Create?
    ensures run[i].phase.Recorded? && IsProbeRef(k.ref) && k.origin in run[n].records && run[n].records[k.origin] == run[i].phase.record
    ensures forall j, other :: MadeAt(run, steps, j, n, other) && steps[j].Create? && other.origin == k.origin ==> other == k
    ensures (forall m :: i < m < n ==> !(steps[m].Foreign? && steps[m].key == k)) ==> run[n].refs[k] == run[i].phase.record.revision
  {
    hide NextStep, IsProbeRef, IsHash, Init;
    RunInvariant(run, steps, n);
    OwnedSince(run, steps, i, n, k);
    forall j, other | MadeAt(run, steps, j, n, other) && steps[j].Create? && other.origin == k.origin
      ensures other == k
    {
      MadeExactly(run, steps, n, other);
    }
  }

  lemma {:induction false} OwnedSince(run: seq<State>, steps: seq<Step>, i: nat, n: nat, k: Key)
    requires IsRun(run, steps) && n < |run| && MadeAt(run, steps, i, n, k) && steps[i].Create?
    ensures Creates(run[i], steps[i], k) && k in run[n].owned && run[n].owned[k] == run[i].phase.record.revision
    ensures (forall m :: i < m < n ==> !(steps[m].Foreign? && steps[m].key == k)) ==> run[n].refs[k] == run[i].phase.record.revision
    decreases n
  {
    hide NextStep, Inv, Init, IsProbeRef, IsHash;
    RunInvariant(run, steps, n - 1);
    assert NextStep(run[n - 1], run[n - 1 + 1], steps[n - 1]);
    StepMakes(run[n - 1], run[n], steps[n - 1], k);
    MadeExist(run[n - 1]);
    if !(steps[n - 1].Foreign? && steps[n - 1].key == k) {
      OnlyOthersMove(run[n - 1], run[n], steps[n - 1], k);
    }
    if i < n - 1 {
      OwnedSince(run, steps, i, n - 1, k);
    }
  }

  lemma OnlyOthersMove(s: State, s': State, step: Step, k: Key)
    requires NextStep(s, s', step) && k in s'.refs && !(step.Foreign? && step.key == k)
    ensures k in s.refs ==> s'.refs[k] == s.refs[k]
    ensures k !in s.refs && step.Create? ==> s'.refs[k] == s.phase.record.revision
  {
    hide IsProbeRef, IsHash, IsNonce, ProbeRef, NamesAt;
  }

  predicate Sends(s: State, step: Step, push: Late) {
    && (if push.LateCreation? then step == Create(Delayed) && s.phase.Recorded? else step == Delete(Delayed) && s.phase.Deleting?)
    && KeyOf(s.phase) == push.key && s.phase.record.revision == push.revision
  }

  lemma NewLateIsSent(s: State, s': State, step: Step, push: Late)
    requires NextStep(s, s', step) && push in s'.late && push !in s.late
    ensures Sends(s, step, push)
  {
    hide IsProbeRef, IsHash, IsNonce, ProbeRef, NamesAt, Without;
  }

  /** The step that sent an unanswered push: it was about the probe on record. */
  lemma {:induction false} LateWasSent(run: seq<State>, steps: seq<Step>, n: nat, push: Late) returns (i: nat)
    requires IsRun(run, steps) && n < |run| && push in run[n].late
    ensures i < n && Sends(run[i], steps[i], push)
    ensures push.key.origin in run[i].records && run[i].records[push.key.origin] == Record(push.key.ref, push.revision)
    decreases n
  {
    hide NextStep, Init, IsProbeRef, IsHash;
    assert n > 0 by {
      NothingAtFirst(run[0]);
    }
    assert NextStep(run[n - 1], run[n - 1 + 1], steps[n - 1]);
    if push in run[n - 1].late {
      i := LateWasSent(run, steps, n - 1, push);
    } else {
      i := n - 1;
      NewLateIsSent(run[i], run[n], steps[i], push);
      RunInvariant(run, steps, i);
    }
  }

  lemma LandedWasLate(s: State, s': State, step: Step)
    requires NextStep(s, s', step) && step.Land?
    ensures step.push in s.late
  {
  }

  /** The exact residue: a probe of this program that may exist without a record was made by a
      creation that was never confirmed, and landed after it was given up. */
  lemma {:induction false} StrayIsUnconfirmed(run: seq<State>, steps: seq<Step>, n: nat, k: Key) returns (i: nat, j: nat)
    requires IsRun(run, steps) && n < |run| && k in run[n].strays
    ensures i < j < n && steps[i] == Create(Delayed) && run[i].phase.Recorded? && KeyOf(run[i].phase) == k
    ensures steps[j].Land? && steps[j].push.LateCreation? && steps[j].push.key == k && k !in run[j].refs
    decreases n
  {
    hide NextStep, Inv, Init;
    assert n > 0 by {
      NothingAtFirst(run[0]);
    }
    assert NextStep(run[n - 1], run[n - 1 + 1], steps[n - 1]);
    RunInvariant(run, steps, n - 1);
    StepMakes(run[n - 1], run[n], steps[n - 1], k);
    if k in run[n - 1].strays {
      i, j := StrayIsUnconfirmed(run, steps, n - 1, k);
    } else {
      j := n - 1;
      LandedWasLate(run[j], run[n], steps[j]);
      i := LateWasSent(run, steps, j, steps[j].push);
    }
  }

  /** The residue is real: wherever a probe is about to be created, an unanswered creation may land
      after the clean-up that follows found nothing and deleted the record. */
  lemma UnconfirmedMayStay(s: State) returns (run: seq<State>)
    requires s.phase.Recorded? && KeyOf(s.phase) !in s.refs
    ensures |run| == 5 && run[0] == s
    ensures var steps := [Create(Delayed), Look, Forget(Done), Land(LateCreation(KeyOf(s.phase), s.phase.record.revision))];
            forall i :: 0 <= i < 4 ==> NextStep(run[i], run[i + 1], steps[i])
    ensures KeyOf(s.phase) in run[4].strays && KeyOf(s.phase) in run[4].refs && s.phase.origin !in run[4].records
  {
    hide IsProbeRef, IsHash, IsNonce, ProbeRef;
    var key, p := KeyOf(s.phase), s.phase;
    var push := LateCreation(key, p.record.revision);
    var sent := s.(late := s.late + {push}, phase := Cleaning(p.origin, p.branch, p.record, Probe(false)));
    var looked := sent.(phase := Absent(p.origin, p.branch, p.record, Probe(false)));
    var forgotten := looked.(records := Without(s.records, p.origin), phase := Idle);
    var landed := AfterLanding(forgotten, push).(late := forgotten.late - {push});
    assert CreateStep(s, sent, Create(Delayed));
    assert CleanStep(sent, looked, Look);
    assert CleanStep(looked, forgotten, Forget(Done));
    assert OutsideStep(forgotten, landed, Land(push));
    run := [s, sent, looked, forgotten, landed];
  }

  predicate LateCreationLands(step: Step) {
    step.Land? && step.push.LateCreation?
  }

  /** So without a late creation every probe of this program that still exists is on record. */
  lemma AllRecordedWithoutLateCreations(run: seq<State>, steps: seq<Step>, i: nat, n: nat, k: Key)
    requires IsRun(run, steps) && n < |run| && MadeAt(run, steps, i, n, k)
    requires forall j :: 0 <= j < n ==> !LateCreationLands(steps[j])
    ensures run[i].phase.Recorded? && KeyOf(run[i].phase) == k
    ensures k.origin in run[n].records && run[n].records[k.origin] == run[i].phase.record
  {
    hide NextStep, IsProbeRef, Init;
    assert !LateCreationLands(steps[i]) && Creates(run[i], steps[i], k);
    NoStrayProbe(run, steps, i, n, k);
  }

  /** What a step of this program may do to the references of remotes. */
  ghost predicate TouchesProbeOnly(s: State, s': State) {
    || s'.refs == s.refs
    || exists o :: o in s.records && ChangesProbe(s, s', o)
  }

  ghost predicate ChangesProbe(s: State, s': State, o: string)
    requires o in s.records
  {
    var k := Key(o, s.records[o].ref);
    && IsProbeRef(k.ref)
    && ((k !in s.refs && s'.refs == s.refs[k := s.records[o].revision])
        || (k in s.refs && s.refs[k] == s.records[o].revision && s'.refs == Without(s.refs, k)))
  }

  lemma OwnStepsTouchProbeOnly(s: State, s': State, step: Step)
    requires Inv(s) && NextStep(s, s', step) && !step.Foreign? && !step.Land?
    ensures TouchesProbeOnly(s, s')
    ensures step.Create? ==> KeyOf(s.phase) != Key(s.phase.origin, HEADS + s.phase.branch)
  {
    hide IsHash, IsProbeRef, IsNonce, ProbeRef;
    if step.Create? || step.Delete? {
      var o := s.phase.origin;
      assert RecordOk(s.records[o]);
      assert s'.refs != s.refs ==> ChangesProbe(s, s', o);
    }
  }

  /** At every instant of every run this program creates only a recorded probe where there was
      nothing, and deletes only a recorded probe that is still at its recorded revision. */
  lemma OnlyProbesChange(run: seq<State>, steps: seq<Step>, n: nat)
    requires IsRun(run, steps) && n < |steps| && !steps[n].Foreign? && !steps[n].Land?
    ensures TouchesProbeOnly(run[n], run[n + 1])
  {
    hide NextStep, Inv, TouchesProbeOnly, Init;
    RunInvariant(run, steps, n);
    assert NextStep(run[n], run[n + 1], steps[n]);
    OwnStepsTouchProbeOnly(run[n], run[n + 1], steps[n]);
  }

  /** A late push creates only where there is nothing and deletes only at its revision, and only what
      was on record under that name and revision when it was sent. */
  lemma LateProbesOnly(run: seq<State>, steps: seq<Step>, n: nat) returns (i: nat)
    requires IsRun(run, steps) && n < |steps| && steps[n].Land?
    ensures var push := steps[n].push;
            && IsProbeRef(push.key.ref) && i < n && push.key.origin in run[i].records
            && run[i].records[push.key.origin] == Record(push.key.ref, push.revision)
            && (run[n + 1].refs == run[n].refs
                || (push.LateCreation? && push.key !in run[n].refs && run[n + 1].refs == run[n].refs[push.key := push.revision])
                || (push.LateDeletion? && push.key in run[n].refs && run[n].refs[push.key] == push.revision
                    && run[n + 1].refs == Without(run[n].refs, push.key)))
  {
    hide IsProbeRef, IsHash, IsNonce, ProbeRef;
    RunInvariant(run, steps, n);
    assert NextStep(run[n], run[n + 1], steps[n]);
    i := LateWasSent(run, steps, n, steps[n].push);
  }

  ghost predicate SameAt(a: State, b: State, k: Key) {
    (k in a.refs <==> k in b.refs) && (k in a.refs ==> a.refs[k] == b.refs[k])
  }

  /** A reference that does not have the form of a probe, such as any other branch, is as others left it. */
  lemma {:induction false} OthersUntouched(run: seq<State>, steps: seq<Step>, i: nat, j: nat, k: Key)
    requires IsRun(run, steps) && i <= j < |run| && !IsProbeRef(k.ref)
    requires forall m :: i <= m < j && steps[m].Foreign? ==> steps[m].key != k
    ensures SameAt(run[i], run[j], k)
    decreases j
  {
    hide NextStep, IsProbeRef, Init;
    if i < j {
      OthersUntouched(run, steps, i, j - 1, k);
      assert NextStep(run[j - 1], run[j - 1 + 1], steps[j - 1]);
      if steps[j - 1].Foreign? {
        ForeignElsewhere(run[j - 1], run[j], steps[j - 1], k);
      } else if steps[j - 1].Land? {
        var i' := LateProbesOnly(run, steps, j - 1);
      } else {
        OnlyProbesChange(run, steps, j - 1);
      }
    }
  }

  lemma ForeignElsewhere(s: State, s': State, step: Step, k: Key)
    requires NextStep(s, s', step) && step.Foreign? && step.key != k
    ensures SameAt(s, s', k)
  {
  }

  /** Nothing is left at the remote but what a late creation made. */
  ghost predicate OnlyStraysLeft(run: seq<State>, steps: seq<Step>, n: nat, origin: string)
    requires n < |run| == |steps| + 1
  {
    forall i, k :: MadeAt(run, steps, i, n, k) && k.origin == origin ==> LateCreationLands(steps[i])
  }

  ghost predicate NothingLeft(run: seq<State>, steps: seq<Step>, n: nat, origin: string)
    requires n < |run| == |steps| + 1
  {
    forall i, k :: MadeAt(run, steps, i, n, k) ==> k.origin != origin
  }

  lemma NothingInTimeLeft(run: seq<State>, steps: seq<Step>, n: nat, origin: string)
    requires IsRun(run, steps) && n < |run| && origin !in run[n].records
    ensures OnlyStraysLeft(run, steps, n, origin)
  {
    hide NextStep, IsProbeRef, Init;
    forall i, k | MadeAt(run, steps, i, n, k) && k.origin == origin
      ensures LateCreationLands(steps[i])
    {
      if steps[i].Create? {
        NoStrayProbe(run, steps, i, n, k);
        assert false;
      }
    }
  }

  lemma NoStraysWithoutLate(run: seq<State>, steps: seq<Step>, n: nat, origin: string)
    requires n < |run| == |steps| + 1 && OnlyStraysLeft(run, steps, n, origin)
    ensures (forall j :: 0 <= j < n ==> !LateCreationLands(steps[j])) ==> NothingLeft(run, steps, n, origin)
  {
    hide Creates;
  }

  /** Access is granted only when the record is gone and the creation of this probe was confirmed;
      then no probe made in time is left at that remote, moved by others or not. What is left of this
      program was made by a creation that was never confirmed, so nothing is left without one. */
  lemma GrantLeavesNothing(run: seq<State>, steps: seq<Step>, n: nat)
    requires IsRun(run, steps) && n < |steps| && run[n + 1].granted.Some? && run[n + 1].granted != run[n].granted
    ensures var origin := run[n + 1].granted.value.0;
            && origin !in run[n + 1].records && OnlyStraysLeft(run, steps, n + 1, origin)
            && run[n].phase.Absent? && run[n].phase.purpose == Probe(true) && run[n].phase.origin == origin
            && ((forall j :: 0 <= j <= n ==> !LateCreationLands(steps[j])) ==> NothingLeft(run, steps, n + 1, origin))
  {
    hide IsProbeRef, IsHash, IsNonce, MadeAt;
    RunInvariant(run, steps, n + 1);
    assert NextStep(run[n], run[n + 1], steps[n]);
    TowardsForget(run[n], run[n + 1], steps[n]);
    NothingInTimeLeft(run, steps, n + 1, run[n + 1].granted.value.0);
    NoStraysWithoutLate(run, steps, n + 1, run[n + 1].granted.value.0);
  }

  lemma TowardsForget(s: State, s': State, step: Step)
    requires NextStep(s, s', step) && s'.granted.Some? && s'.granted != s.granted
    ensures s.phase.Absent? && s.phase.purpose == Probe(true) && s.phase.origin == s'.granted.value.0 && s.phase.origin !in s'.records
  {
    hide IsProbeRef, IsHash, IsNonce, ProbeRef, NamesAt;
  }

  /** From one state through the steps to the last. */
  ghost predicate Passes(states: seq<State>, steps: seq<Step>) {
    |states| == |steps| + 1 && forall i :: 0 <= i < |steps| ==> NextStep(states[i], states[i + 1], steps[i])
  }

  /** A stray does not keep access from being granted: a check that meets no other obstacle succeeds
      beside it. */
  lemma GrantMayLeaveStray(s: State, k: Key, branch: string, nonce: string) returns (states: seq<State>, steps: seq<Step>)
    requires s.phase == Idle && k in s.strays && k in s.refs && k.origin !in s.records
    requires Key(k.origin, HEADS + branch) in s.refs && IsNonce(nonce) && Key(k.origin, ProbeRef(nonce)) !in s.refs
    ensures Passes(states, steps) && states[0] == s
    ensures var end := states[|states| - 1];
            end.granted == Some((k.origin, branch)) && k in end.strays && k in end.refs && k.origin !in end.records
  {
    hide IsHash, IsProbeRef, IsNonce, ProbeRef, NextStep, NamesAt;
    var o, probe := k.origin, Key(k.origin, ProbeRef(nonce));
    var revision := s.refs[Key(o, HEADS + branch)];
    var record := Record(ProbeRef(nonce), revision);
    var clear := s.(phase := Clear(o, branch));
    var listed := s.(phase := Listed(o, branch, NamesAt(s.refs, o), revision));
    var recorded := s.(phase := Recorded(o, branch, record), records := s.records[o := record]);
    var cleaning := recorded.(refs := s.refs[probe := revision], owned := s.owned[probe := revision], phase := Cleaning(o, branch, record, Probe(true)));
    PrepareToProbe(s, clear, listed, recorded, o, branch, nonce);
    states, steps := CleanedUp(cleaning);
    assert NextStep(recorded, cleaning, Create(InTime(true, true))) by {
      CreateIsAStep(recorded, cleaning);
    }
    var first := [s, clear, listed, recorded];
    var begin := [Begin(o, branch), List, Insert(nonce, Done), Create(InTime(true, true))];
    PassesOn(first, begin, states, steps);
    states, steps := first + states, begin + steps;
  }

  lemma PassesOn(first: seq<State>, begin: seq<Step>, states: seq<State>, steps: seq<Step>)
    requires Passes(states, steps) && |first| == |begin| > 0
    requires forall i :: 0 <= i < |begin| ==> NextStep(first[i], (first + [states[0]])[i + 1], begin[i])
    ensures Passes(first + states, begin + steps)
  {
    hide NextStep;
    var all, done := first + states, begin + steps;
    forall i | 0 <= i < |done|
      ensures NextStep(all[i], all[i + 1], done[i])
    {
      if i < |begin| {
        assert all[i + 1] == (first + [states[0]])[i + 1];
      } else {
        assert NextStep(states[i - |begin|], states[i - |begin| + 1], steps[i - |begin|]);
      }
    }
  }

  lemma PrepareToProbe(s: State, clear: State, listed: State, recorded: State, o: string, branch: string, nonce: string)
    requires s.phase == Idle && o !in s.records && Key(o, HEADS + branch) in s.refs && IsNonce(nonce) && Key(o, ProbeRef(nonce)) !in s.refs
    requires var revision := s.refs[Key(o, HEADS + branch)]; var record := Record(ProbeRef(nonce), revision);
             && clear == s.(phase := Clear(o, branch)) && listed == s.(phase := Listed(o, branch, NamesAt(s.refs, o), revision))
             && recorded == s.(phase := Recorded(o, branch, record), records := s.records[o := record])
    ensures NextStep(s, clear, Begin(o, branch)) && NextStep(clear, listed, List) && NextStep(listed, recorded, Insert(nonce, Done))
  {
    hide IsHash, IsProbeRef, IsNonce, ProbeRef;
    assert ProbeRef(nonce) !in NamesAt(s.refs, o);
  }

  lemma CreateIsAStep(s: State, s': State)
    requires s.phase.Recorded? && KeyOf(s.phase) !in s.refs
    requires var key, p := KeyOf(s.phase), s.phase;
             s' == s.(refs := s.refs[key := p.record.revision], owned := s.owned[key := p.record.revision],
                      phase := Cleaning(p.origin, p.branch, p.record, Probe(true)))
    ensures NextStep(s, s', Create(InTime(true, true)))
  {
  }

  /** A clean-up that nothing gets in the way of. */
  lemma CleanedUp(s: State) returns (states: seq<State>, steps: seq<Step>)
    requires s.phase.Cleaning? && s.phase.purpose == Probe(true) && KeyOf(s.phase) in s.refs && s.refs[KeyOf(s.phase)] == s.phase.record.revision
    ensures Passes(states, steps) && states[0] == s
    ensures var key, p, end := KeyOf(s.phase), s.phase, states[|states| - 1];
            end == s.(refs := Without(s.refs, key), owned := Without(s.owned, key), strays := s.strays - {key}, records := Without(s.records, p.origin),
                      phase := Idle, granted := Some((p.origin, p.branch)))
  {
    hide OutsideStep, PrepareStep, CreateStep;
    var key, p := KeyOf(s.phase), s.phase;
    var deleting := s.(phase := Deleting(p.origin, p.branch, p.record, p.purpose));
    var deleted := s.(refs := Without(s.refs, key), owned := Without(s.owned, key), strays := s.strays - {key},
                      phase := Deleted(p.origin, p.branch, p.record, p.purpose));
    var absent := deleted.(phase := Absent(p.origin, p.branch, p.record, p.purpose));
    var end := absent.(records := Without(s.records, p.origin), phase := Idle, granted := Some((p.origin, p.branch)));
    states, steps := [s, deleting, deleted, absent, end], [Look, Delete(InTime(true, true)), LookAgain, Forget(Done)];
    assert CleanStep(s, deleting, Look) && CleanStep(deleting, deleted, Delete(InTime(true, true)));
    assert CleanStep(deleted, absent, LookAgain) && CleanStep(absent, end, Forget(Done));
  }

  predicate ForProbe(p: Phase) {
    (p.Cleaning? || p.Deleting? || p.Deleted? || p.Absent?) && p.purpose == Probe(true)
  }

  lemma NothingAtFirst(s: State)
    requires Init(s)
    ensures s.phase == Idle && s.granted == None && s.late == {} && s.strays == {} && s.owned == map[]
  {
  }

  /** A step that leads into or along the clean-up of a confirmed probe. */
  lemma TowardsCleanUp(s: State, s': State, step: Step)
    requires NextStep(s, s', step) && ForProbe(s'.phase)
    ensures step != Crash
    ensures if ForProbe(s.phase) then KeyOf(s.phase) == KeyOf(s'.phase) && s.phase.branch == s'.phase.branch
            else step == Create(InTime(true, true)) && s.phase.Recorded? && KeyOf(s.phase) == KeyOf(s'.phase) && s.phase.branch == s'.phase.branch
  {
    hide OutsideStep, PrepareStep, CreateStep, CleanStep;
    if step.Create? {
      TowardsByCreation(s, s', step);
    } else {
      AlongCleanUp(s, s', step);
    }
  }

  lemma TowardsByCreation(s: State, s': State, step: Step)
    requires NextStep(s, s', step) && step.Create? && ForProbe(s'.phase)
    ensures step == Create(InTime(true, true)) && s.phase.Recorded? && KeyOf(s.phase) == KeyOf(s'.phase) && s.phase.branch == s'.phase.branch
  {
  }

  lemma AlongCleanUp(s: State, s': State, step: Step)
    requires NextStep(s, s', step) && !step.Create? && ForProbe(s'.phase)
    ensures step != Crash && ForProbe(s.phase) && KeyOf(s.phase) == KeyOf(s'.phase) && s.phase.branch == s'.phase.branch
  {
    hide IsProbeRef, IsHash, IsNonce, ProbeRef, NamesAt, Without;
  }

  /** A step that grants access ends the clean-up of a confirmed probe. */
  lemma TowardsGrant(s: State, s': State, step: Step)
    requires NextStep(s, s', step) && s'.granted.Some?
    ensures step != Crash
    ensures s.granted == s'.granted || (ForProbe(s.phase) && s'.granted == Some((s.phase.origin, s.phase.branch)))
  {
    hide IsProbeRef, IsHash, IsNonce, ProbeRef, NamesAt, Without;
  }

  /** The creation step behind a clean-up of a confirmed probe. */
  lemma {:induction false} ProbeWasCreated(run: seq<State>, steps: seq<Step>, n: nat) returns (m: nat)
    requires IsRun(run, steps) && n < |run| && ForProbe(run[n].phase)
    ensures m < n && steps[m] == Create(InTime(true, true)) && run[m].phase.Recorded?
    ensures KeyOf(run[m].phase) == KeyOf(run[n].phase) && run[m].phase.branch == run[n].phase.branch
    ensures forall i :: m < i <= n ==> ForProbe(run[i].phase)
    decreases n
  {
    hide NextStep, Init;
    assert n > 0 by {
      NothingAtFirst(run[0]);
    }
    assert NextStep(run[n - 1], run[n - 1 + 1], steps[n - 1]);
    TowardsCleanUp(run[n - 1], run[n], steps[n - 1]);
    if ForProbe(run[n - 1].phase) {
      m := ProbeWasCreated(run, steps, n - 1);
    } else {
      m := n - 1;
    }
  }

  /** Granted access was earned since the process started: a probe with the same remote and branch
      did take effect there. */
  lemma {:induction false} GrantIsEarned(run: seq<State>, steps: seq<Step>, n: nat) returns (m: nat)
    requires IsRun(run, steps) && n < |run| && run[n].granted.Some?
    ensures m < n && steps[m] == Create(InTime(true, true)) && run[m].phase.Recorded?
    ensures run[n].granted == Some((run[m].phase.origin, run[m].phase.branch))
    ensures forall i :: m <= i < n ==> steps[i] != Crash
    decreases n
  {
    hide NextStep, Init;
    assert n > 0 by {
      NothingAtFirst(run[0]);
    }
    assert NextStep(run[n - 1], run[n - 1 + 1], steps[n - 1]);
    TowardsGrant(run[n - 1], run[n], steps[n - 1]);
    if run[n - 1].granted == run[n].granted {
      m := GrantIsEarned(run, steps, n - 1);
    } else {
      m := ProbeWasCreated(run, steps, n - 1);
      NoCrashSince(run, steps, m, n - 1);
    }
  }

  /** A clean-up of a confirmed probe belongs to the process that created it. */
  lemma {:induction false} NoCrashSince(run: seq<State>, steps: seq<Step>, m: nat, n: nat)
    requires IsRun(run, steps) && m < n < |run| && ForProbe(run[n].phase)
    requires forall i :: m < i <= n ==> ForProbe(run[i].phase)
    requires steps[m] != Crash
    ensures forall i :: m <= i < n ==> steps[i] != Crash
  {
    hide NextStep, Init, ForProbe;
    forall i | m <= i < n
      ensures steps[i] != Crash
    {
      assert NextStep(run[i], run[i + 1], steps[i]);
      assert ForProbe(run[i + 1].phase);
      TowardsCleanUp(run[i], run[i + 1], steps[i]);
    }
  }
}
