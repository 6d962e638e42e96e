/** Checking write access to the remote. A ghost trace records every step, so that each operation
    is seen to be a run of the probe protocol, whatever happens around it. */
module AccessProbe {
  import opened Strings
  import opened ImageRefs
  import opened Storage
  import opened Access

  datatype Failure =
    | CannotRead | NoTarget | BranchChanged | NameTaken | DatabaseFailed | BadRecord | CannotConfirm | RefChanged | DeleteFailed
    | StillThere | CreateFailed | Stopped

  /** Others change a reference, or an unanswered push lands or turns out to be lost. */
  datatype Event = Changes(key: Key, to: Option<string>) | Lands(push: Late) | Vanishes(push: Late)

  /** What becomes of a push: it reaches the remote and is confirmed or not, or it is late. */
  datatype Fate = Reaches(confirmed: bool) | Fails | IsLate

  /** Everything an operation cannot decide by itself, by step number where it may differ. */
  datatype Oracle = Oracle(
    events: nat -> seq<Event>, crash: nat -> bool, reachable: nat -> bool, write: nat -> Write, fate: nat -> Fate,
    fetched: bool, nonce: string)

  class Prober {
    var refs: map<Key, string>
    var records: map<string, Record>
    var granted: Option<(string, string)>
    var accessError: Option<Failure>
    var late: set<Late>
    ghost var owned: map<Key, string>
    ghost var strays: set<Key>
    ghost var phase: Phase
    ghost var trace: seq<State>
    ghost var steps: seq<Step>

    ghost function View(): State
      reads this
    {
      State(refs, records, owned, strays, late, phase, granted)
    }

    /** The steps so far form a run that ends in the present state. */
    ghost predicate Valid()
      reads this
    {
      IsRun(trace, steps) && trace[|trace| - 1] == View()
    }

    /** The run so far is a prefix of the run now. */
    twostate predicate Continues()
      reads this
    {
      Valid() && old(trace) <= trace && old(steps) <= steps
    }

    constructor (refs: map<Key, string>)
      requires forall k :: k in refs ==> IsHash(refs[k])
      ensures Valid() && phase == Idle && granted == None && records == map[]
    {
      this.refs, records, granted, accessError, late := refs, map[], None, None, {};
      owned, strays, phase, steps := map[], {}, Idle, [];
      new;
      trace := [View()];
    }

    ghost method Take(s: Step)
      requires IsRun(trace, steps) && NextStep(trace[|trace| - 1], View(), s)
      modifies `trace, `steps
      ensures Valid() && trace == old(trace) + [View()] && steps == old(steps) + [s]
    {
      hide NextStep, Init;
      var run, taken := trace, steps;
      trace := run + [View()];
      steps := taken + [s];
      forall i | 0 <= i < |steps|
        ensures NextStep(trace[i], trace[i + 1], steps[i])
      {
        if i < |taken| {
          assert NextStep(run[i], run[i + 1], taken[i]);
        }
      }
    }

    lemma Invariant()
      requires Valid()
      ensures Inv(View())
    {
      hide Inv, NextStep;
      RunInvariant(trace, steps, |trace| - 1);
    }

    // ----- the environment -----

    method Happen(event: Event)
      requires Valid()
      modifies this`refs, this`late, this`owned, this`strays, this`trace, this`steps
      ensures Continues()
    {
      hide IsRun, PrepareStep, CreateStep, CleanStep;
      match event
      case Changes(key, to) =>
        if to.None? || IsHash(to.value) {
          if to.Some? {
            refs := refs[key := to.value];
          } else {
            refs, owned, strays := Without(refs, key), Without(owned, key), strays - {key};
          }
          Take(Foreign(key, to));
        }
      case Lands(push) =>
        if push in late {
          LandLate(push);
        }
      case Vanishes(push) =>
        late := late - {push};
        Take(Lose(push));
    }

    /** A late push takes effect if its condition holds now. */
    method LandLate(push: Late)
      requires Valid() && push in late
      modifies this`refs, this`late, this`owned, this`strays, this`trace, this`steps
      ensures Continues() && View() == AfterLanding(old(View()), push).(late := old(late) - {push})
    {
      hide IsRun, PrepareStep, CreateStep, CleanStep;
      late := late - {push};
      if push.LateCreation? && push.key !in refs {
        refs := refs[push.key := push.revision];
        strays := strays + {push.key};
      } else if push.LateDeletion? && push.key in refs && refs[push.key] == push.revision {
        refs := Without(refs, push.key);
        owned, strays := Without(owned, push.key), strays - {push.key};
      }
      Take(Land(push));
    }

    /** What others do before the next step, possibly followed by the end of this process. */
    method Between(k: nat, o: Oracle) returns (alive: bool)
      requires Valid()
      modifies this`refs, this`late, this`owned, this`strays, this`phase, this`granted, this`trace, this`steps
      ensures Continues()
      ensures alive ==> phase == old(phase) && granted == old(granted)
      ensures !alive ==> phase == Idle && granted == None
      ensures Quiet(o, k) ==> alive && View() == old(View())
    {
      hide IsRun, NextStep;
      var es := o.events(k);
      for i := 0 to |es|
        invariant Valid() && old(trace) <= trace && old(steps) <= steps
        invariant phase == old(phase) && granted == old(granted)
        invariant i == 0 ==> View() == old(View())
      {
        Happen(es[i]);
      }
      alive := !o.crash(k);
      if !alive {
        phase, granted := Idle, None;
        TakeCrash();
      }
    }

    ghost method TakeCrash()
      requires IsRun(trace, steps) && View() == trace[|trace| - 1].(phase := Idle, granted := None)
      modifies this`trace, this`steps
      ensures Continues()
    {
      hide NextStep, Init;
      CrashIsAStep(trace[|trace| - 1], View());
      Take(Crash);
    }

    lemma CrashIsAStep(s: State, s': State)
      requires s' == s.(phase := Idle, granted := None)
      ensures NextStep(s, s', Crash)
    {
    }

    ghost method GiveUp()
      requires Valid() && !phase.Recorded?
      modifies this`phase, this`trace, this`steps
      ensures Continues() && View() == old(View()).(phase := Idle)
    {
      hide IsRun, OutsideStep, CreateStep, CleanStep;
      phase := Idle;
      Take(Abandon);
    }

    // ----- single steps -----

    ghost method Start(origin: string, branch: string)
      requires Valid() && phase == Idle
      modifies this`phase, this`trace, this`steps
      ensures Continues()
      ensures View() == old(View()).(phase := if origin in records then Cleaning(origin, branch, records[origin], Leftover) else Clear(origin, branch))
    {
      hide IsRun, OutsideStep, CreateStep, CleanStep;
      phase := if origin in records then Cleaning(origin, branch, records[origin], Leftover) else Clear(origin, branch);
      Take(Begin(origin, branch));
    }

    /** Lists the references of the remote; the target branch must be there. */
    method ListRefs(origin: string, branch: string) returns (names: set<string>, revision: Option<string>)
      requires Valid() && phase == Clear(origin, branch)
      modifies this`phase, this`trace, this`steps
      ensures Continues()
      ensures names == NamesAt(refs, origin)
      ensures revision == if Key(origin, HEADS + branch) in refs then Some(refs[Key(origin, HEADS + branch)]) else None
      ensures View() == old(View()).(phase := if revision.Some? then Listed(origin, branch, names, revision.value) else Idle)
    {
      hide IsRun, OutsideStep, CreateStep, CleanStep, NamesAt;
      var target := Key(origin, HEADS + branch);
      names := NamesAt(refs, origin);
      revision := if target in refs then Some(refs[target]) else None;
      phase := if revision.Some? then Listed(origin, branch, names, revision.value) else Idle;
      Take(List);
    }

    method InsertRecord(origin: string, branch: string, names: set<string>, revision: string, nonce: string, write: Write)
      requires Valid() && phase == Listed(origin, branch, names, revision) && IsNonce(nonce) && ProbeRef(nonce) !in names
      modifies this`records, this`phase, this`trace, this`steps
      ensures Continues()
      ensures View() == old(View()).(
                records := if write == Refused then old(records) else old(records)[origin := Record(ProbeRef(nonce), revision)],
                phase := if write == Done then Recorded(origin, branch, Record(ProbeRef(nonce), revision)) else Idle)
    {
      hide IsRun, OutsideStep, CreateStep, CleanStep, ProbeRef, IsNonce;
      var record := Record(ProbeRef(nonce), revision);
      records := if write == Refused then records else records[origin := record];
      phase := if write == Done then Recorded(origin, branch, record) else Idle;
      Take(Insert(nonce, write));
    }

    /** The push that creates the probe, unless the name is in use; unanswered, it may do so later. */
    method PushCreation(origin: string, branch: string, record: Record, fate: Fate) returns (ok: bool)
      requires Valid() && phase == Recorded(origin, branch, record)
      modifies this`refs, this`late, this`owned, this`strays, this`phase, this`trace, this`steps
      ensures Continues()
      ensures var key := Key(origin, record.ref);
              var effect := fate.Reaches? && key !in old(refs);
              && ok == (effect && fate.confirmed)
              && View() == old(View()).(
                   refs := if effect then old(refs)[key := record.revision] else old(refs),
                   owned := if effect then old(owned)[key := record.revision] else old(owned),
                   late := if fate.IsLate? then old(late) + {LateCreation(key, record.revision)} else old(late),
                   phase := Cleaning(origin, branch, record, Probe(ok)))
    {
      hide IsRun, OutsideStep, PrepareStep, CleanStep;
      var key := Key(origin, record.ref);
      var effect := fate.Reaches? && key !in refs;
      ok := effect && fate.confirmed;
      if effect {
        refs := refs[key := record.revision];
        owned := owned[key := record.revision];
      }
      if fate.IsLate? {
        late := late + {LateCreation(key, record.revision)};
      }
      phase := Cleaning(origin, branch, record, Probe(ok));
      Take(Create(if fate.IsLate? then Delayed else InTime(effect, ok)));
    }

    /** What the remote has under the probe's name. */
    method LookForProbe(origin: string, branch: string, record: Record, purpose: Purpose) returns (seen: Option<string>)
      requires Valid() && phase == Cleaning(origin, branch, record, purpose)
      modifies this`phase, this`trace, this`steps
      ensures Continues()
      ensures seen == if Key(origin, record.ref) in refs then Some(refs[Key(origin, record.ref)]) else None
      ensures View() == old(View()).(phase := if seen.None? then Absent(origin, branch, record, purpose)
                                              else if seen.value == record.revision then Deleting(origin, branch, record, purpose) else Idle)
    {
      hide IsRun, OutsideStep, PrepareStep, CreateStep;
      var key := Key(origin, record.ref);
      seen := if key in refs then Some(refs[key]) else None;
      phase := if seen.None? then Absent(origin, branch, record, purpose)
      else if seen.value == record.revision then Deleting(origin, branch, record, purpose) else Idle;
      Take(Look);
    }

    /** The push that deletes the probe, unless it changed; unanswered, it may do so later. */
    method PushDeletion(origin: string, branch: string, record: Record, purpose: Purpose, fate: Fate) returns (ok: bool)
      requires Valid() && phase == Deleting(origin, branch, record, purpose)
      modifies this`refs, this`late, this`owned, this`strays, this`phase, this`trace, this`steps
      ensures Continues()
      ensures var key := Key(origin, record.ref);
              var effect := fate.Reaches? && key in old(refs) && old(refs)[key] == record.revision;
              && ok == (effect && fate.confirmed)
              && View() == old(View()).(
                   refs := if effect then Without(old(refs), key) else old(refs),
                   owned := if effect then Without(old(owned), key) else old(owned),
                   strays := if effect then old(strays) - {key} else old(strays),
                   late := if fate.IsLate? then old(late) + {LateDeletion(key, record.revision)} else old(late),
                   phase := if ok then Deleted(origin, branch, record, purpose) else Idle)
    {
      hide IsRun, OutsideStep, PrepareStep, CreateStep;
      var key := Key(origin, record.ref);
      var effect := fate.Reaches? && key in refs && refs[key] == record.revision;
      ok := effect && fate.confirmed;
      if effect {
        refs := Without(refs, key);
        owned, strays := Without(owned, key), strays - {key};
      }
      if fate.IsLate? {
        late := late + {LateDeletion(key, record.revision)};
      }
      phase := if ok then Deleted(origin, branch, record, purpose) else Idle;
      Take(Delete(if fate.IsLate? then Delayed else InTime(effect, ok)));
    }

    method LookOnceMore(origin: string, branch: string, record: Record, purpose: Purpose) returns (gone: bool)
      requires Valid() && phase == Deleted(origin, branch, record, purpose)
      modifies this`phase, this`trace, this`steps
      ensures Continues() && gone == (Key(origin, record.ref) !in refs)
      ensures View() == old(View()).(phase := if gone then Absent(origin, branch, record, purpose) else Idle)
    {
      hide IsRun, OutsideStep, PrepareStep, CreateStep;
      gone := Key(origin, record.ref) !in refs;
      phase := if gone then Absent(origin, branch, record, purpose) else Idle;
      Take(LookAgain);
    }

    /** Deletes the record; access is granted here if this was a confirmed probe. */
    method ForgetRecord(origin: string, branch: string, record: Record, purpose: Purpose, write: Write)
      requires Valid() && phase == Absent(origin, branch, record, purpose)
      modifies this`records, this`phase, this`granted, this`trace, this`steps
      ensures Continues()
      ensures View() == old(View()).(
                records := if write == Refused then old(records) else Without(old(records), origin),
                phase := if write == Done && purpose == Leftover then Clear(origin, branch) else Idle,
                granted := if write == Done && purpose == Probe(true) then Some((origin, branch)) else old(granted))
    {
      hide IsRun, OutsideStep, PrepareStep, CreateStep;
      records := if write == Refused then records else Without(records, origin);
      phase := if write == Done && purpose == Leftover then Clear(origin, branch) else Idle;
      granted := if write == Done && purpose == Probe(true) then Some((origin, branch)) else granted;
      Take(Forget(write));
    }

    // ----- clean-up -----

    lemma RecordIsWellFormed(origin: string, branch: string, record: Record, purpose: Purpose)
      requires Valid() && phase == Cleaning(origin, branch, record, purpose)
      ensures RecordOk(record)
    {
      hide IsRun, OwnedOk, IsHash, IsProbeRef;
      Invariant();
    }

    /** Looks for a recorded probe; one that others changed is left alone. */
    method FindProbe(origin: string, branch: string, record: Record, purpose: Purpose, k: nat, o: Oracle) returns (r: Option<Failure>, seen: bool)
      requires Valid() && phase == Cleaning(origin, branch, record, purpose)
      modifies this`refs, this`late, this`owned, this`strays, this`phase, this`granted, this`trace, this`steps
      ensures Continues() && r != Some(BadRecord)
      ensures phase == if r.Some? then Idle else if seen then Deleting(origin, branch, record, purpose) else Absent(origin, branch, record, purpose)
      ensures granted == if r == Some(Stopped) then None else old(granted)
      ensures Quiet(o, k) && o.reachable(k) ==>
                var key := Key(origin, record.ref);
                && refs == old(refs) && seen == (key in refs) && (r == if key in refs && refs[key] != record.revision then Some(RefChanged) else None)
    {
      hide IsRun, NextStep, Quiet;
      seen := false;
      var alive := Between(k, o);
      if !alive {
        return Some(Stopped), seen;
      }
      if !o.reachable(k) {
        GiveUp();
        return Some(CannotConfirm), seen;
      }
      var found := LookForProbe(origin, branch, record, purpose);
      r, seen := if found.Some? && found.value != record.revision then Some(RefChanged) else None, found.Some?;
    }

    /** Removes a recorded probe and then its record. */
    method CleanUp(origin: string, branch: string, record: Record, purpose: Purpose, k: nat, o: Oracle) returns (r: Option<Failure>)
      requires Valid() && phase == Cleaning(origin, branch, record, purpose)
      modifies this`refs, this`late, this`records, this`owned, this`strays, this`phase, this`granted, this`trace, this`steps
      ensures Continues() && r != Some(BadRecord)
      ensures phase == if r == None && purpose == Leftover then Clear(origin, branch) else Idle
      ensures granted == if r == Some(Stopped) then None else if r == None && purpose == Probe(true) then Some((origin, branch)) else old(granted)
      ensures r == None ==> records == Without(old(records), origin)
      ensures Calm(o, k) ==>
                var key := Key(origin, record.ref);
                && (key in old(refs) && old(refs)[key] != record.revision ==> r == Some(RefChanged) && refs == old(refs) && records == old(records))
                && (!(key in old(refs) && old(refs)[key] != record.revision) ==> r == None && refs == Without(old(refs), key))
    {
      hide IsRun, NextStep, RecordOk, Calm, Quiet;
      RecordIsWellFormed(origin, branch, record, purpose);
      if !RecordOk(record) {
        assert false;
      }
      CalmParts(o, k);
      var seen;
      r, seen := FindProbe(origin, branch, record, purpose, k, o);
      if r.Some? {
        return;
      }
      if seen {
        r := RemoveProbe(origin, branch, record, purpose, k, o);
        if r.Some? {
          return;
        }
      }
      r := ConcludeCleanUp(origin, branch, record, purpose, k, o);
    }

    /** The probe is gone, so its record may go. */
    method ConcludeCleanUp(origin: string, branch: string, record: Record, purpose: Purpose, k: nat, o: Oracle) returns (r: Option<Failure>)
      requires Valid() && phase == Absent(origin, branch, record, purpose)
      modifies this`refs, this`late, this`records, this`owned, this`strays, this`phase, this`granted, this`trace, this`steps
      ensures Continues() && r != Some(BadRecord)
      ensures phase == if r == None && purpose == Leftover then Clear(origin, branch) else Idle
      ensures granted == if r == Some(Stopped) then None else if r == None && purpose == Probe(true) then Some((origin, branch)) else old(granted)
      ensures r == None ==> records == Without(old(records), origin)
      ensures Calm(o, k) ==> r == None && refs == old(refs)
    {
      hide IsRun, NextStep, Calm, Quiet;
      CalmParts(o, k);
      var alive := Between(k + 3, o);
      if !alive {
        return Some(Stopped);
      }
      ForgetRecord(origin, branch, record, purpose, o.write(k + 3));
      r := if o.write(k + 3) == Done then None else Some(DatabaseFailed);
    }

    /** Deletes the probe and confirms that it is gone. */
    method RemoveProbe(origin: string, branch: string, record: Record, purpose: Purpose, k: nat, o: Oracle) returns (r: Option<Failure>)
      requires Valid() && phase == Deleting(origin, branch, record, purpose)
      modifies this`refs, this`late, this`owned, this`strays, this`phase, this`granted, this`trace, this`steps
      ensures Continues() && r != Some(BadRecord)
      ensures phase == if r == None then Absent(origin, branch, record, purpose) else Idle
      ensures granted == if r == Some(Stopped) then None else old(granted)
      ensures Calm(o, k) && Key(origin, record.ref) in old(refs) && old(refs)[Key(origin, record.ref)] == record.revision ==>
                r == None && refs == Without(old(refs), Key(origin, record.ref))
    {
      hide IsRun, NextStep, Calm, Quiet;
      CalmParts(o, k);
      var alive := Between(k + 1, o);
      if !alive {
        return Some(Stopped);
      }
      var ok := PushDeletion(origin, branch, record, purpose, o.fate(k + 1));
      if !ok {
        return Some(DeleteFailed);
      }
      alive := Between(k + 2, o);
      if !alive {
        return Some(Stopped);
      }
      if !o.reachable(k + 2) {
        GiveUp();
        return Some(CannotConfirm);
      }
      var gone := LookOnceMore(origin, branch, record, purpose);
      r := if gone then None else Some(StillThere);
    }

    // ----- the whole check -----

    /** Lists the remote and chooses a name that is not in use. */
    method ChooseProbe(origin: string, branch: string, o: Oracle) returns (r: Option<Failure>, record: Record, names: set<string>)
      requires Valid() && phase == Clear(origin, branch)
      modifies this`refs, this`late, this`owned, this`strays, this`phase, this`granted, this`trace, this`steps
      ensures Continues() && r != Some(BadRecord)
      ensures phase == if r == None then Listed(origin, branch, names, record.revision) else Idle
      ensures r == None ==> record.ref == ProbeRef(o.nonce) && record.ref !in names
      ensures granted == if r == Some(Stopped) then None else old(granted)
      ensures Smooth(o) && Key(origin, HEADS + branch) in old(refs) && Key(origin, ProbeRef(o.nonce)) !in old(refs) ==>
                r == None && record.revision == old(refs)[Key(origin, HEADS + branch)] && refs == old(refs)
    {
      hide IsRun, NextStep, ProbeRef, Smooth, NamesAt;
      SmoothParts(o);
      record, names := Record(ProbeRef(o.nonce), ""), {};
      var alive := Between(4, o);
      if !alive {
        return Some(Stopped), record, names;
      }
      if !o.reachable(4) {
        GiveUp();
        return Some(CannotRead), record, names;
      }
      var revision;
      names, revision := ListRefs(origin, branch);
      NamesMeaning(refs, origin, record.ref);
      if revision.None? {
        return Some(NoTarget), record, names;
      }
      if !o.fetched {
        GiveUp();
        return Some(BranchChanged), record, names;
      }
      if record.ref in names {
        GiveUp();
        return Some(NameTaken), record, names;
      }
      r, record := None, record.(revision := revision.value);
    }

    /** Records a probe and then creates it. */
    method CreateProbe(origin: string, branch: string, o: Oracle) returns (r: Option<Failure>, record: Record, ok: bool)
      requires Valid() && phase == Clear(origin, branch) && IsNonce(o.nonce)
      modifies this`refs, this`late, this`records, this`owned, this`strays, this`phase, this`granted, this`trace, this`steps
      ensures Continues() && r != Some(BadRecord)
      ensures phase == if r == None then Cleaning(origin, branch, record, Probe(ok)) else Idle
      ensures granted == if r == Some(Stopped) then None else old(granted)
      ensures Smooth(o) && Key(origin, HEADS + branch) in old(refs) && Key(origin, ProbeRef(o.nonce)) !in old(refs) ==>
                r == None && ok && record == Record(ProbeRef(o.nonce), old(refs)[Key(origin, HEADS + branch)])
                && refs == old(refs)[Key(origin, record.ref) := record.revision] && records == old(records)[origin := record]
    {
      hide IsRun, NextStep, IsNonce, ProbeRef, Smooth, Quiet;
      SmoothParts(o);
      ok := false;
      var names;
      r, record, names := ChooseProbe(origin, branch, o);
      if r.Some? {
        return;
      }
      var alive := Between(5, o);
      if !alive {
        return Some(Stopped), record, false;
      }
      InsertRecord(origin, branch, names, record.revision, o.nonce, o.write(5));
      if o.write(5) != Done {
        return Some(DatabaseFailed), record, false;
      }
      alive := Between(6, o);
      if !alive {
        return Some(Stopped), record, false;
      }
      ok := PushCreation(origin, branch, record, o.fate(6));
    }

    /** Grants access to a remote and branch after a probe was created and removed again; a check
        that succeeded since the process started is not repeated. Then no probe that was made in time
        is left there. */
    method EnsureGitAccess(origin: string, branch: string, o: Oracle) returns (r: Option<Failure>)
      requires Valid() && phase == Idle && IsNonce(o.nonce)
      modifies this
      ensures Continues() && phase == Idle
      ensures old(granted) == Some((origin, branch)) ==> r == None && View() == old(View())
      ensures r == None ==> granted == Some((origin, branch))
      ensures r == None && old(granted) != granted ==> origin !in records && accessError == None && OnlyStraysRemain(origin)
      ensures r.Some? && r != Some(Stopped) ==> accessError == r && granted == old(granted)
      ensures r != Some(BadRecord)
      ensures old(granted) != Some((origin, branch)) && Smooth(o) && Calm(o, 7) && origin !in old(records)
              && Key(origin, HEADS + branch) in old(refs) && Key(origin, ProbeRef(o.nonce)) !in old(refs) ==>
                r == None && refs == old(refs) && records == old(records)
    {
      hide IsRun, NextStep, IsNonce, ProbeRef, Calm, Smooth, OnlyStraysRemain;
      if granted == Some((origin, branch)) {
        return None;
      }
      r := ProbeAccess(origin, branch, o);
      if r.Some? && r != Some(Stopped) {
        accessError := r;
      }
    }

    method ProbeAccess(origin: string, branch: string, o: Oracle) returns (r: Option<Failure>)
      requires Valid() && phase == Idle && IsNonce(o.nonce) && granted != Some((origin, branch))
      modifies this
      ensures Continues() && phase == Idle
      ensures r == None ==> granted == Some((origin, branch)) && origin !in records && accessError == None
      ensures r == None ==> OnlyStraysRemain(origin)
      ensures r.Some? && r != Some(Stopped) ==> granted == old(granted)
      ensures r != Some(BadRecord)
      ensures Smooth(o) && Calm(o, 7) && origin !in old(records)
              && Key(origin, HEADS + branch) in old(refs) && Key(origin, ProbeRef(o.nonce)) !in old(refs) ==>
                r == None && refs == old(refs) && records == old(records)
    {
      hide IsRun, NextStep, IsNonce, ProbeRef, Calm, Smooth, OnlyStraysRemain;
      ghost var leftover := origin in records;
      Start(origin, branch);
      if origin in records {
        r := CleanUp(origin, branch, records[origin], Leftover, 0, o);
        if r.Some? {
          return;
        }
      }
      var record, ok;
      r, record, ok := CreateProbe(origin, branch, o);
      if r.Some? {
        return;
      }
      r := CleanUp(origin, branch, record, Probe(ok), 7, o);
      if r.Some? {
        return;
      }
      if !ok {
        return Some(CreateFailed);
      }
      accessError := None;
      NoneOwned(origin);
    }

    lemma NoneOwned(origin: string)
      requires Valid() && origin !in records
      ensures OnlyStraysRemain(origin)
    {
      hide NextStep, Init, OnlyStraysLeft, OwnedOk, WellFormed, PhaseOk, LateOk;
      NothingInTimeLeft(trace, steps, |steps|, origin);
      assert OwnedOk(View()) by {
        Invariant();
      }
      NoneOwnedAt(View(), origin);
    }

    /** No probe of this program is left at the remote, whatever others did to it, but those that a
        creation made which was never confirmed. */
    ghost predicate OnlyStraysRemain(origin: string)
      reads this
    {
      && |trace| == |steps| + 1 && OnlyStraysLeft(trace, steps, |steps|, origin)
      && forall k :: k in owned ==> k.origin != origin
    }
  }

  lemma NoneOwnedAt(s: State, origin: string)
    requires OwnedOk(s) && origin !in s.records
    ensures forall k :: k in s.owned ==> k.origin != origin
  {
  }

  /** Nothing happens before step `k`. */
  predicate Quiet(o: Oracle, k: nat) {
    o.events(k) == [] && !o.crash(k)
  }

  /** A clean-up that starts at step `k` is undisturbed and gets its answers. */
  predicate Calm(o: Oracle, k: nat) {
    && Quiet(o, k) && Quiet(o, k + 1) && Quiet(o, k + 2) && Quiet(o, k + 3)
    && o.reachable(k) && o.reachable(k + 2) && o.fate(k + 1) == Reaches(true) && o.write(k + 3) == Done
  }

  lemma CalmParts(o: Oracle, k: nat)
    ensures Calm(o, k) ==>
              && Quiet(o, k) && Quiet(o, k + 1) && Quiet(o, k + 2) && Quiet(o, k + 3)
              && o.reachable(k) && o.reachable(k + 2) && o.fate(k + 1) == Reaches(true) && o.write(k + 3) == Done
  {
  }

  /** So is the creation. */
  predicate Smooth(o: Oracle) {
    && Quiet(o, 4) && Quiet(o, 5) && Quiet(o, 6)
    && o.reachable(4) && o.fetched && o.write(5) == Done && o.fate(6) == Reaches(true)
  }

  lemma SmoothParts(o: Oracle)
    ensures Smooth(o) ==>
              && Quiet(o, 4) && Quiet(o, 5) && Quiet(o, 6)
              && o.reachable(4) && o.fetched && o.write(5) == Done && o.fate(6) == Reaches(true)
  {
  }

  lemma NamesMeaning(refs: map<Key, string>, origin: string, ref: string)
    ensures ref in NamesAt(refs, origin) <==> Key(origin, ref) in refs
  {
    if Key(origin, ref) in refs {
      assert Key(origin, ref).ref == ref;
    }
  }
}
