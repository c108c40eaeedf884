/** First setup of a device: a credential is made durable, then one installation is registered
    for it, then it is recorded, each step journaled so that a later setup resumes it. */
module Bootstrap {
  import opened Basics

  type OperationId = nat
  type CredentialHash = nat
  type Origin = nat

  /** The two ids a registration hands out. */
  datatype Ids = Ids(installation: nat, author: nat)

  datatype Journal = Journal(op: OperationId, state: JournalState, origin: Origin, hash: CredentialHash,
                             backend: bool, ids: Option<Ids>)

  datatype Registration = Registration(origin: Origin, hash: CredentialHash, ids: Ids)

  datatype Installation = Installation(origin: Origin, ids: Ids)

  datatype Setup = Ready(installation: Installation) | OtherRegistry | Failed | Killed

  /** What is durable on this device and at the registries. */
  datatype State = State(
    journal: Option<Journal>, credential: Option<CredentialHash>, installation: Option<Installation>,
    registrations: map<OperationId, Registration>)

  /** The installation recorded here is the one registered. */
  ghost predicate RecordsTheOne(s: State) {
    s.installation.Some? && exists op :: op in s.registrations && IsTheOne(s, op)
  }

  ghost predicate IsTheOne(s: State, op: OperationId)
    requires op in s.registrations && s.installation.Some?
  {
    && s.registrations.Keys == {op}
    && s.installation.value == Installation(s.registrations[op].origin, s.registrations[op].ids)
    && s.credential == Some(s.registrations[op].hash)
  }

  /** Registries never forget or change a registration. */
  ghost predicate KeepsRegistrations(a: State, b: State) {
    forall op :: op in a.registrations ==> op in b.registrations && b.registrations[op] == a.registrations[op]
  }

  /** Nothing was ever registered, or only for this journal with its credential in place. */
  ghost predicate OnlyFor(s: State, j: Journal) {
    && s.registrations.Keys <= {j.op} && s.credential == Some(j.hash) && j.backend
    && (j.op in s.registrations ==> s.registrations[j.op].origin == j.origin && s.registrations[j.op].hash == j.hash)
  }

  ghost predicate RegisteredFor(s: State, j: Journal) {
    OnlyFor(s, j) && j.op in s.registrations && j.ids == Some(s.registrations[j.op].ids)
  }

  ghost predicate Sane(s: State) {
    match s.journal
    case None => (s.registrations == map[] && s.installation.None?) || RecordsTheOne(s)
    case Some(j) =>
      match j.state
      case Planned => s.registrations == map[] && s.installation.None?
      case Staged => OnlyFor(s, j) && s.installation.None?
      case Verified => RegisteredFor(s, j)
          && (s.installation.Some? ==> s.installation.value == Installation(j.origin, j.ids.value))
      case Switched => RegisteredFor(s, j) && s.installation == Some(Installation(j.origin, j.ids.value))
      case Complete => false
  }

  /** The registry this device belongs to, or is on its way to; if none yet, the one asked for. A
      journal that is only planned does not bind. */
  ghost function Due(s: State, requested: Option<Origin>, official: Origin): Origin {
    if s.journal.Some? && !s.journal.value.state.Planned? then s.journal.value.origin
    else if s.journal.None? && s.installation.Some? then s.installation.value.origin
    else if requested.Some? then requested.value
    else official
  }

  /** However setup was interrupted, the registries hold at most one registration of this
      device, and the installation recorded here, if any, is that one. */
  lemma AtMostOneRegistration(s: State)
    requires Sane(s)
    ensures |s.registrations| <= 1
    ensures s.installation.Some? ==> RecordsTheOne(s)
  {
    if s.journal.Some? && !s.journal.value.state.Planned? {
      var op := s.journal.value.op;
      if op in s.registrations {
        assert s.registrations.Keys == {op};
      }
      assert |s.registrations| == |s.registrations.Keys|;
      SubsetOfOne(s.registrations.Keys, op);
    } else if s.registrations != map[] {
      var op :| op in s.registrations && IsTheOne(s, op);
      assert |s.registrations| == |s.registrations.Keys|;
    }
  }

  lemma SubsetOfOne(keys: set<OperationId>, op: OperationId)
    requires keys <= {op}
    ensures |keys| <= 1
  {
    if op in keys { assert keys == {op}; } else { assert keys == {}; }
  }

  class Device {
    var state: State
    /** Operations and credentials made so far; both are random and never repeat. */
    var made: nat
    var faults: seq<Fault>

    ghost predicate Valid()
      reads this
    {
      Sane(state)
    }

    constructor (faults: seq<Fault>)
      ensures Valid() && state.journal.None? && state.installation.None?
    {
      state, made, this.faults := State(None, None, None, map[]), 0, faults;
    }

    method NextFault() returns (fault: Fault)
      modifies this`faults
      ensures Calm(old(faults)) ==> fault.Works? && Calm(faults)
    {
      fault := Works;
      if faults != [] {
        fault, faults := faults[0], faults[1..];
      }
    }

    method Land(next: State) returns (fault: Fault)
      modifies this`state, this`faults
      ensures state == if fault.Works? then next else old(state)
      ensures Calm(old(faults)) ==> fault.Works? && Calm(faults)
    {
      fault := NextFault();
      if fault.Works? { state := next; }
    }

    /** `create_installation` for the journaled operation: the registry answers a repeated
        operation with the ids it gave before. The reply may be lost. */
    method Register() returns (fault: Fault, ids: Ids)
      requires Valid() && state.journal.Some? && state.journal.value.state == Staged
      modifies this`state, this`faults, this`made
      ensures Valid() && state.journal == old(state).journal && state.installation == old(state).installation
      ensures KeepsRegistrations(old(state), state)
      ensures fault.Works? ==>
                state.journal.value.op in state.registrations && ids == state.registrations[state.journal.value.op].ids
      ensures Calm(old(faults)) ==> fault.Works? && Calm(faults)
    {
      var j := state.journal.value;
      ids := Ids(made, made + 1);
      fault := NextFault();
      if !fault.Works? { return; }
      if j.op in state.registrations {
        ids := state.registrations[j.op].ids;
      } else {
        made := made + 2;
        state := state.(registrations := state.registrations[j.op := Registration(j.origin, j.hash, ids)]);
      }
      fault := NextFault();
    }

    method RegisterAndVerify() returns (fault: Fault)
      requires Valid() && state.journal.Some? && state.journal.value.state == Staged
      modifies this`state, this`faults, this`made
      ensures Valid() && state.journal.Some? && state.journal.value.op == old(state).journal.value.op
      ensures state.journal.value.origin == old(state).journal.value.origin && KeepsRegistrations(old(state), state)
      ensures fault.Works? ==> state.journal.value.state == Verified
      ensures !fault.Works? ==> state.journal == old(state).journal
      ensures Calm(old(faults)) ==> fault.Works? && Calm(faults)
    {
      var ids;
      fault, ids := Register();
      if !fault.Works? { return; }
      fault := Land(state.(journal := Some(state.journal.value.(ids := Some(ids), state := Verified))));
    }

    /** Harness roots and service, then the installation record, then the journal. */
    method ActivateVerified() returns (fault: Fault)
      requires Valid() && state.journal.Some? && state.journal.value.state == Verified
      modifies this`state, this`faults
      ensures Valid()
      ensures state.registrations == old(state).registrations
      ensures fault.Works? ==>
                && state.journal.None? && RecordsTheOne(state)
                && state.installation.value.origin == old(state).journal.value.origin
      ensures !fault.Works? ==>
                state.journal.Some? && state.journal.value.op == old(state).journal.value.op
                && Rank(old(state).journal.value.state) <= Rank(state.journal.value.state)
      ensures Calm(old(faults)) ==> fault.Works? && Calm(faults)
    {
      var j := state.journal.value;
      fault := NextFault();
      if !fault.Works? { return; }
      fault := Land(state.(installation := Some(Installation(j.origin, j.ids.value))));
      if !fault.Works? { return; }
      fault := Land(state.(journal := Some(j.(state := Switched))));
      if !fault.Works? { return; }
      fault := VerifySwitched();
    }

    /** The stored credential must be the journaled one before the journal completes. */
    method VerifySwitched() returns (fault: Fault)
      requires Valid() && state.journal.Some? && state.journal.value.state == Switched
      modifies this`state, this`faults
      ensures Valid()
      ensures state.registrations == old(state).registrations && state.installation == old(state).installation
      ensures fault.Works? ==> state.journal.None? && RecordsTheOne(state)
      ensures !fault.Works? ==> state == old(state)
      ensures Calm(old(faults)) ==> fault.Works? && Calm(faults)
    {
      var j := state.journal.value;
      fault := NextFault();
      if !fault.Works? { return; }
      if state.credential != Some(j.hash) { return Fails; }
      assert IsTheOne(state, j.op);
      fault := Land(state.(journal := None));
    }

    method ResumeBootstrap() returns (fault: Fault)
      requires Valid() && state.journal.Some? && state.journal.value.state in {Staged, Verified, Switched}
      modifies this`state, this`faults, this`made
      ensures Valid() && KeepsRegistrations(old(state), state)
      ensures fault.Works? ==>
                && state.journal.None? && RecordsTheOne(state)
                && state.installation.value.origin == old(state).journal.value.origin
      ensures !fault.Works? ==>
                state.journal.Some? && state.journal.value.op == old(state).journal.value.op
                && Rank(old(state).journal.value.state) <= Rank(state.journal.value.state)
      ensures Calm(old(faults)) ==> fault.Works? && Calm(faults)
    {
      if !state.journal.value.backend || state.credential != Some(state.journal.value.hash) { return Fails; }
      fault := Works;
      if state.journal.value.state == Staged {
        fault := RegisterAndVerify();
        if !fault.Works? { return; }
      }
      if state.journal.value.state == Verified {
        fault := ActivateVerified();
      } else {
        fault := VerifySwitched();
      }
    }

    /** A new operation: its journal is staged only once its credential is durable, and only
        then is anything registered. */
    method BeginBootstrap(origin: Origin) returns (fault: Fault)
      requires Valid() && state.journal.None? && state.installation.None?
      modifies this`state, this`faults, this`made
      ensures Valid() && KeepsRegistrations(old(state), state)
      ensures fault.Works? ==> state.journal.None? && RecordsTheOne(state) && state.installation.value.origin == origin
      ensures Calm(old(faults)) ==> fault.Works? && Calm(faults)
    {
      var j := Journal(made, Planned, origin, made + 1, false, None);
      made := made + 2;
      fault := Land(state.(journal := Some(j)));
      if !fault.Works? { return; }
      fault := Land(state.(credential := Some(j.hash)));
      if !fault.Works? { return; }
      j := j.(backend := true, state := Staged);
      fault := Land(state.(journal := Some(j)));
      if !fault.Works? { return; }
      fault := RegisterAndVerify();
      if !fault.Works? { return; }
      fault := ActivateVerified();
    }

    method Setup(requested: Option<Origin>, official: Origin) returns (result: Setup)
      requires Valid()
      modifies this`state, this`faults, this`made
      ensures Valid() && KeepsRegistrations(old(state), state)
      ensures result.Ready? ==>
                && state.journal.None? && RecordsTheOne(state) && result.installation == state.installation.value
                && result.installation.origin == Due(old(state), requested, official)
                && (requested.Some? ==> result.installation.origin == requested.value)
      ensures old(state).installation.Some? && old(state).journal.None? ==> state == old(state)
      ensures result.OtherRegistry? ==>
                && requested.Some? && requested.value != Due(old(state), requested, official)
                && state == old(state)
      ensures Calm(old(faults)) ==>
                if requested.None? || requested.value == Due(old(state), requested, official) then result.Ready?
                else result.OtherRegistry?
    {
      var fault;
      if state.journal.Some? {
        if state.journal.value.state == Planned {
          fault := Land(state.(journal := None));
          if !fault.Works? { return Interrupted(fault); }
        } else {
          if requested.Some? && requested.value != state.journal.value.origin { return OtherRegistry; }
          fault := ResumeBootstrap();
          if !fault.Works? { return Interrupted(fault); }
        }
      }
      if state.installation.None? {
        fault := BeginBootstrap(if requested.Some? then requested.value else official);
        if !fault.Works? { return Interrupted(fault); }
      } else if requested.Some? && requested.value != state.installation.value.origin {
        return OtherRegistry;
      }
      result := ReconcileExisting();
    }

    /** An installation that is recorded is never registered again. */
    method ReconcileExisting() returns (result: Setup)
      requires Valid() && state.journal.None? && state.installation.Some?
      modifies this`faults
      ensures result.Ready? ==> result.installation == state.installation.value
      ensures !result.OtherRegistry?
      ensures Calm(old(faults)) ==> result.Ready?
    {
      var fault := NextFault();
      if !fault.Works? { return Interrupted(fault); }
      result := Ready(state.installation.value);
    }
  }

  function Interrupted(fault: Fault): (result: Setup)
    ensures !result.Ready? && !result.OtherRegistry?
  {
    if fault.Dies? then Killed else Failed
  }
}
