/** Deleting the account of this device: the registry first, then the managed skills, then the
    credentials and records, with a journal that a later attempt resumes. */
module AccountDelete {
  import opened Basics

  type OperationId = nat
  type Username = nat
  type ResourceId = nat

  /** What the deletion has done for good, in order. */
  datatype Deed =
    | AccountDeleted(op: OperationId)
    | SkillRemoved(id: ResourceId)
    | SessionRemoved | InstallationRemoved | IdentityCleared | InstallationCleared

  function Phase(deed: Deed): nat {
    match deed
    case AccountDeleted(_) => 0
    case SkillRemoved(_) => 1
    case _ => 2
  }

  datatype Journal = Journal(op: OperationId, state: JournalState, username: Username)

  /** The registry remembers which operation deleted the account, and answers it again. */
  datatype Account = Account(username: Username, deletedBy: Option<OperationId>)

  datatype Deletion = Deleted(username: Username) | NotSignedIn | Mismatch | Failed | Killed

  /** No deed of an earlier phase comes after one of a later phase, and the first is the
      registry's confirmation. */
  ghost predicate InOrder(deeds: seq<Deed>, deletedBy: Option<OperationId>) {
    && (forall i, j :: 0 <= i < j < |deeds| ==> Phase(deeds[i]) <= Phase(deeds[j]))
    && (deeds != [] ==> deeds[0].AccountDeleted? && deletedBy == Some(deeds[0].op))
    && (forall i :: 0 < i < |deeds| ==> !deeds[i].AccountDeleted?)
  }

  ghost predicate UpTo(deeds: seq<Deed>, phase: nat) {
    forall i :: 0 <= i < |deeds| ==> Phase(deeds[i]) <= phase
  }

  lemma Done(deeds: seq<Deed>, deletedBy: Option<OperationId>, deed: Deed)
    requires InOrder(deeds, deletedBy) && deeds != [] && UpTo(deeds, Phase(deed)) && !deed.AccountDeleted?
    ensures InOrder(deeds + [deed], deletedBy) && UpTo(deeds + [deed], Phase(deed))
    ensures deeds + [deed] != [] && deeds <= deeds + [deed]
  {
  }

  class Device {
    var managed: set<ResourceId>
    var sessionCredential: bool
    var installationCredential: bool
    var identity: Option<Username>
    var installation: bool
    var journal: Option<Journal>
    var account: Account
    var faults: seq<Fault>
    /** Everything deleted since the last account of this device began to be. */
    ghost var deeds: seq<Deed>

    constructor (managed: set<ResourceId>, username: Username, faults: seq<Fault>)
      ensures Valid() && journal == None && deeds == []
    {
      this.managed, this.faults := managed, faults;
      sessionCredential, installationCredential, identity, installation := true, true, Some(username), true;
      journal, account, deeds := None, Account(username, None), [];
    }

    ghost predicate AllHere()
      reads this
    {
      sessionCredential && installationCredential && installation && identity == Some(account.username)
    }

    ghost predicate AllGone()
      reads this
    {
      managed == {} && !sessionCredential && !installationCredential && !installation && identity == None
    }

    /** Deeds of a phase have been done only once the journal is in the state for them. */
    ghost predicate Valid()
      reads this
    {
      && InOrder(deeds, account.deletedBy) && UpTo(deeds, 2)
      && (account.deletedBy.Some? <==> deeds != [])
      && match journal
         case None => (deeds == [] && AllHere()) || (deeds != [] && AllGone())
         case Some(j) =>
           && j.username == account.username && j.state in {Planned, Staged, Verified, Switched}
           && (account.deletedBy.Some? ==> account.deletedBy == Some(j.op))
           && match j.state
              case Planned => AllHere() && UpTo(deeds, 0)
              case Staged => AllHere() && deeds != [] && UpTo(deeds, 1)
              case Verified => managed == {} && deeds != []
              case _ => AllGone() && deeds != []
    }

    method NextFault() returns (fault: Fault)
      modifies this`faults
      ensures Calm(old(faults)) ==> fault.Works? && Calm(faults)
    {
      fault := Works;
      if faults != [] {
        fault, faults := faults[0], faults[1..];
      }
    }

    /** `advance_account_delete_journal`. */
    method Advance(next: JournalState) returns (fault: Fault)
      requires journal.Some?
      modifies this`journal, this`faults
      ensures journal == if fault.Works? then Some(old(journal).value.(state := next)) else old(journal)
      ensures Calm(old(faults)) ==> fault.Works? && Calm(faults)
    {
      fault := NextFault();
      if fault.Works? { journal := Some(journal.value.(state := next)); }
    }

    /** The registry call; `lost` when the account is deleted but the reply does not arrive. */
    method AskRegistry() returns (fault: Fault)
      requires Valid() && journal.Some? && journal.value.state == Planned
      modifies this`account, this`faults, this`deeds
      ensures Valid() && (fault.Works? ==> account.deletedBy == Some(journal.value.op))
      ensures old(deeds) <= deeds && account.username == old(account).username
      ensures Calm(old(faults)) ==> fault.Works? && Calm(faults)
    {
      fault := NextFault();
      if !fault.Works? { return; }
      if account.deletedBy.None? {
        account := account.(deletedBy := Some(journal.value.op));
        deeds := deeds + [AccountDeleted(journal.value.op)];
      }
      fault := NextFault();
    }

    /** `clear_local_managed_state`: one journaled removal after another. */
    method ClearManaged() returns (fault: Fault)
      requires Valid() && journal.Some? && journal.value.state == Staged
      modifies this`managed, this`faults, this`deeds
      ensures Valid() && (fault.Works? ==> managed == {})
      ensures managed <= old(managed) && old(deeds) <= deeds
      ensures Calm(old(faults)) ==> fault.Works? && Calm(faults)
    {
      fault := Works;
      while managed != {}
        invariant Valid() && fault.Works? && managed <= old(managed) && old(deeds) <= deeds
        invariant Calm(old(faults)) ==> Calm(faults)
        decreases managed
      {
        fault := NextFault();
        if !fault.Works? { return; }
        var id := Least(managed);
        Done(deeds, account.deletedBy, SkillRemoved(id));
        managed := managed - {id};
        deeds := deeds + [SkillRemoved(id)];
      }
    }

    /** The credentials, then the records; each is gone or already was. */
    method ClearIdentity() returns (fault: Fault)
      requires Valid() && journal.Some? && journal.value.state == Verified
      modifies this`sessionCredential, this`installationCredential, this`identity, this`installation, this`faults,
          this`deeds
      ensures Valid() && (fault.Works? ==> AllGone()) && old(deeds) <= deeds
      ensures Calm(old(faults)) ==> fault.Works? && Calm(faults)
    {
      hide InOrder, UpTo, Calm;
      fault := ClearCredentials();
      if fault.Works? { fault := ClearRecords(); }
    }

    method ClearCredentials() returns (fault: Fault)
      requires Valid() && journal.Some? && journal.value.state == Verified
      modifies this`sessionCredential, this`installationCredential, this`faults, this`deeds
      ensures Valid() && (fault.Works? ==> !sessionCredential && !installationCredential) && old(deeds) <= deeds
      ensures Calm(old(faults)) ==> fault.Works? && Calm(faults)
    {
      hide InOrder, UpTo, Calm;
      fault := NextFault();
      if !fault.Works? { return; }
      Done(deeds, account.deletedBy, SessionRemoved);
      sessionCredential, deeds := false, deeds + [SessionRemoved];
      fault := NextFault();
      if !fault.Works? { return; }
      Done(deeds, account.deletedBy, InstallationRemoved);
      installationCredential, deeds := false, deeds + [InstallationRemoved];
    }

    method ClearRecords() returns (fault: Fault)
      requires Valid() && journal.Some? && journal.value.state == Verified
      modifies this`identity, this`installation, this`faults, this`deeds
      ensures Valid() && (fault.Works? ==> identity == None && !installation) && old(deeds) <= deeds
      ensures Calm(old(faults)) ==> fault.Works? && Calm(faults)
    {
      hide InOrder, UpTo, Calm;
      fault := NextFault();
      if !fault.Works? { return; }
      Done(deeds, account.deletedBy, IdentityCleared);
      identity, deeds := None, deeds + [IdentityCleared];
      fault := NextFault();
      if !fault.Works? { return; }
      Done(deeds, account.deletedBy, InstallationCleared);
      installation, deeds := false, deeds + [InstallationCleared];
    }

    /** The registry's confirmation, journaled; only a signed-in device asks for it. */
    method Confirm() returns (stop: Option<Deletion>)
      requires Valid() && journal.Some? && journal.value.state == Planned
      modifies this`account, this`faults, this`deeds, this`journal
      ensures Valid() && old(deeds) <= deeds && account.username == old(account).username
      ensures journal == if stop.None? then Some(old(journal).value.(state := Staged)) else old(journal)
      ensures stop.Some? ==> !stop.value.Deleted?
      ensures account.deletedBy.None? ==> stop.Some? && account == old(account)
      ensures Calm(old(faults)) ==> stop.None? && Calm(faults)
    {
      hide InOrder, Calm;
      if !sessionCredential || identity.None? || !installation || !installationCredential { return Some(NotSignedIn); }
      if identity.value != journal.value.username { return Some(Mismatch); }
      var fault := AskRegistry();
      if !fault.Works? { return Some(Interrupted(fault)); }
      fault := Advance(Staged);
      stop := if fault.Works? then None else Some(Interrupted(fault));
    }

    method ResumeAccountDelete() returns (result: Deletion)
      requires Valid() && journal.Some?
      modifies this
      ensures Valid() && old(deeds) <= deeds && managed <= old(managed)
      ensures result.Deleted? ==>
                && journal == None && AllGone() && account.deletedBy == Some(old(journal).value.op)
                && result.username == account.username == old(account).username
      ensures !result.Deleted? ==>
                && journal.Some? && journal.value.op == old(journal).value.op
                && Rank(old(journal).value.state) <= Rank(journal.value.state)
      ensures account.deletedBy.None? ==> managed == old(managed) && deeds == old(deeds)
      ensures account.deletedBy.None? || managed != {} ==>
                && sessionCredential == old(sessionCredential) && installationCredential == old(installationCredential)
                && identity == old(identity) && installation == old(installation)
      ensures Calm(old(faults)) ==> result.Deleted?
    {
      hide InOrder, Calm;
      var fault;
      if journal.value.state == Planned {
        var stop := Confirm();
        if stop.Some? { return stop.value; }
      }
      if journal.value.state == Staged {
        fault := ClearManaged();
        if !fault.Works? { return Interrupted(fault); }
        fault := Advance(Verified);
        if !fault.Works? { return Interrupted(fault); }
      }
      if journal.value.state == Verified {
        fault := ClearIdentity();
        if !fault.Works? { return Interrupted(fault); }
        fault := Advance(Switched);
        if !fault.Works? { return Interrupted(fault); }
      }
      var username := journal.value.username;
      fault := NextFault();
      if !fault.Works? { return Interrupted(fault); }
      journal := None;
      result := Deleted(username);
    }

    /** One attempt: resumes the journal, or begins one for the signed-in account. */
    method DeleteAccount(op: OperationId) returns (result: Deletion)
      requires Valid()
      modifies this
      ensures Valid() && old(deeds) <= deeds && managed <= old(managed)
      ensures result.Deleted? ==> journal == None && AllGone() && account.deletedBy.Some?
      ensures old(journal).Some? && journal.Some? ==>
                journal.value.op == old(journal).value.op && Rank(old(journal).value.state) <= Rank(journal.value.state)
      ensures account.deletedBy.None? ==> managed == old(managed) && deeds == old(deeds)
      ensures account.deletedBy.None? || managed != {} ==>
                && sessionCredential == old(sessionCredential) && installationCredential == old(installationCredential)
                && identity == old(identity) && installation == old(installation)
      ensures old(journal).None? && old(deeds) != [] ==> result == NotSignedIn && deeds == old(deeds)
      ensures Calm(old(faults)) && (old(journal).Some? || old(deeds) == []) ==> result.Deleted?
    {
      if journal.None? {
        if !sessionCredential || identity.None? || !installation || !installationCredential { return NotSignedIn; }
        var fault := NextFault();
        if !fault.Works? { return Interrupted(fault); }
        journal := Some(Journal(op, Planned, identity.value));
      }
      result := ResumeAccountDelete();
    }
  }

  function Interrupted(fault: Fault): (result: Deletion)
    ensures !result.Deleted?
  {
    if fault.Dies? then Killed else Failed
  }
}
