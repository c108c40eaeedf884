/** Importing a directory of the user's as a private skill: a journal carries the staged copy
    and the registry's identities, and the directory is removed last. */
module ImportJournal {
  import opened Basics

  type TreeId = nat
  type OperationId = nat
  type Owner = nat

  /** Resource id, locator and revision id, as the registry assigns them. */
  datatype Identity = Identity(resource: nat, locator: nat, revision: nat)

  /** The three identity slots of the journal. */
  datatype Slots = Slots(resource: Option<nat>, locator: Option<nat>, revision: Option<nat>)

  datatype Journal = Journal(op: OperationId, state: JournalState, owner: Owner, tree: TreeId, slots: Slots)

  /** The surroundings of one step: whether it lands, what the user does to the source by then,
      what the registry answers, if not the identity it gave the operation before, and what is
      left of a directory whose removal is cut short. */
  datatype Moment = Moment(fault: Fault, edit: Option<Option<TreeId>>, reply: Option<Identity>, left: Option<TreeId>)

  datatype Outcome = Imported(id: Identity) | InvalidArguments | Refused | Failed | Killed

  function NoSlots(): Slots { Slots(None, None, None) }

  function Filled(id: Identity): Slots { Slots(Some(id.resource), Some(id.locator), Some(id.revision)) }

  function AllFilled(slots: Slots): bool { slots.resource.Some? && slots.locator.Some? && slots.revision.Some? }

  /** `verify_or_record` on one slot: an empty one takes the value, a filled one must agree. */
  function Recorded(slot: Option<nat>, value: nat): Option<Option<nat>> {
    match slot
    case None => Some(Some(value))
    case Some(was) => if was == value then Some(slot) else None
  }

  function RecordAll(slots: Slots, id: Identity): Option<Slots> {
    var resource, locator, revision := Recorded(slots.resource, id.resource), Recorded(slots.locator, id.locator),
        Recorded(slots.revision, id.revision);
    if resource.Some? && locator.Some? && revision.Some? then
      Some(Slots(resource.value, locator.value, revision.value)) else None
  }

  /** A journal that has recorded identities accepts exactly those. */
  lemma RecordedIdentityStays(slots: Slots, id: Identity)
    ensures AllFilled(slots) ==> (RecordAll(slots, id).Some? <==> slots == Filled(id))
    ensures RecordAll(slots, id).Some? ==> RecordAll(slots, id).value == Filled(id)
    ensures slots == NoSlots() ==> RecordAll(slots, id) == Some(Filled(id))
  {
  }

  class Device {
    var source: Option<TreeId>
    /** The managed copy of each import. */
    var managed: map<OperationId, TreeId>
    /** The staged snapshot of each import. */
    var staged: map<OperationId, TreeId>
    var journal: Option<Journal>
    var agenda: seq<Moment>
    /** Identities once durably recorded, and the trees of the user's this program removed. */
    ghost var identities: map<OperationId, Slots>
    ghost var taken: map<OperationId, TreeId>
    /** The identity the registry's commit last answered with. */
    ghost var answered: map<OperationId, Identity>

    ghost predicate Valid()
      reads this
    {
      && (forall op :: op in taken ==> op in managed && managed[op] == taken[op])
      && match journal
         case None => true
         case Some(j) =>
           && (!j.state.Complete? ==> j.op in staged && staged[j.op] == j.tree)
           && (j.state.Planned? ==> j.slots == NoSlots() && j.op !in identities && j.op !in taken)
           && (!j.state.Planned? ==> AllFilled(j.slots) && j.op in identities && identities[j.op] == j.slots)
           && (j.state in {Switched, Complete} ==> j.op in managed && managed[j.op] == j.tree)
           && (j.state in {Verified, Switched, Complete} ==> j.op in answered && j.slots == Filled(answered[j.op]))
           && (j.op in taken ==> j.state in {Switched, Complete})
    }

    constructor (source: Option<TreeId>, agenda: seq<Moment>)
      ensures Valid() && journal == None
    {
      this.source, this.agenda := source, agenda;
      managed, staged, journal, identities, taken, answered := map[], map[], None, map[], map[], map[];
    }

    /** The user may have changed or removed the source by the time a step is taken. */
    method NextMoment() returns (m: Moment)
      requires Valid()
      modifies this`agenda, this`source
      ensures Valid()
              && (Quiet(old(agenda)) ==>
                  Quiet(agenda) && m.fault.Works? && m.reply.None? && m.left.None? && source == old(source))
    {
      m := Moment(Works, None, None, None);
      if agenda != [] {
        m, agenda := agenda[0], agenda[1..];
      }
      if m.edit.Some? { source := m.edit.value; }
    }

    /** A step of the journal, with the payload as it is in memory. */
    method Advance(next: Journal) returns (m: Moment)
      requires Valid() && journal.Some? && next.op == journal.value.op && next.tree == journal.value.tree
               && next.owner == journal.value.owner
      requires Rank(next.state) == Rank(journal.value.state) + 1 && AllFilled(next.slots)
      requires !journal.value.state.Planned? ==> next.slots == journal.value.slots
      requires next.state in {Switched, Complete} ==> next.op in managed && managed[next.op] == next.tree
      requires next.state in {Verified, Switched, Complete} ==>
                 next.op in answered && next.slots == Filled(answered[next.op])
      modifies this`journal, this`agenda, this`source, this`identities
      ensures Valid()
      ensures journal == if m.fault.Works? then Some(next) else old(journal)
      ensures forall op :: op in old(identities) ==> op in identities && identities[op] == old(identities)[op]
      ensures Quiet(old(agenda)) ==> Quiet(agenda) && m.fault.Works? && source == old(source)
    {
      m := NextMoment();
      if m.fault.Works? {
        journal := Some(next);
        identities := identities[next.op := next.slots];
      }
    }

    /** Reads the source, stages a snapshot of it, and only then journals the import. */
    method CreateImportJournal(op: OperationId, owner: Owner) returns (created: Outcome)
      requires Valid() && (journal.Some? ==> journal.value.state.Complete?) && source.Some?
      requires op !in managed && op !in identities && op !in staged
      modifies this`journal, this`staged, this`agenda, this`source
      ensures Valid()
      ensures created.Imported? ==> journal == Some(Journal(op, Planned, owner, old(source).value, NoSlots()))
      ensures !created.Imported? ==> journal == old(journal)
      ensures Quiet(old(agenda)) ==> created.Imported? && Quiet(agenda) && source == old(source)
    {
      var tree := source.value;
      var m := NextMoment();
      if !m.fault.Works? { return Interrupted(m.fault); }
      staged := staged[op := tree];
      m := NextMoment();
      if !m.fault.Works? { return Interrupted(m.fault); }
      journal := Some(Journal(op, Planned, owner, tree, NoSlots()));
      created := Imported(Identity(0, 0, 0));
    }

    /** Prepare and commit; whatever identities the registry answers with, recorded ones stay. */
    method PrepareAndCommit() returns (stop: Option<Outcome>)
      requires Valid() && journal.Some? && journal.value.state in {Planned, Staged}
      modifies this`journal, this`agenda, this`source, this`identities, this`answered
      ensures Valid() && Forward(old(journal), journal)
      ensures forall op :: op in old(identities) ==> op in identities && identities[op] == old(identities)[op]
      ensures stop.None? ==> journal.value.state == Verified
      ensures stop.Some? ==> !stop.value.Imported?
      ensures Quiet(old(agenda)) ==>
                Quiet(agenda) && source == old(source) && (stop.None? <==> Agreed(old(journal).value))
    {
      var j := journal.value;
      var m := NextMoment();
      if !m.fault.Works? { return Some(Interrupted(m.fault)); }
      var prepared := if m.reply.Some? then m.reply.value else Assigned(j.op);
      var slots := RecordAll(j.slots, prepared);
      RecordedIdentityStays(j.slots, prepared);
      if slots.None? { return Some(Refused); }
      j := j.(slots := slots.value);
      m := NextMoment();
      if !m.fault.Works? { return Some(Interrupted(m.fault)); }
      if j.state == Planned {
        j := j.(state := Staged);
        m := Advance(j);
        if !m.fault.Works? { return Some(Interrupted(m.fault)); }
      }
      m := NextMoment();
      if !m.fault.Works? { return Some(Interrupted(m.fault)); }
      var committed := if m.reply.Some? then m.reply.value else Assigned(j.op);
      answered := answered[j.op := committed];
      if j.slots != Filled(committed) { return Some(Refused); }
      m := Advance(j.(state := Verified));
      if !m.fault.Works? { return Some(Interrupted(m.fault)); }
      stop := None;
    }

    /** The managed copy is made from the staged snapshot; then the source is looked at again. */
    method MaterializeAndSwitch() returns (stop: Option<Outcome>)
      requires Valid() && journal.Some? && journal.value.state == Verified
      modifies this`journal, this`managed, this`agenda, this`source, this`identities
      ensures Valid() && Forward(old(journal), journal)
      ensures forall op :: op in old(identities) ==> op in identities && identities[op] == old(identities)[op]
      ensures stop.None? ==> journal.value.state == Switched
      ensures stop.Some? ==> !stop.value.Imported?
      ensures Quiet(old(agenda)) && old(source) in {None, Some(old(journal).value.tree)} ==>
                stop.None? && Quiet(agenda) && source == old(source)
      ensures Quiet(old(agenda)) && old(source) !in {None, Some(old(journal).value.tree)} ==>
                stop == Some(Refused) && source == old(source)
    {
      var j := journal.value;
      var m := NextMoment();
      if !m.fault.Works? { return Some(Interrupted(m.fault)); }
      managed := managed[j.op := staged[j.op]];
      m := NextMoment();
      if !m.fault.Works? { return Some(Interrupted(m.fault)); }
      if source.Some? && source.value != j.tree { return Some(Refused); }
      m := Advance(j.(state := Switched));
      if !m.fault.Works? { return Some(Interrupted(m.fault)); }
      stop := None;
    }

    /** The source goes only if it still is what was imported. A removal cut short leaves a part of
        it behind, which is then something else. */
    method RemoveSource() returns (stop: Option<Outcome>)
      requires Valid() && journal.Some? && journal.value.state == Switched
      modifies this`journal, this`agenda, this`source, this`identities, this`taken, this`staged
      ensures Valid() && Forward(old(journal), journal)
      ensures forall op :: op in old(identities) ==> op in identities && identities[op] == old(identities)[op]
      ensures taken == old(taken) || taken == old(taken)[old(journal).value.op := old(journal).value.tree]
      ensures stop.None? ==> journal.value.state == Complete
      ensures stop.Some? ==> !stop.value.Imported?
      ensures Quiet(old(agenda)) && old(source) in {None, Some(old(journal).value.tree)} ==> stop.None? && source.None?
      ensures Quiet(old(agenda)) && old(source) !in {None, Some(old(journal).value.tree)} ==>
                stop == Some(Refused) && journal == old(journal) && source == old(source)
    {
      var j := journal.value;
      var m := NextMoment();
      if !m.fault.Works? { return Some(Interrupted(m.fault)); }
      if source.Some? {
        if source.value != j.tree { return Some(Refused); }
        taken := taken[j.op := source.value];
        source := m.left;
        if m.left.Some? { return Some(Failed); }
      }
      m := NextMoment();
      if !m.fault.Works? { return Some(Interrupted(m.fault)); }
      m := Advance(j.(state := Complete));
      if !m.fault.Works? { return Some(Interrupted(m.fault)); }
      staged := staged - {j.op};
      stop := None;
    }

    /** One run of the command. */
    method Import(owner: Owner, op: OperationId) returns (result: Outcome)
      requires Valid() && op !in managed && op !in identities && op !in staged
      modifies this
      ensures Valid()
      ensures forall o :: o in old(identities) ==> o in identities && identities[o] == old(identities)[o]
      ensures Unfinished(old(journal)) ==> Forward(old(journal), journal)
      ensures result.Imported? ==>
                && journal.Some? && journal.value.state == Complete && journal.value.slots == Filled(result.id)
                && journal.value.op in answered && answered[journal.value.op] == result.id
      ensures Quiet(old(agenda)) && Unfinished(old(journal)) ==>
                && (result.Imported? <==> Resumable(old(journal), old(source), owner))
                && source == (if result.Imported? then None else old(source))
      ensures Quiet(old(agenda)) && !Unfinished(old(journal)) && old(source).Some? ==>
                result.Imported? && source.None? && op in managed && managed[op] == old(source).value
    {
      if !Unfinished(journal) {
        if source.None? { return InvalidArguments; }
        var created := CreateImportJournal(op, owner);
        if !created.Imported? { return created; }
      }
      if journal.value.owner != owner { return InvalidArguments; }
      var stop: Option<Outcome> := None;
      if journal.value.state in {Planned, Staged} {
        stop := PrepareAndCommit();
        if stop.Some? { return stop.value; }
      }
      var slots := journal.value.slots;
      if journal.value.state == Verified {
        stop := MaterializeAndSwitch();
        if stop.Some? { return stop.value; }
      }
      stop := RemoveSource();
      if stop.Some? { return stop.value; }
      result := Imported(Identity(slots.resource.value, slots.locator.value, slots.revision.value));
    }
  }

  /** The identity an honest registry gives an operation, each time. */
  function Assigned(op: OperationId): Identity { Identity(op, op, op) }

  predicate Unfinished(journal: Option<Journal>) {
    journal.Some? && !journal.value.state.Complete?
  }

  ghost predicate Quiet(agenda: seq<Moment>) {
    forall i :: 0 <= i < |agenda| ==>
        agenda[i].fault.Works? && agenda[i].edit.None? && agenda[i].reply.None? && agenda[i].left.None?
  }

  /** What is recorded so far is what the registry answers with. */
  ghost predicate Agreed(j: Journal) {
    j.state in {Planned, Verified, Switched} || j.slots == Filled(Assigned(j.op))
  }

  /** An interrupted import that a failure-free run finishes: same owner, source untouched. */
  ghost predicate Resumable(journal: Option<Journal>, source: Option<TreeId>, owner: Owner) {
    Unfinished(journal) && owner == journal.value.owner && Agreed(journal.value)
        && source in {None, Some(journal.value.tree)}
  }

  /** The journal of an import only moves on: same operation, same tree, same identities once
      they are there. */
  ghost predicate Forward(a: Option<Journal>, b: Option<Journal>) {
    a.Some? ==>
      && b.Some? && b.value.op == a.value.op && b.value.tree == a.value.tree && b.value.owner == a.value.owner
      && Rank(a.value.state) <= Rank(b.value.state)
      && (!a.value.state.Planned? ==> b.value.slots == a.value.slots)
  }

  function Interrupted(fault: Fault): (result: Outcome)
    ensures !result.Imported?
  {
    if fault.Dies? then Killed else Failed
  }
}
