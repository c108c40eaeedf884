/** One owned skill: its row in the local database, its working tree, and its private
    workspace on the registry. Every constructor of `Event` is one atomic step of some
    process; a run is any list of them, so it covers every crash and every interleaving. */
module WorkspaceModel {
  import opened Basics

  type TreeId = nat
  type OperationId = nat
  type AuthorId = nat

  /** A revision id is a hash of exactly these four things, so it is modelled as them;
      `Foreign` stands for revisions this device never built. */
  datatype RevisionId =
    | Foreign(n: nat, tree: TreeId)
    | Hashed(tree: TreeId, parents: set<RevisionId>, author: AuthorId, op: OperationId)

  function RootOf(r: RevisionId): TreeId { r.tree }

  // ----- local database ----------------------------------------------------------

  datatype Status = Clean | Waiting | PausedValidation | PendingRename | InConflict | Quota

  datatype Record = Record(
    op: OperationId, revision: RevisionId, head: RevisionId, parents: set<RevisionId>,
    generation: nat, root: TreeId, queued: bool)

  /** A conflict as the registry reports it. */
  datatype Conflict = Conflict(
    id: OperationId, base: RevisionId, heads: set<RevisionId>, active: RevisionId, generation: nat)

  datatype ContentConflict = ContentConflict(conflict: Conflict, workingRoot: TreeId, resolutionRequired: bool)

  datatype Workspace = Workspace(
    baseGeneration: nat, baseRevision: RevisionId, localHead: RevisionId, validRoot: TreeId,
    status: Status, records: seq<Record>, conflict: Option<ContentConflict>)

  /** The queued revisions of the resource in creation order. While they form a chain their
      generations increase, so this is also the order of the queue query. */
  function Queue(records: seq<Record>): seq<Record> {
    if records == [] then [] else
      var n := |records| - 1;
      Queue(records[..n]) + if records[n].queued then [records[n]] else []
  }

  /** `max_by_key` on the expected generation: the last of the largest. */
  function Latest(q: seq<Record>): Record
    requires q != []
  {
    var n := |q| - 1;
    if n == 0 then q[0] else
      var m := Latest(q[..n]);
      if m.generation <= q[n].generation then q[n] else m
  }

  predicate Fresh(records: seq<Record>, op: OperationId, revision: RevisionId) {
    forall i | 0 <= i < |records| :: records[i].op != op && records[i].revision != revision
  }

  /** `enqueue_local_revision`; the table keys refuse a repeated operation or revision. */
  function Enqueue(ws: Workspace, rec: Record): Option<Workspace> {
    if |rec.parents| in {1, 2} && rec.head in rec.parents && Fresh(ws.records, rec.op, rec.revision) then
      Some(ws.(records := ws.records + [rec.(queued := true)], localHead := rec.revision,
               validRoot := rec.root, status := Waiting))
    else None
  }

  function Unqueue(records: seq<Record>, op: OperationId): seq<Record> {
    seq(|records|, i requires 0 <= i < |records| =>
      if records[i].op == op then records[i].(queued := false) else records[i])
  }

  predicate Holds(records: seq<Record>, op: OperationId, revision: RevisionId) {
    exists i | 0 <= i < |records| :: records[i].op == op && records[i].revision == revision
  }

  /** `mark_local_revision_synced`. */
  function MarkSynced(ws: Workspace, op: OperationId, generation: nat, revision: RevisionId): Workspace {
    if !Holds(ws.records, op, revision) then ws else
      var records := Unqueue(ws.records, op);
      ws.(records := records, baseGeneration := generation, baseRevision := revision,
          status := if Queue(records) == [] then Clean else ws.status)
  }

  /** `mark_local_revision_detached_stored`: off the queue, base untouched. */
  function MarkDetached(ws: Workspace, op: OperationId): Workspace {
    ws.(records := Unqueue(ws.records, op))
  }

  function Resume(ws: Workspace): Workspace {
    ws.(status := if Queue(ws.records) == [] then Clean else Waiting)
  }

  /** `advance_clean_workspace_baseline`: a no-op unless the row is clean. */
  function AdvanceClean(ws: Workspace, generation: nat, revision: RevisionId, root: TreeId): Workspace {
    if ws.status.Clean? then
      ws.(baseGeneration := generation, baseRevision := revision, localHead := revision, validRoot := root)
    else ws
  }

  /** `adopt_registry_rename_baseline`: the same without the guard. */
  function AdoptRename(ws: Workspace, generation: nat, revision: RevisionId, root: TreeId): Workspace {
    ws.(baseGeneration := generation, baseRevision := revision, localHead := revision,
        validRoot := root, status := Clean)
  }

  /** What `capture_one` queues for a valid scan with root `tree`, if anything, given the
      workspace row and the queue as it read them. */
  function SaveFrom(ws: Workspace, q: seq<Record>, tree: TreeId, author: AuthorId, op: OperationId): Option<Record> {
    if ws.validRoot == tree then None
    else if ws.status.InConflict? && ws.conflict.Some? then
      var c := ws.conflict.value;
      if q != [] || !c.resolutionRequired || tree == c.workingRoot then None
      else Some(Record(c.conflict.id, Hashed(tree, c.conflict.heads, author, c.conflict.id),
                       c.conflict.active, c.conflict.heads, c.conflict.generation, tree, true))
    else
      var generation := if q == [] then ws.baseGeneration else Latest(q).generation + 1;
      var parent := if q == [] then ws.localHead else Latest(q).revision;
      Some(Record(op, Hashed(tree, {parent}, author, op), parent, {parent}, generation, tree, true))
  }

  function Save(ws: Workspace, tree: TreeId, author: AuthorId, op: OperationId): Option<Record> {
    SaveFrom(ws, Queue(ws.records), tree, author, op)
  }

  function Capture(ws: Workspace, tree: TreeId, author: AuthorId, op: OperationId): Workspace {
    if ws.validRoot == tree then
      if ws.status in {PausedValidation, PendingRename} then Resume(ws) else ws
    else match Save(ws, tree, author, op)
      case None => ws
      case Some(rec) => (match Enqueue(ws, rec) case None => ws case Some(next) => next)
  }

  // ----- registry ------------------------------------------------------------------

  datatype Request = Request(
    op: OperationId, generation: nat, head: RevisionId, parents: set<RevisionId>, root: TreeId)

  datatype Outcome = Prepared | Advanced(generation: nat) | Diverged(conflict: Conflict)

  datatype Operation = Operation(request: Request, revision: RevisionId, outcome: Outcome)

  datatype Registry = Registry(
    author: AuthorId, head: RevisionId, generation: nat, chain: seq<RevisionId>,
    stored: set<RevisionId>, operations: map<OperationId, Operation>, conflict: Option<Conflict>)

  datatype Refusal = GenerationConflict | OperationConflict | QuotaExceeded | InvalidRequest | NotFound

  datatype Reply<+T> = Accepted(value: T) | Refused(why: Refusal)

  function RequestOf(rec: Record): Request {
    Request(rec.op, rec.generation, rec.head, rec.parents, rec.root)
  }

  /** The compare-and-swap checks made when a new operation is prepared. */
  function Admission(reg: Registry, req: Request): Option<Refusal> {
    var matches := reg.head == req.head;
    if reg.conflict.Some? then
      if |req.parents| != 2 || req.op != reg.conflict.value.id then Some(GenerationConflict)
      else if !matches || reg.generation != req.generation then Some(GenerationConflict)
      else if reg.conflict.value.heads != req.parents then Some(InvalidRequest)
      else None
    else if matches then
      if reg.generation != req.generation || |req.parents| == 2 then Some(GenerationConflict) else None
    else if |req.parents| != 1 || req.head !in reg.stored then Some(GenerationConflict)
    else None
  }

  /** `prepare_private_revision`: idempotent by operation id and request. */
  function Prepare(reg: Registry, req: Request): (Registry, Reply<RevisionId>) {
    if |req.parents| !in {1, 2} || req.head !in req.parents then (reg, Refused(InvalidRequest))
    else if req.op in reg.operations then
      if reg.operations[req.op].request != req then (reg, Refused(OperationConflict))
      else (reg, Accepted(reg.operations[req.op].revision))
    else match Admission(reg, req)
      case Some(why) => (reg, Refused(why))
      case None =>
        var revision := Hashed(req.root, req.parents, reg.author, req.op);
        (reg.(operations := reg.operations[req.op := Operation(req, revision, Prepared)]), Accepted(revision))
  }

  /** The checks repeated under the row lock when a prepared operation is committed. */
  function CommitCheck(reg: Registry, req: Request): Option<Refusal> {
    var matches := reg.head == req.head;
    if reg.conflict.Some? && (|req.parents| != 2 || req.op != reg.conflict.value.id) then Some(GenerationConflict)
    else if matches && reg.generation != req.generation then Some(GenerationConflict)
    else if !matches && |req.parents| != 1 then Some(GenerationConflict)
    else if matches && |req.parents| == 2 && reg.conflict.None? then Some(GenerationConflict)
    else if matches && |req.parents| == 2 && reg.conflict.value.heads != req.parents then Some(InvalidRequest)
    else None
  }

  /** `commit_private_revision`: a finished operation replays its stored outcome; otherwise
      the head moves if it is still the expected one, else the revision is kept detached
      and a two-headed conflict is opened. */
  function Commit(reg: Registry, req: Request, quota: bool, newId: OperationId): (Registry, Reply<Outcome>) {
    if req.op !in reg.operations then (reg, Refused(NotFound))
    else
      var operation := reg.operations[req.op];
      if operation.request != req then (reg, Refused(OperationConflict))
      else if !operation.outcome.Prepared? then (reg, Accepted(operation.outcome))
      else match CommitCheck(reg, req)
        case Some(why) => (reg, Refused(why))
        case None =>
          if !quota then (reg, Refused(QuotaExceeded)) else
            var revision := operation.revision;
            var stored := reg.stored + {revision};
            if reg.head == req.head then
              var outcome := Advanced(reg.generation + 1);
              (reg.(head := revision, generation := reg.generation + 1, chain := reg.chain + [revision],
                    stored := stored, operations := reg.operations[req.op := operation.(outcome := outcome)],
                    conflict := if |req.parents| == 2 then None else reg.conflict), Accepted(outcome))
            else
              var conflict := Conflict(newId, req.head, {revision, reg.head}, reg.head, reg.generation);
              var outcome := Diverged(conflict);
              (reg.(stored := stored, operations := reg.operations[req.op := operation.(outcome := outcome)],
                    conflict := Some(conflict)), Accepted(outcome))
  }

  predicate RegistryOk(reg: Registry) {
    && reg.chain != [] && reg.chain[|reg.chain| - 1] == reg.head
    && (forall r :: r in reg.chain ==> r in reg.stored)
    && (forall op :: op in reg.operations ==> OperationOk(reg, op))
    && (reg.conflict.Some? ==>
        reg.conflict.value.heads <= reg.stored && reg.conflict.value.active in reg.conflict.value.heads)
  }

  predicate OperationOk(reg: Registry, op: OperationId)
    requires op in reg.operations
  {
    var operation := reg.operations[op];
    && operation.request.op == op
    && operation.revision == Hashed(operation.request.root, operation.request.parents, reg.author, op)
    && match operation.outcome
       case Prepared => true
       case Advanced(generation) =>
         operation.revision in reg.chain && generation == operation.request.generation + 1
       case Diverged(conflict) =>
         operation.revision in reg.stored && operation.revision in conflict.heads
  }

  /** What any other client may do to the registry: stored revisions, past heads and
      finished operations are permanent. */
  predicate Evolves(a: Registry, b: Registry) {
    && RegistryOk(b) && b.author == a.author
    && a.chain <= b.chain && a.stored <= b.stored
    && forall op :: op in a.operations ==>
         && op in b.operations
         && b.operations[op].request == a.operations[op].request
         && b.operations[op].revision == a.operations[op].revision
         && (!a.operations[op].outcome.Prepared? ==> b.operations[op] == a.operations[op])
  }

  lemma PrepareEvolves(reg: Registry, req: Request)
    requires RegistryOk(reg)
    ensures Evolves(reg, Prepare(reg, req).0)
  {
    var after := Prepare(reg, req).0;
    forall op | op in after.operations ensures OperationOk(after, op) {
      if op in reg.operations { assert OperationOk(reg, op); }
    }
  }

  lemma CommitEvolves(reg: Registry, req: Request, quota: bool, newId: OperationId)
    requires RegistryOk(reg)
    ensures Evolves(reg, Commit(reg, req, quota, newId).0)
  {
    var after := Commit(reg, req, quota, newId).0;
    forall op | op in after.operations ensures OperationOk(after, op) {
      assert OperationOk(reg, op);
    }
  }

  // ----- runs ------------------------------------------------------------------------

  datatype System = System(ws: Workspace, tree: TreeId, reg: Registry)

  datatype Event =
    | Edited(tree: TreeId)                                    // the user saves the working tree
    | Captured(author: AuthorId, saveOp: OperationId)         // a scan of the current tree
    | Paused(status: Status)                                  // invalid scan, quota, remote conflict
    | Asked(rec: Record)                                      // prepare call
    | Sent(rec: Record, quota: bool, newId: OperationId)      // commit call
    | Synced(rec: Record)                                     // after an Advanced reply
    | Detached(rec: Record)                                   // after a Diverged reply
    | ConflictSaved(saved: ContentConflict)
    | MergeQueued(merge: Record)
    | ConflictCleared
    | Resumed
    | Replaced(root: TreeId)                                  // the working tree is rematerialized
    | BaselineAdvanced(generation: nat, revision: RevisionId, baseRoot: TreeId)
    | RenameAdopted(newGeneration: nat, newRevision: RevisionId, newRoot: TreeId)
    | OthersActed(reg: Registry)

  function OutcomeOf(reg: Registry, rec: Record): Option<Outcome> {
    if rec.op in reg.operations && reg.operations[rec.op].request == RequestOf(rec)
       && reg.operations[rec.op].revision == rec.revision
    then Some(reg.operations[rec.op].outcome) else None
  }

  /** One step. The two steps that take a revision off the queue wait for the registry's
      reply about that very operation, request and revision. */
  ghost function Step(s: System, e: Event): System {
    match e
    case Edited(tree) => s.(tree := tree)
    case Captured(author, op) => s.(ws := Capture(s.ws, s.tree, author, op))
    case Paused(status) => s.(ws := s.ws.(status := if status in {Clean, Waiting} then s.ws.status else status))
    case Asked(rec) => s.(reg := Prepare(s.reg, RequestOf(rec)).0)
    case Sent(rec, quota, newId) => s.(reg := Commit(s.reg, RequestOf(rec), quota, newId).0)
    case Synced(rec) =>
      (match OutcomeOf(s.reg, rec)
       case Some(Advanced(generation)) => s.(ws := MarkSynced(s.ws, rec.op, generation, rec.revision))
       case _ => s)
    case Detached(rec) =>
      (match OutcomeOf(s.reg, rec)
       case Some(Diverged(_)) => if rec in s.ws.records then s.(ws := MarkDetached(s.ws, rec.op)) else s
       case _ => s)
    case ConflictSaved(saved) =>
      if |saved.conflict.heads| == 2 then s.(ws := s.ws.(conflict := Some(saved))) else s
    case MergeQueued(merge) => (match Enqueue(s.ws, merge) case Some(ws) => s.(ws := ws) case None => s)
    case ConflictCleared => s.(ws := s.ws.(conflict := None))
    case Resumed => s.(ws := Resume(s.ws))
    case Replaced(root) => s.(tree := root)
    case BaselineAdvanced(generation, revision, root) => s.(ws := AdvanceClean(s.ws, generation, revision, root))
    case RenameAdopted(generation, revision, root) => s.(ws := AdoptRename(s.ws, generation, revision, root))
    case OthersActed(reg) => if Evolves(s.reg, reg) then s.(reg := reg) else s
  }

  ghost function Run(s: System, events: seq<Event>): System
    decreases |events|
  {
    if events == [] then s else Run(Step(s, events[0]), events[1..])
  }

  lemma {:induction false} RunAppend(s: System, a: seq<Event>, b: seq<Event>)
    ensures Run(s, a + b) == Run(Run(s, a), b)
    decreases |a|
  {
    if a == [] {
      assert a + b == b;
    } else {
      RunAppend(Step(s, a[0]), a[1..], b);
      assert (a + b)[1..] == a[1..] + b;
    }
  }

  lemma RunOne(s: System, e: Event)
    ensures Run(s, [e]) == Step(s, e)
    ensures Sound(s, e) ==> SoundRun(s, [e])
  {
    assert [e][1..] == [];
  }

  /** The registry has a revision of this tree. */
  ghost predicate Preserved(tree: TreeId, reg: Registry) {
    exists r :: r in reg.stored && RootOf(r) == tree
  }

  /** Steps that carry a tree carry the tree of their revision, a new baseline is a revision the
      registry has, and a conflict that is to be merged without asking is recorded for a tree the
      registry has. */
  ghost predicate Sound(s: System, e: Event) {
    match e
    case MergeQueued(merge) => RootOf(merge.revision) == merge.root
    case BaselineAdvanced(_, revision, root) => RootOf(revision) == root && revision in s.reg.stored
    case RenameAdopted(_, revision, root) => RootOf(revision) == root && revision in s.reg.stored
    case ConflictSaved(saved) => saved.resolutionRequired || Preserved(saved.workingRoot, s.reg)
    case _ => true
  }

  ghost predicate SoundRun(s: System, events: seq<Event>)
    decreases |events|
  {
    events == [] || (Sound(s, events[0]) && SoundRun(Step(s, events[0]), events[1..]))
  }

  lemma {:induction false} SoundAppend(s: System, a: seq<Event>, b: seq<Event>)
    requires SoundRun(s, a) && SoundRun(Run(s, a), b)
    ensures SoundRun(s, a + b)
    decreases |a|
  {
    if a == [] {
      assert a + b == b;
    } else {
      SoundAppend(Step(s, a[0]), a[1..], b);
      assert (a + b)[1..] == a[1..] + b;
    }
  }

  // ----- no captured save is ever lost --------------------------------------------------

  /** The registry keeps the revision for good: as a past or present head, or detached. */
  ghost predicate Kept(rec: Record, reg: Registry) {
    && rec.op in reg.operations && reg.operations[rec.op].revision == rec.revision
    && match reg.operations[rec.op].outcome
       case Prepared => false
       case Advanced(_) => rec.revision in reg.chain
       case Diverged(_) => rec.revision in reg.stored
  }

  ghost predicate OperationsDistinct(records: seq<Record>) {
    forall i, j :: 0 <= i < j < |records| ==>
        records[i].op != records[j].op && records[i].revision != records[j].revision
  }

  ghost predicate NothingLost(s: System) {
    && RegistryOk(s.reg) && OperationsDistinct(s.ws.records)
    && forall i :: 0 <= i < |s.ws.records| ==> s.ws.records[i].queued || Kept(s.ws.records[i], s.reg)
  }

  /** Every record stays, unchanged except that it may have left the queue. */
  ghost predicate Continues(a: seq<Record>, b: seq<Record>) {
    && |a| <= |b|
    && forall i :: 0 <= i < |a| ==> b[i].(queued := a[i].queued) == a[i] && (b[i].queued ==> a[i].queued)
  }

  lemma KeptForGood(rec: Record, a: Registry, b: Registry)
    requires RegistryOk(a) && Evolves(a, b) && Kept(rec, a)
    ensures Kept(rec, b)
  {
    assert OperationOk(a, rec.op);
  }

  lemma UnqueueLosesNothing(s: System, rec: Record)
    requires NothingLost(s) && OutcomeOf(s.reg, rec).Some? && !OutcomeOf(s.reg, rec).value.Prepared?
    requires Holds(s.ws.records, rec.op, rec.revision)
    ensures var after := s.(ws := s.ws.(records := Unqueue(s.ws.records, rec.op)));
            NothingLost(after) && Continues(s.ws.records, after.ws.records)
  {
    assert OperationOk(s.reg, rec.op);
    var i :| 0 <= i < |s.ws.records| && s.ws.records[i].op == rec.op && s.ws.records[i].revision == rec.revision;
    assert Kept(s.ws.records[i], s.reg);
  }

  lemma StepKeepsRegistry(s: System, e: Event)
    requires RegistryOk(s.reg)
    ensures Evolves(s.reg, Step(s, e).reg)
  {
    match e {
      case Asked(rec) => PrepareEvolves(s.reg, RequestOf(rec));
      case Sent(rec, quota, newId) => CommitEvolves(s.reg, RequestOf(rec), quota, newId);
      case _ =>
    }
  }

  /** A registry that has moved on still keeps every save. */
  lemma RegistryLosesNothing(s: System, reg: Registry)
    requires NothingLost(s) && Evolves(s.reg, reg)
    ensures NothingLost(s.(reg := reg))
  {
    forall i | 0 <= i < |s.ws.records| && !s.ws.records[i].queued ensures Kept(s.ws.records[i], reg) {
      KeptForGood(s.ws.records[i], s.reg, reg);
    }
  }

  lemma EnqueueLosesNothing(s: System, rec: Record)
    requires NothingLost(s) && Enqueue(s.ws, rec).Some?
    ensures var after := s.(ws := Enqueue(s.ws, rec).value);
            NothingLost(after) && Continues(s.ws.records, after.ws.records)
  {
    hide RegistryOk, Kept;
  }

  lemma DequeueLosesNothing(s: System, e: Event)
    requires NothingLost(s) && (e.Synced? || e.Detached?)
    ensures NothingLost(Step(s, e)) && Continues(s.ws.records, Step(s, e).ws.records)
  {
    if Step(s, e).ws.records != s.ws.records { UnqueueLosesNothing(s, e.rec); }
  }

  lemma SaveLosesNothing(s: System, e: Event)
    requires NothingLost(s) && (e.Captured? || e.MergeQueued?)
    ensures NothingLost(Step(s, e)) && Continues(s.ws.records, Step(s, e).ws.records)
  {
    var save := if e.Captured? then Save(s.ws, s.tree, e.author, e.saveOp) else Some(e.merge);
    if save.Some? && Enqueue(s.ws, save.value).Some? { EnqueueLosesNothing(s, save.value); }
    hide Save, Kept, OperationsDistinct, RegistryOk;
  }

  lemma StepLosesNothing(s: System, e: Event)
    requires NothingLost(s)
    ensures NothingLost(Step(s, e)) && Continues(s.ws.records, Step(s, e).ws.records)
    ensures Evolves(s.reg, Step(s, e).reg)
  {
    StepKeepsRegistry(s, e);
    match e {
      case Asked(_) => RegistryLosesNothing(s, Step(s, e).reg);
      case Sent(_, _, _) => RegistryLosesNothing(s, Step(s, e).reg);
      case OthersActed(_) => RegistryLosesNothing(s, Step(s, e).reg);
      case Synced(_) => DequeueLosesNothing(s, e);
      case Detached(_) => DequeueLosesNothing(s, e);
      case Captured(_, _) => SaveLosesNothing(s, e);
      case MergeQueued(_) => SaveLosesNothing(s, e);
      case _ =>
    }
    hide Kept, OperationsDistinct, RegistryOk, Evolves, Prepare, Commit, Capture, Enqueue, MarkSynced, MarkDetached,
      OutcomeOf;
  }

  /** While the skill stays on the account: over every run of edits, scans, pauses, uploads,
      divergences, merges, crashes and foreign commits, each revision once enqueued stays
      recorded, and is queued, or on the registry's chain, or stored there as a detached head. */
  lemma {:induction false} NoSaveIsLost(s: System, events: seq<Event>)
    requires NothingLost(s)
    ensures NothingLost(Run(s, events)) && Continues(s.ws.records, Run(s, events).ws.records)
    ensures Evolves(s.reg, Run(s, events).reg)
    decreases |events|
  {
    if events != [] {
      StepLosesNothing(s, events[0]);
      NoSaveIsLost(Step(s, events[0]), events[1..]);
    }
  }

  lemma {:induction false} QueueHas(records: seq<Record>, i: nat)
    requires i < |records|
    ensures records[i].queued ==> records[i] in Queue(records)
    decreases |records|
  {
    var n := |records| - 1;
    if i < n {
      assert records[..n][i] == records[i];
      QueueHas(records[..n], i);
    }
  }
}
