/** One pass over one owned skill as `denju sync` makes it: a scan of the working tree, the upload
    of its queue, the registry's listing, and bringing the skill up to date. The pass goes on
    whether or not its scan could be made. */
module OwnedPass {
  import opened Basics
  import opened WorkspaceModel
  import opened QueueChain
  import opened WorkspaceSync
  import opened OwnedSync

  /** What becomes of the scan of one skill. `Missed` is a scan that was skipped because another
      process holds the lease, or that failed (an unreadable file, an odd file name or kind) in a
      way that is reported and otherwise leaves no trace. */
  datatype Scan = Finished | Unfit(status: Status) | Missed

  // ----- what an upload leaves alone -------------------------------------------------------------

  /** Uploads leave the tree and the last valid one alone, and a conflict they record is one that
      will be merged without asking. */
  ghost predicate UploadKeeps(a: System, b: System) {
    && b.tree == a.tree && b.ws.validRoot == a.ws.validRoot && b.ws.localHead == a.ws.localHead
    && (b.ws.conflict == a.ws.conflict || (b.ws.conflict.Some? && !b.ws.conflict.value.resolutionRequired))
  }

  lemma UploadStepKeeps(s: System, e: Event)
    requires Traffic(e) || e.Synced? || e.Detached?
    ensures UploadKeeps(s, Step(s, e))
  {
    hide Prepare, Commit, Queue, Unqueue, OutcomeOf, Evolves;
  }

  lemma {:induction false} UploadsKeep(s: System, events: seq<Event>)
    requires UploadSteps(events)
    ensures UploadKeeps(s, Run(s, events))
    decreases |events|
  {
    if events != [] {
      assert Traffic(events[0]) || events[0].Synced? || events[0].Detached?;
      UploadStepKeeps(s, events[0]);
      UploadsKeep(Step(s, events[0]), events[1..]);
    }
  }

  lemma UploadsStayCaught(a: System, b: System)
    requires UploadKeeps(a, b) && Evolves(a.reg, b.reg)
    ensures Caught(a) ==> Caught(b)
    ensures AskedTreeKept(a) ==> AskedTreeKept(b)
  {
    if AskedTreeKept(a) && b.ws.conflict == a.ws.conflict && a.ws.conflict.Some?
        && a.ws.conflict.value.resolutionRequired {
      PreservedForGood(a.ws.conflict.value.workingRoot, a.reg, b.reg);
    }
  }

  // ----- the scan ----------------------------------------------------------------------------------

  /** What a finished scan leaves, when its transaction lands: the tree is the last valid one, unless
      a conflict is recorded, or the table refuses the save because its operation is not a new one. */
  lemma CaptureCatches(ws: Workspace, tree: TreeId, author: AuthorId, op: OperationId)
    requires ws.conflict.None? && Straight(Queue(ws.records))
    ensures var after := Capture(ws, tree, author, op);
            && after.conflict.None?
            && (after.validRoot == tree || after == ws)
            && (NewOperation(ws.records, op) ==> after.validRoot == tree)
  {
    var save := Save(ws, tree, author, op);
    if ws.validRoot != tree {
      assert |{save.value.head}| == 1;
    }
    hide Queue, Straight;
  }

  method ScanOwned(skill: Skill, scan: Scan, author: AuthorId, op: OperationId)
    returns (result: Upload, caught: bool, ghost events: seq<Event>)
    requires skill.Valid() && Chained(skill.Space()) && (scan.Unfit? ==> scan.status !in {Clean, Waiting})
    modifies skill`row, skill`agenda
    ensures skill.Valid() && Path(old(skill.Space()), events, skill.Space())
    ensures caught <==> Caught(skill.Space())
    ensures skill.row.conflict == old(skill.row).conflict
    ensures old(skill.row).conflict.None? && scan.Finished? && old(skill.agenda) == []
            && NewOperation(old(skill.row).records, op) ==>
              caught
    ensures old(skill.row).conflict.None? && (!scan.Finished? || !caught) ==>
              && skill.row == old(skill.row).(status := skill.row.status)
              && (caught <==> skill.tree == old(skill.row).validRoot)
              && (skill.row.status == old(skill.row).status || !skill.row.status.Clean?)
    ensures old(skill.agenda) == [] ==> skill.agenda == [] && result.Uploaded?
    ensures scan.Missed? ==> skill.row == old(skill.row) && result.Uploaded? && skill.agenda == old(skill.agenda)
    ensures old(skill.agenda) == [] && scan.Finished? ==> skill.row == Capture(old(skill.row), skill.tree, author, op)
    ensures old(skill.agenda) == [] && scan.Unfit? ==> skill.row == old(skill.row).(status := scan.status)
    ensures scan.Finished? && Capture(old(skill.row), skill.tree, author, op) == old(skill.row) ==>
              skill.row == old(skill.row)
  {
    hide Run, Path, RegistryOk, OperationsDistinct, Chained, Queue, Capture, NewOperation, Straight;
    ghost var was := skill.Space();
    PathNone(was);
    match scan {
      case Missed => result, events := Uploaded, [];
      case Unfit(status) =>
        result, events := skill.Pause(status);
        PathTraffic(was, events);
      case Finished =>
        CaptureKeepsDistinct(skill.row, skill.tree, author, op);
        if skill.row.conflict.None? {
          ChainIsStraight(was);
          CaptureCatches(skill.row, skill.tree, author, op);
        }
        CaptureKeepsConflict(skill.row, skill.tree, author, op);
        result, events := Land(skill, Capture(skill.row, skill.tree, author, op), Captured(author, op));
    }
    caught := skill.tree == skill.row.validRoot || skill.row.conflict.Some?;
  }

  lemma ChainIsStraight(s: System)
    requires Chained(s)
    ensures Straight(Queue(s.ws.records)) && OperationsDistinct(s.ws.records)
  {
  }

  lemma CaptureKeepsConflict(ws: Workspace, tree: TreeId, author: AuthorId, op: OperationId)
    ensures Capture(ws, tree, author, op).conflict == ws.conflict
  {
    hide Queue, Save;
  }

  // ----- the uploads ---------------------------------------------------------------------------------

  /** The skill's part of the drain: its queue from the front, up to the first blocker. */
  method DrainOwned(skill: Skill) returns (stop: Option<Upload>, ghost events: seq<Event>)
    requires skill.Valid() && Chained(skill.Space())
    modifies skill`row, skill`registry, skill`agenda
    ensures skill.Valid() && Path(old(skill.Space()), events, skill.Space())
            && UploadKeeps(old(skill.Space()), skill.Space())
    ensures Queue(old(skill.row).records) == [] ==>
              && stop.None? && skill.row == old(skill.row) && skill.registry == old(skill.registry)
              && skill.agenda == old(skill.agenda)
    ensures old(skill.agenda) == [] && Uploadable(old(skill.Space())) ==>
              stop.None? && skill.agenda == [] && CalmDrain(old(skill.Space()), skill.Space())
  {
    hide Run, Path, RegistryOk, OperationsDistinct, Chained, UploadLeaves, Unqueue, Blocks, Landed, CalmUpload, InLine,
      DrainedTo, OneBehind, OneDetached;
    ghost var was := skill.Space();
    PathNone(was);
    events, stop := [], None;
    ghost var calm := skill.agenda == [] && InLine(skill.registry, Queue(skill.row.records));
    ghost var diverges := skill.agenda == [] && OneBehind(was);
    ghost var n := 0;
    if calm { NothingDrained(was); }
    var blocked := false;
    while Queue(skill.row.records) != [] && !blocked
      invariant skill.Valid() && Path(was, events, skill.Space()) && Chained(skill.Space())
      invariant UploadKeeps(was, skill.Space())
      invariant Queue(was.ws.records) == [] ==>
                  skill.Space() == was && skill.agenda == old(skill.agenda)
      invariant calm ==> skill.agenda == [] && !blocked && DrainedTo(was, skill.Space(), n)
      invariant diverges ==>
                  && skill.agenda == [] && !blocked
                  && if n == 0 then skill.Space() == was else OneDetached(was, skill.Space())
      decreases |Queue(skill.row.records)|, !blocked
    {
      var rec := Queue(skill.row.records)[0];
      QueueMembers(skill.row.records, rec);
      ghost var now, more := skill.Space(), [];
      var result;
      result, more := skill.UploadOne(rec);
      if diverges { OneDiverges(was, now, skill.Space(), n, result); }
      if calm { OneMoreDrained(was, now, skill.Space(), n, result); }
      n := n + 1;
      FrontUploaded(now, rec, more, skill.Space(), result);
      PathThen(was, events, now, more, skill.Space());
      PathKeeps(now, more, skill.Space());
      events := events + more;
      match result {
        case Uploaded =>
        case Failed(code) =>
          if !Blocks(code) { return Some(result), events; }
          blocked := true;
        case Killed => return Some(result), events;
      }
    }
    if calm { AllAreDrained(was, skill.Space(), n); }
    if diverges && n == 0 { BehindIsQueued(was); }
  }

  ghost predicate Uploadable(s: System) {
    InLine(s.reg, Queue(s.ws.records)) || OneBehind(s)
  }

  /** What draining such a queue comes to when nothing disturbs it. */
  ghost predicate CalmDrain(was: System, now: System) {
    && (InLine(was.reg, Queue(was.ws.records)) ==> DrainedTo(was, now, |Queue(was.ws.records)|))
    && (OneBehind(was) ==> OneDetached(was, now))
  }

  /** One save is queued, and another device has moved the registry's head on. */
  ghost predicate OneBehind(s: System) {
    var q := Queue(s.ws.records);
    |q| == 1 && Behind(s.reg, q[0]) && q[0].revision != s.reg.head
  }

  /** The save is kept beside the head, and their conflict is recorded, to be merged. */
  ghost predicate OneDetached(was: System, now: System) {
    var q := Queue(was.ws.records);
    && |q| == 1 && Queue(now.ws.records) == [] && now.tree == was.tree
    && now.ws == was.ws.(records := Unqueue(was.ws.records, q[0].op), status := InConflict, conflict := now.ws.conflict)
    && now.reg.head == was.reg.head && now.reg.generation == was.reg.generation && now.reg.author == was.reg.author
    && now.reg.operations.Keys == was.reg.operations.Keys + {q[0].op}
    && now.reg.conflict == Some(Conflict(0, q[0].head, {q[0].revision, was.reg.head}, was.reg.head, was.reg.generation))
    && now.ws.conflict == Some(ContentConflict(now.reg.conflict.value, q[0].root, false))
  }

  lemma BehindIsQueued(s: System)
    requires OneBehind(s)
    ensures Queue(s.ws.records) != []
  {
  }

  lemma OneDiverges(was: System, now: System, after: System, n: nat, result: Upload)
    requires OneBehind(was) && Queue(now.ws.records) != [] && OperationsDistinct(now.ws.records)
    requires if n == 0 then now == was else OneDetached(was, now)
    requires var rec := Queue(now.ws.records)[0];
             && CalmUpload(now.reg, rec, after.reg, result) && after.tree == now.tree
             && (result.Uploaded? ==> Landed(now.ws, rec, after.ws, after.reg))
    ensures result.Uploaded? && OneDetached(was, after)
  {
    UnqueueFirst(now.ws.records);
    hide Queue, Unqueue, Behind, Ready;
  }

  lemma AllAreDrained(was: System, now: System, n: nat)
    requires DrainedTo(was, now, n) && Queue(now.ws.records) == []
    ensures n == |Queue(was.ws.records)|
  {
  }

  /** The first `n` queued saves are on the registry's chain, the last of them its head, and the row
      is synced onto it, clean when there are no more. */
  ghost predicate DrainedTo(was: System, now: System, n: nat) {
    var q := Queue(was.ws.records);
    && n <= |q| && Queue(now.ws.records) == q[n..] && InLine(now.reg, q[n..])
    && now.reg.generation == was.reg.generation + n
    && now.tree == was.tree && now.ws.localHead == was.ws.localHead && now.ws.validRoot == was.ws.validRoot
    && now.ws.conflict == was.ws.conflict
    && (n == 0 ==> now == was)
    && (n > 0 ==>
          && now.reg.head == q[n - 1].revision == now.ws.baseRevision && now.reg.conflict.None?
          && now.ws.baseGeneration == now.reg.generation && (n == |q| ==> now.ws.status.Clean?))
  }

  lemma NothingDrained(s: System)
    requires InLine(s.reg, Queue(s.ws.records))
    ensures DrainedTo(s, s, 0)
  {
    assert Queue(s.ws.records)[0..] == Queue(s.ws.records);
  }

  lemma OneMoreDrained(was: System, now: System, after: System, n: nat, result: Upload)
    requires DrainedTo(was, now, n) && Queue(now.ws.records) != [] && OperationsDistinct(now.ws.records)
    requires var rec := Queue(now.ws.records)[0];
             && CalmUpload(now.reg, rec, after.reg, result) && after.tree == now.tree
             && (result.Uploaded? ==> Landed(now.ws, rec, after.ws, after.reg))
    ensures result.Uploaded? && DrainedTo(was, after, n + 1)
  {
    var q := Queue(was.ws.records);
    assert Queue(now.ws.records)[0] == q[n] && q[n..][1..] == q[n + 1..];
    InLineGoesOn(now, after, result);
    InLineIsReady(now.reg, q[n..]);
    UnqueueFirst(now.ws.records);
    hide InLine, Queue, Unqueue, Ready, Behind;
  }

  lemma FrontUploaded(now: System, rec: Record, events: seq<Event>, after: System, result: Upload)
    requires UploadLeaves(now, rec, events, after, result) && Chained(now)
    requires Queue(now.ws.records) != [] && rec == Queue(now.ws.records)[0]
    ensures Path(now, events, after) && UploadKeeps(now, after)
    ensures |Queue(after.ws.records)| <= |Queue(now.ws.records)|
    ensures result.Uploaded? ==> |Queue(after.ws.records)| < |Queue(now.ws.records)|
  {
    UploadsKeep(now, events);
    UnqueueFirst(now.ws.records);
  }

  // ----- the pass ---------------------------------------------------------------------------------------

  /** How the registry lists the skill. */
  function Listing(reg: Registry, name: Name): Remote {
    Remote(name, reg.head, reg.generation, if reg.conflict.Some? then [reg.conflict.value] else [])
  }

  lemma ListingIsStored(reg: Registry, name: Name)
    requires RegistryOk(reg)
    ensures Listing(reg, name).revision in reg.stored
    ensures forall c :: c in Listing(reg, name).conflicts ==> c.heads <= reg.stored
  {
    assert reg.chain[|reg.chain| - 1] in reg.chain;
  }

  /** The listing call; by then other devices may have acted. */
  method ListOwned(skill: Skill, name: Name) returns (listed: Option<Remote>, ghost events: seq<Event>)
    requires skill.Valid() && Chained(skill.Space()) && HeadKept(skill.Space()) && MergingTreeKept(skill.Space())
    modifies skill`registry, skill`agenda
    ensures skill.Valid() && Chained(skill.Space()) && HeadKept(skill.Space()) && MergingTreeKept(skill.Space())
    ensures skill.Space() == Run(old(skill.Space()), events) && Evolves(old(skill.registry), skill.registry)
    ensures listed.Some? ==>
              && listed.value == Listing(skill.registry, name) && listed.value.revision in skill.registry.stored
              && forall c :: c in listed.value.conflicts ==> c.heads <= skill.registry.stored
    ensures old(skill.agenda) == [] ==>
              skill.agenda == [] && skill.registry == old(skill.registry) && listed.Some?
  {
    hide Run, RegistryOk, OperationsDistinct, Chained, HeadKept, MergingTreeKept, Path;
    var m := skill.NextMoment();
    events := skill.OthersAct(m);
    PathTraffic(old(skill.Space()), events);
    PathKeeps(old(skill.Space()), events, skill.Space());
    ListingIsStored(skill.registry, name);
    listed := if m.weather.Fine? then Some(Listing(skill.registry, name)) else None;
  }

  /** Every stored revision of the tree is the local head it started from or a save made since. */
  ghost predicate OnlyHere(tree: TreeId, was: Workspace, now: Workspace, reg: Registry) {
    forall r :: r in reg.stored && RootOf(r) == tree ==>
      r == was.localHead || exists i :: |was.records| <= i < |now.records| && now.records[i].revision == r
  }

  lemma OnlyHereIsNoOther(s: System, was: Workspace, reg: Registry)
    requires OnlyHere(s.tree, was, s.ws, reg) && s.ws.records == was.records && s.ws.localHead == was.localHead
    requires s.reg == reg
    ensures NoOtherHas(s)
  {
  }

  /** What was caught, and what a conflict held, is so when the skill is brought up to date. */
  lemma CaughtGoesThrough(was: System, scanned: System, drained: System)
    requires scanned.ws.conflict == was.ws.conflict && scanned.reg == was.reg
    requires UploadKeeps(scanned, drained) && Evolves(scanned.reg, drained.reg)
    ensures Caught(scanned) ==> Caught(drained)
    ensures AskedTreeKept(was) ==> AskedTreeKept(drained)
  {
    UploadsStayCaught(scanned, drained);
  }

  lemma CaughtWhileOthersAct(was: System, drained: System, now: System)
    requires now == drained.(reg := now.reg) && Evolves(drained.reg, now.reg)
    ensures Caught(drained) ==> Caught(now)
    ensures AskedTreeKept(drained) ==> AskedTreeKept(now)
    ensures Uncaught(was, drained) ==> Uncaught(was, now)
  {
    UploadsStayCaught(drained, now);
  }

  lemma MissedIsLost(was: System, now: System, after: System)
    requires was.ws.conflict.None? && now.ws == was.ws.(status := now.ws.status) && now.tree == was.tree
    requires Queue(now.ws.records) == [] && after.reg == now.reg && after.ws.records == now.ws.records
    requires OnlyHere(was.tree, was.ws, after.ws, after.reg) && !Caught(now) && after.tree != now.tree
    requires NoOtherHas(now) ==> (GivesUpOnlyPreserved(now, after) <==> now.tree == now.ws.validRoot)
    ensures !Preserved(was.tree, after.reg)
  {
    OnlyHereIsNoOther(now, was.ws, after.reg);
  }

  lemma NoConflictNothingAsked(s: System)
    requires s.ws.conflict.None?
    ensures AskedTreeKept(s)
  {
  }

  /** The scan changes nothing: it did not come to this skill, or had nothing to take. */
  ghost predicate NothingToScan(s: System, scan: Scan, author: AuthorId, op: OperationId) {
    scan.Missed? || (scan.Finished? && Capture(s.ws, s.tree, author, op) == s.ws)
  }

  /** A clean skill on the registry's head whose tree the user has edited. */
  ghost predicate EditedOnHead(s: System, author: AuthorId, op: OperationId) {
    && s.ws.status.Clean? && s.ws.conflict.None? && s.tree != s.ws.validRoot && NewOperation(s.ws.records, op)
    && s.reg.conflict.None? && s.reg.head == s.ws.localHead && s.reg.generation == s.ws.baseGeneration
    && s.reg.author == author && op !in s.reg.operations
  }

  /** The edit is the registry's next head, and the skill clean on it. */
  ghost predicate EditSaved(was: System, now: System, op: OperationId) {
    && now.tree == was.tree && now.ws.validRoot == was.tree
    && now.reg.head == Hashed(was.tree, {was.reg.head}, was.reg.author, op)
    && now.reg.generation == was.reg.generation + 1 && now.reg.conflict.None?
    && now.ws.status.Clean? && Queue(now.ws.records) == [] && now.ws.conflict.None?
    && now.ws.localHead == now.ws.baseRevision == now.reg.head && now.ws.baseGeneration == now.reg.generation
  }

  lemma CaptureContinues(ws: Workspace, tree: TreeId, author: AuthorId, op: OperationId)
    requires ws.conflict.None? && ws.validRoot != tree && NewOperation(ws.records, op)
    ensures Continued(ws, Capture(ws, tree, author, op), tree, author, op)
  {
    CaptureCases(ws, tree, author, op);
    hide Continued, Capture;
  }

  lemma EditIsInLine(was: System, author: AuthorId, op: OperationId)
    requires EditedOnHead(was, author, op) && Queue(was.ws.records) == []
    ensures var scanned := was.(ws := Capture(was.ws, was.tree, author, op));
            && InLine(scanned.reg, Queue(scanned.ws.records)) && |Queue(scanned.ws.records)| == 1
            && forall now :: DrainedTo(scanned, now, 1) ==> EditSaved(was, now, op)
  {
    var scanned := was.(ws := Capture(was.ws, was.tree, author, op));
    CaptureContinues(was.ws, was.tree, author, op);
    var rec := scanned.ws.records[|was.ws.records|];
    QueueAppend(was.ws.records, rec);
    assert [] + [rec] == [rec];
    hide Capture, Queue, NewOperation, DrainedTo, EditSaved;
    forall now | DrainedTo(scanned, now, 1) ensures EditSaved(was, now, op) {
      DrainedIsSaved(was, scanned, now, rec, author, op);
    }
  }

  lemma DrainedIsSaved(was: System, scanned: System, now: System, rec: Record, author: AuthorId, op: OperationId)
    requires EditedOnHead(was, author, op) && DrainedTo(scanned, now, 1)
    requires scanned == was.(ws := scanned.ws) && Queue(scanned.ws.records) == [rec]
    requires rec.revision == Hashed(was.tree, {was.reg.head}, was.reg.author, op)
    requires scanned.ws.localHead == rec.revision && scanned.ws.validRoot == was.tree && scanned.ws.conflict.None?
    ensures EditSaved(was, now, op)
  {
    hide Queue, NewOperation;
    assert [rec][1..] == [];
  }

  /** Taking the saved edit as the baseline leaves it saved. */
  lemma StillSaved(was: System, now: System, after: System, op: OperationId)
    requires EditSaved(was, now, op) && after.reg == now.reg && after.tree in {now.tree, RootOf(now.reg.head)}
    requires after.ws == now.ws.(baseGeneration := now.reg.generation, baseRevision := now.reg.head,
                                 localHead := now.reg.head, validRoot := RootOf(now.reg.head))
    ensures EditSaved(was, after, op)
  {
  }

  /** A clean skill whose tree the user has edited while another device has moved the head on; the
      two merge. Neither the save's operation nor the id the registry gives the conflict is in use. */
  ghost predicate EditedBehind(s: System, author: AuthorId, op: OperationId, merge: Merge) {
    && s.ws.status.Clean? && s.ws.conflict.None? && s.tree != s.ws.validRoot
    && NewOperation(s.ws.records, op) && NewOperation(s.ws.records, 0) && op != 0
    && s.reg.conflict.None? && s.reg.head != s.ws.localHead && s.ws.localHead in s.reg.stored
    && s.reg.author == author && op !in s.reg.operations && 0 !in s.reg.operations
    && s.reg.head != EditOf(s, op)
    && merge(s.ws.localHead, {EditOf(s, op), s.reg.head}).Some?
  }

  ghost function EditOf(s: System, op: OperationId): RevisionId {
    Hashed(s.tree, {s.ws.localHead}, s.reg.author, op)
  }

  /** The conflict the two come to. */
  ghost function ConflictOf(s: System, op: OperationId): Conflict {
    Conflict(0, s.ws.localHead, {EditOf(s, op), s.reg.head}, s.reg.head, s.reg.generation)
  }

  lemma EditIsBehind(was: System, author: AuthorId, op: OperationId, merge: Merge)
    requires EditedBehind(was, author, op, merge) && Queue(was.ws.records) == []
    ensures var scanned := was.(ws := Capture(was.ws, was.tree, author, op));
            && OneBehind(scanned)
            && forall now :: OneDetached(scanned, now) ==>
                 now.reg.conflict == Some(ConflictOf(was, op)) && MergesHere(now, ConflictOf(was, op), author, merge)
  {
    var scanned := was.(ws := Capture(was.ws, was.tree, author, op));
    CaptureContinues(was.ws, was.tree, author, op);
    var rec := scanned.ws.records[|was.ws.records|];
    QueueAppend(was.ws.records, rec);
    assert [] + [rec] == [rec] && |{rec.head}| == 1;
    hide Capture, Queue, MergesHere, OneDetached, EditedBehind;
    forall now | OneDetached(scanned, now)
      ensures now.reg.conflict == Some(ConflictOf(was, op)) && MergesHere(now, ConflictOf(was, op), author, merge)
    {
      DetachedMerges(was, scanned, now, rec, author, op, merge);
    }
  }

  lemma DetachedMerges(was: System, scanned: System, now: System, rec: Record, author: AuthorId, op: OperationId,
                       merge: Merge)
    requires EditedBehind(was, author, op, merge) && scanned.tree == was.tree && scanned.reg == was.reg
    requires rec == Record(op, EditOf(was, op), was.ws.localHead, {was.ws.localHead}, rec.generation, was.tree, true)
    requires scanned.ws.records == was.ws.records + [rec] && Queue(scanned.ws.records) == [rec]
    requires OneDetached(scanned, now)
    ensures now.reg.conflict == Some(ConflictOf(was, op)) && MergesHere(now, ConflictOf(was, op), author, merge)
  {
    var c := ConflictOf(was, op);
    assert RootOf(EditOf(was, op)) == now.tree && EditOf(was, op) in c.heads;
    assert !MustAsk(now, c, merge);
    hide Queue;
    forall i | 0 <= i < |now.ws.records| ensures now.ws.records[i].op != 0 {
      assert i < |was.ws.records| ==> now.ws.records[i].op == was.ws.records[i].op;
    }
    forall i | 0 <= i < |now.ws.records|
      ensures now.ws.records[i].revision != Hashed(merge(c.base, c.heads).value, c.heads, author, c.id)
    {
      assert i < |was.ws.records| ==> now.ws.records[i].revision == was.ws.records[i].revision;
    }
  }

  /** A pass that nothing disturbs, over a skill with no unfinished work: nothing was edited; or the
      edit can go on the registry's head; or it can be merged with it. */
  ghost predicate Plain(s: System, scan: Scan, author: AuthorId, op: OperationId, merge: Merge) {
    && Queue(s.ws.records) == []
    && (NothingToScan(s, scan, author, op)
        || (scan.Finished? && (EditedOnHead(s, author, op) || EditedBehind(s, author, op, merge))))
  }

  /** What scan and uploads leave for the rest of such a pass. */
  ghost predicate CalmBefore(was: System, now: System, scan: Scan, author: AuthorId, op: OperationId, merge: Merge) {
    && (NothingToScan(was, scan, author, op) ==> now == was)
    && (scan.Finished? && EditedOnHead(was, author, op) ==> EditSaved(was, now, op))
    && (scan.Finished? && EditedBehind(was, author, op, merge) ==>
          && now.reg.conflict == Some(ConflictOf(was, op)) && |ConflictOf(was, op).heads| == 2
          && MergesHere(now, ConflictOf(was, op), author, merge))
  }

  /** What such a pass comes to: an edit on the registry's head is the next head; an edit beside it, or
      a conflict found with nothing edited, is merged, and the merge is the next head; the skill
      is clean on it. */
  ghost predicate CalmPass(was: System, now: System, scan: Scan, author: AuthorId, op: OperationId, merge: Merge,
                           result: Upload) {
    Queue(was.ws.records) == [] ==>
      && (NothingToScan(was, scan, author, op) && was.reg.conflict.Some? && |was.reg.conflict.value.heads| == 2
          && MergesHere(was, was.reg.conflict.value, author, merge) ==>
            result.Uploaded? && MergeIsHead(now, was.reg.conflict.value, author, merge))
      && (scan.Finished? && EditedOnHead(was, author, op) ==> result.Uploaded? && EditSaved(was, now, op))
      && (scan.Finished? && EditedBehind(was, author, op, merge) ==>
            result.Uploaded? && MergeIsHead(now, ConflictOf(was, op), author, merge))
  }

  ghost predicate MergeIsHead(s: System, c: Conflict, author: AuthorId, merge: Merge) {
    MergedHere(s, c) && Some(s.tree) == merge(c.base, c.heads) && s.reg.head == Hashed(s.tree, c.heads, author, c.id)
  }

  lemma PlainScan(was: System, scanned: System, scan: Scan, author: AuthorId, op: OperationId, merge: Merge)
    requires Plain(was, scan, author, op, merge)
    requires scan.Missed? ==> scanned == was
    requires scan.Finished? ==> scanned == was.(ws := Capture(was.ws, was.tree, author, op))
    ensures Uploadable(scanned)
  {
    hide EditedOnHead, EditedBehind, Capture, InLine, OneBehind, DrainedTo, OneDetached, EditSaved, MergesHere, Queue;
    NothingIsInLine(was.reg);
    if scan.Finished? && EditedOnHead(was, author, op) {
      EditIsInLine(was, author, op);
    } else if scan.Finished? && EditedBehind(was, author, op, merge) {
      EditIsBehind(was, author, op, merge);
    }
  }

  lemma NothingIsInLine(reg: Registry)
    ensures InLine(reg, [])
  {
  }

  lemma IdleIsPlain(was: System, scan: Scan, author: AuthorId, op: OperationId, merge: Merge)
    requires NothingToScan(was, scan, author, op) && Queue(was.ws.records) == []
    ensures Plain(was, scan, author, op, merge)
    ensures forall now :: CalmBefore(was, now, scan, author, op, merge) ==> now == was
  {
  }

  lemma PlainDrain(was: System, scanned: System, now: System, scan: Scan, author: AuthorId, op: OperationId,
                   merge: Merge)
    requires Plain(was, scan, author, op, merge) && CalmDrain(scanned, now)
    requires scan.Missed? ==> scanned == was
    requires scan.Finished? ==> scanned == was.(ws := Capture(was.ws, was.tree, author, op))
    ensures CalmBefore(was, now, scan, author, op, merge)
  {
    hide EditedOnHead, EditedBehind, Capture, InLine, OneBehind, DrainedTo, OneDetached, EditSaved, MergesHere, Queue,
      ConflictOf;
    if NothingToScan(was, scan, author, op) {
      NothingIsInLine(was.reg);
      DrainedNone(was, now);
    }
    if scan.Finished? && EditedOnHead(was, author, op) {
      EditIsInLine(was, author, op);
      assert DrainedTo(scanned, now, 1);
    }
    if scan.Finished? && EditedBehind(was, author, op, merge) {
      BehindIsClean(was, author, op, merge);
      EditIsBehind(was, author, op, merge);
      assert OneDetached(scanned, now);
    }
  }

  lemma DrainedNone(was: System, now: System)
    ensures DrainedTo(was, now, 0) ==> now == was
  {
  }

  lemma BehindIsClean(s: System, author: AuthorId, op: OperationId, merge: Merge)
    requires EditedBehind(s, author, op, merge)
    ensures |ConflictOf(s, op).heads| == 2
  {
  }

  lemma PlainSync(was: System, now: System, after: System, scan: Scan, author: AuthorId, op: OperationId, merge: Merge,
                  result: Upload)
    requires CalmBefore(was, now, scan, author, op, merge)
    requires now.reg.conflict.Some? && |now.reg.conflict.value.heads| == 2
             && MergesHere(now, now.reg.conflict.value, author, merge) ==>
               result.Uploaded? && MergeIsHead(after, now.reg.conflict.value, author, merge)
    requires now.reg.conflict.None? && now.ws.status.Clean? && now.ws.conflict.None? ==>
               && result.Uploaded? && after.reg == now.reg && after.tree in {now.tree, RootOf(now.reg.head)}
               && after.ws == now.ws.(baseGeneration := now.reg.generation, baseRevision := now.reg.head,
                                      localHead := now.reg.head, validRoot := RootOf(now.reg.head))
    ensures CalmPass(was, after, scan, author, op, merge, result)
  {
    if scan.Finished? && EditedOnHead(was, author, op) { StillSaved(was, now, after, op); }
    hide EditedOnHead, EditedBehind, MergesHere, MergeIsHead, NothingToScan, ConflictOf;
  }

  lemma OnlyPlain(was: System, scan: Scan, author: AuthorId, op: OperationId, merge: Merge)
    requires !Plain(was, scan, author, op, merge)
    ensures forall now, result :: CalmPass(was, now, scan, author, op, merge, result)
  {
  }

  /** What a scan that caught nothing leaves of a clean skill once the queue has been drained. */
  ghost predicate Uncaught(was: System, now: System) {
    now.ws == was.ws.(status := now.ws.status) && Queue(now.ws.records) == [] && !Caught(now)
  }

  /** The scan, then the uploads. */
  method ScanAndDrain(skill: Skill, scan: Scan, op: OperationId, author: AuthorId, ghost merge: Merge)
    returns (stop: Option<Upload>, caught: bool, ghost events: seq<Event>)
    requires skill.Valid() && Chained(skill.Space()) && HeadKept(skill.Space()) && MergingTreeKept(skill.Space())
    requires scan.Unfit? ==> scan.status !in {Clean, Waiting}
    modifies skill`row, skill`registry, skill`agenda
    ensures skill.Valid() && Chained(skill.Space()) && HeadKept(skill.Space()) && MergingTreeKept(skill.Space())
    ensures skill.Space() == Run(old(skill.Space()), events)
    ensures stop.None? ==>
              && (caught ==> Caught(skill.Space()))
              && (AskedTreeKept(old(skill.Space())) ==> AskedTreeKept(skill.Space()))
    ensures old(skill.row).conflict.None? && !scan.Finished? ==>
              (caught <==> old(skill.tree) == old(skill.row).validRoot)
    ensures old(skill.row).conflict.None? && scan.Finished? && old(skill.agenda) == []
            && NewOperation(old(skill.row).records, op) ==>
              caught
    ensures old(skill.row).status.Clean? && old(skill.row).conflict.None? && !caught && stop.None? ==>
              Uncaught(old(skill.Space()), skill.Space())
    ensures old(skill.agenda) == [] && Plain(old(skill.Space()), scan, author, op, merge) ==>
              stop.None? && skill.agenda == [] && CalmBefore(old(skill.Space()), skill.Space(), scan, author, op, merge)
  {
    hide Caught, CalmBefore, Plain, CalmDrain, Uploadable, Capture, Run, Path, RegistryOk, OperationsDistinct, Chained,
      Queue, HeadKept, MergingTreeKept, AskedTreeKept, NewOperation, UploadKeeps, Evolves;
    ghost var was := skill.Space();
    if skill.row.status.Clean? {
      ChainedInOrder(was);
      CleanIsDrained(was);
    }
    ghost var plain := skill.agenda == [] && Plain(was, scan, author, op, merge);
    var result;
    result, caught, events := ScanOwned(skill, scan, author, op);
    ghost var scanned := skill.Space();
    if plain { PlainScan(was, scanned, scan, author, op, merge); }
    PathIsRun(was, events, scanned);
    PathKeeps(was, events, scanned);
    if result.Killed? { return Some(result), caught, events; }
    ghost var more;
    stop, more := DrainOwned(skill);
    ghost var drained := skill.Space();
    PathIsRun(scanned, more, drained);
    PathKeeps(scanned, more, drained);
    RunBoth(was, events, more, drained);
    events := events + more;
    CaughtGoesThrough(was, scanned, drained);
    if plain && stop.None? { PlainDrain(was, scanned, drained, scan, author, op, merge); }
  }

  /** Scan, uploads and listing, which come before the skill is brought up to date. */
  method BeforeSync(skill: Skill, scan: Scan, op: OperationId, name: Name, author: AuthorId, ghost merge: Merge)
    returns (stop: Option<Upload>, caught: bool, listed: Option<Remote>, ghost events: seq<Event>)
    requires skill.Valid() && Chained(skill.Space()) && HeadKept(skill.Space()) && MergingTreeKept(skill.Space())
    requires scan.Unfit? ==> scan.status !in {Clean, Waiting}
    modifies skill`row, skill`registry, skill`agenda
    ensures skill.Valid() && Chained(skill.Space()) && HeadKept(skill.Space()) && MergingTreeKept(skill.Space())
    ensures skill.Space() == Run(old(skill.Space()), events)
    ensures stop.Some? ==> listed.None?
    ensures stop.None? ==>
              && listed == Some(Listing(skill.registry, name)) && listed.value.revision in skill.registry.stored
              && (forall c :: c in listed.value.conflicts ==> c.heads <= skill.registry.stored)
              && (caught ==> Caught(skill.Space()))
              && (AskedTreeKept(old(skill.Space())) ==> AskedTreeKept(skill.Space()))
    ensures old(skill.row).conflict.None? && !scan.Finished? ==>
              (caught <==> old(skill.tree) == old(skill.row).validRoot)
    ensures old(skill.row).conflict.None? && scan.Finished? && old(skill.agenda) == []
            && NewOperation(old(skill.row).records, op) ==>
              caught
    ensures old(skill.row).status.Clean? && old(skill.row).conflict.None? && !caught && stop.None? ==>
              Uncaught(old(skill.Space()), skill.Space())
    ensures old(skill.agenda) == [] && Plain(old(skill.Space()), scan, author, op, merge) ==>
              stop.None? && skill.agenda == [] && CalmBefore(old(skill.Space()), skill.Space(), scan, author, op, merge)
  {
    hide Caught, CalmBefore, Plain, Run, RegistryOk, OperationsDistinct, Chained, Queue, HeadKept, MergingTreeKept,
      AskedTreeKept, NewOperation, Evolves, Uncaught;
    ghost var was := skill.Space();
    listed := None;
    stop, caught, events := ScanAndDrain(skill, scan, op, author, merge);
    if stop.Some? { return; }
    ghost var drained := skill.Space();
    ghost var more;
    listed, more := ListOwned(skill, name);
    RunBoth(was, events, more, skill.Space());
    events := events + more;
    if listed.None? { return Some(Failed(RegistryUnavailable)), caught, listed, events; }
    CaughtWhileOthersAct(was, drained, skill.Space());
  }

  /** One pass. A tree it replaces is one the registry has, provided the scan of this very pass caught
      it or there was nothing to catch. A skill that was clean is replaced all the same when the scan
      was missed; and unless somebody else happens to have the tree, it is then kept exactly when it
      had been caught. */
  method PassOwned(skill: Skill, scan: Scan, op: OperationId, local: Local, name: Name, author: AuthorId, merge: Merge)
    returns (result: Upload, next: Local, caught: bool, listed: Option<Remote>, ghost events: seq<Event>)
    requires skill.Valid() && Chained(skill.Space()) && HeadKept(skill.Space()) && MergingTreeKept(skill.Space())
    requires scan.Unfit? ==> scan.status !in {Clean, Waiting}
    modifies skill
    ensures skill.Valid() && skill.Space() == Run(old(skill.Space()), events)
    ensures caught && AskedTreeKept(old(skill.Space())) && skill.tree != old(skill.tree) ==>
              Preserved(old(skill.tree), skill.registry)
    ensures old(skill.row).status.Clean? && old(skill.row).conflict.None? && skill.tree != old(skill.tree)
            && listed.Some? && listed.value.conflicts == []
            && OnlyHere(old(skill.tree), old(skill.row), skill.row, skill.registry) ==>
              (Preserved(old(skill.tree), skill.registry) <==> caught)
    ensures old(skill.row).conflict.None? && !scan.Finished? ==>
              (caught <==> old(skill.tree) == old(skill.row).validRoot)
    ensures old(skill.row).conflict.None? && scan.Finished? && old(skill.agenda) == []
            && NewOperation(old(skill.row).records, op) ==>
              caught
    ensures old(skill.agenda) == [] && NothingToScan(old(skill.Space()), scan, author, op)
            && old(skill.row).status.Clean? && old(skill.row).conflict.None?
            && old(skill.registry).conflict.None?
            && (local.name != name || !AlreadyCurrent(local, Listing(old(skill.registry), name))) ==>
              && skill.tree == RootOf(old(skill.registry).head) && skill.registry == old(skill.registry)
              && skill.row.records == old(skill.row).records
    ensures old(skill.agenda) == [] ==>
              CalmPass(old(skill.Space()), skill.Space(), scan, author, op, merge, result)
  {
    hide CalmPass, CalmBefore, Plain, NothingToScan, Capture, Run, Path, RegistryOk, OperationsDistinct, Chained, Queue,
        HeadKept,
        MergingTreeKept, AskedTreeKept,
      NewOperation, OnlyHere, NoOtherHas, Evolves, Preserved, AlreadyCurrent, MergesHere, MergedHere, RenameAwaited,
      SettlesHere, AdvanceClean, AdoptRename;
    ghost var was := skill.Space();
    if skill.row.status.Clean? {
      ChainedInOrder(was);
      CleanIsDrained(was);
    }
    if skill.row.conflict.None? { NoConflictNothingAsked(was); }
    next := local;
    ghost var plain := skill.agenda == [] && Plain(was, scan, author, op, merge);
    if !Plain(was, scan, author, op, merge) { OnlyPlain(was, scan, author, op, merge); }
    if NothingToScan(was, scan, author, op) && Queue(was.ws.records) == [] {
      IdleIsPlain(was, scan, author, op, merge);
    }
    var stop;
    stop, caught, listed, events := BeforeSync(skill, scan, op, name, author, merge);
    if stop.Some? { return stop.value, next, caught, listed, events; }
    ghost var now, more := skill.Space(), [];
    var remote := listed.value;
    result, next, more := SyncOwnedSkill(skill, local, remote, author, merge);
    if plain { PlainSync(was, now, skill.Space(), scan, author, op, merge, result); }
    RunBoth(was, events, more, skill.Space());
    events := events + more;
    if was.ws.status.Clean? && was.ws.conflict.None? && remote.conflicts == [] && skill.tree != was.tree && !caught
       && OnlyHere(was.tree, was.ws, skill.row, skill.registry) {
      MissedIsLost(was, now, skill.Space());
    }
  }

  // ----- an edit that no scan has seen ---------------------------------------------------------------

  /** A clean skill the user has edited, and a registry another device has saved to. */
  function EditedMeanwhile(): System { System(CleanStart().ws, 300, OtherSaved()) }

  /** Where such a skill ends when its scan was missed, renamed on the registry or not. */
  function FollowedOver(): System {
    System(Workspace(2, Other(), Other(), 200, Clean, [], None), 200, OtherSaved())
  }

  lemma EditedIsInOrder()
    ensures Chained(EditedMeanwhile()) && HeadKept(EditedMeanwhile()) && MergingTreeKept(EditedMeanwhile())
    ensures !Caught(EditedMeanwhile()) && !Preserved(300, OtherSaved())
  {
    RegistriesEvolve();
  }

  /** From a clean start: an edit, a save of another device, and the clean row followed to it without
      a scan. Every step is sound and orderly, and nothing holds the edit. */
  lemma MissedScanCanLoseAnEdit(renamed: bool)
    ensures var follow := if renamed then RenameAdopted(2, Other(), 200) else BaselineAdvanced(2, Other(), 200);
            && Path(CleanStart(), [Edited(300)] + [OthersActed(OtherSaved())] + [Replaced(200)] + [follow],
                    FollowedOver())
            && Chained(CleanStart()) && HeadKept(CleanStart()) && !Preserved(300, FollowedOver().reg)
            && FollowedOver().ws.records == []
  {
    var s0 := CleanStart();
    var s1 := s0.(tree := 300);
    var follow := if renamed then RenameAdopted(2, Other(), 200) else BaselineAdvanced(2, Other(), 200);
    RegistriesEvolve();
    NobodyHasTheEdit();
    EditedIsInOrder();
    HeadKeptAtStart();
    EditGoes();
    FollowGoes(renamed);
    PathNone(s0);
    hide Path, Goes, Chained, HeadKept, Preserved, EditedMeanwhile, OtherSaved, CleanStart;
    PathGoes(s0, [], s0, Edited(300), s1);
    assert [] + [Edited(300)] == [Edited(300)];
    PathGoes(s0, [Edited(300)], s1, OthersActed(OtherSaved()), EditedMeanwhile());
    var a := [Edited(300)] + [OthersActed(OtherSaved())];
    PathGoes(s0, a, EditedMeanwhile(), Replaced(200), EditedMeanwhile().(tree := 200));
    PathGoes(s0, a + [Replaced(200)], EditedMeanwhile().(tree := 200), follow, FollowedOver());
  }

  lemma EditGoes()
    ensures var s0 := CleanStart();
            && Goes(s0, Edited(300), s0.(tree := 300))
            && Goes(s0.(tree := 300), OthersActed(OtherSaved()), EditedMeanwhile())
  {
    RegistriesEvolve();
    hide Evolves;
  }

  lemma FollowGoes(renamed: bool)
    ensures var s, follow := EditedMeanwhile(), if renamed then RenameAdopted(2, Other(), 200)
                                                else BaselineAdvanced(2, Other(), 200);
            && Goes(s, Replaced(200), s.(tree := 200)) && Goes(s.(tree := 200), follow, FollowedOver())
  {
    assert Queue([]) == [];
  }

  lemma HeadKeptAtStart()
    ensures HeadKept(CleanStart())
  {
  }

  /** And a pass that misses its scan does take those steps, by either path. */
  method MissedScanLosesTheEdit(renamed: bool, merge: Merge) returns (skill: Skill)
    ensures fresh(skill) && skill.tree == 200 && skill.row.records == [] && !Preserved(300, skill.registry)
  {
    EditedIsInOrder();
    assert RegistryOk(OtherSaved()) by { RegistriesEvolve(); }
    skill := new Skill(CleanStart().ws, 300, OtherSaved(), []);
    var local := Local(0, Some(Base()), true, None);
    var _, _, _, _, _ := PassOwned(skill, Missed, 2, local, if renamed then 1 else 0, 7, merge);
  }
}
