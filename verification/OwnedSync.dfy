/** Bringing one owned skill up to date with the registry: automatic merge of two heads,
    settling a conflict resolved elsewhere, adopting a rename, replacing a clean tree. Where a
    decision about a conflict looks at the tree again, look and decision are one step here. */
module OwnedSync {
  import opened Basics
  import opened WorkspaceModel
  import opened QueueChain
  import opened WorkspaceSync

  type Name = nat

  /** The registry's listing of the skill. */
  datatype Remote = Remote(name: Name, revision: RevisionId, generation: nat, conflicts: seq<Conflict>)

  /** Deterministic three-way merge of two heads over their base; None is a textual conflict. */
  type Merge = (RevisionId, set<RevisionId>) -> Option<TreeId>

  // ----- what an untouched tree holds -----------------------------------------------------------

  /** The local head is the revision of the last valid tree, and it is on the registry or still
      queued. */
  ghost predicate HeadKept(s: System) {
    RootOf(s.ws.localHead) == s.ws.validRoot && (s.ws.localHead in s.reg.stored || HeadQueued(s.ws))
  }

  ghost predicate HeadQueued(ws: Workspace) {
    exists rec :: rec in Queue(ws.records) && rec.revision == ws.localHead
  }

  /** The tree is the last valid one, or a recorded conflict speaks for it. */
  ghost predicate Caught(s: System) {
    s.tree == s.ws.validRoot || s.ws.conflict.Some?
  }

  /** No stored revision but the local head has this tree. */
  ghost predicate NoOtherHas(s: System) {
    forall r :: r in s.reg.stored && RootOf(r) == s.tree ==> r == s.ws.localHead
  }

  /** A clean skill has nothing queued, and its tree can be given up when it is the last valid
      one; when nobody else happens to have it, exactly then. */
  lemma CleanTreeIsPreservedIff(s: System)
    requires Chained(s) && HeadKept(s) && s.ws.status.Clean?
    ensures Queue(s.ws.records) == []
    ensures s.tree == s.ws.validRoot ==> Preserved(s.tree, s.reg)
    ensures NoOtherHas(s) ==> (Preserved(s.tree, s.reg) <==> s.tree == s.ws.validRoot)
  {
    assert s.ws.localHead in s.reg.stored;
  }

  lemma EnqueuedHead(ws: Workspace, rec: Record)
    requires Enqueue(ws, rec).Some?
    ensures HeadQueued(Enqueue(ws, rec).value)
  {
    var after := Enqueue(ws, rec).value;
    QueueAppend(ws.records, rec.(queued := true));
    assert rec.(queued := true) in Queue(after.records);
  }

  /** A queued head that leaves the queue has reached the registry. */
  lemma HeadStaysKept(s: System, e: Event)
    requires NothingLost(s) && HeadKept(s) && (e.Synced? || e.Detached?)
    ensures HeadKept(Step(s, e))
  {
    var after := Step(s, e);
    StepLosesNothing(s, e);
    assert after.reg == s.reg && after.ws.localHead == s.ws.localHead && after.ws.validRoot == s.ws.validRoot;
    if s.ws.localHead !in s.reg.stored {
      QueuedHeadIsKept(s, after);
    }
    hide Queue, NothingLost, MarkSynced, MarkDetached, OutcomeOf, HeadQueued;
  }

  lemma QueuedHeadIsKept(s: System, after: System)
    requires HeadQueued(s.ws) && NothingLost(after) && Continues(s.ws.records, after.ws.records)
    requires after.ws.localHead == s.ws.localHead
    ensures after.ws.localHead in after.reg.stored || HeadQueued(after.ws)
  {
    var rec :| rec in Queue(s.ws.records) && rec.revision == s.ws.localHead;
    QueueMembers(s.ws.records, rec);
    var k :| 0 <= k < |s.ws.records| && s.ws.records[k] == rec;
    QueueHas(after.ws.records, k);
    hide Queue;
    if !after.ws.records[k].queued {
      assert Kept(after.ws.records[k], after.reg) && OperationOk(after.reg, after.ws.records[k].op);
    }
  }

  lemma CaptureKeepsHead(s: System, author: AuthorId, op: OperationId)
    requires HeadKept(s)
    ensures HeadKept(Step(s, Captured(author, op)))
  {
    var save := Save(s.ws, s.tree, author, op);
    CaptureOutcome(s.ws, s.tree, author, op);
    if save.Some? && Enqueue(s.ws, save.value).Some? {
      EnqueuedHead(s.ws, save.value);
      assert RootOf(save.value.revision) == save.value.root;
    }
    hide HeadQueued, Queue;
  }

  lemma MergeKeepsHead(s: System, merge: Record)
    requires HeadKept(s) && RootOf(merge.revision) == merge.root
    ensures HeadKept(Step(s, MergeQueued(merge)))
  {
    if Enqueue(s.ws, merge).Some? { EnqueuedHead(s.ws, merge); }
    hide HeadQueued, Queue;
  }

  /** More on the registry never unsettles the head. */
  lemma HeadStaysStored(s: System, reg: Registry)
    requires HeadKept(s) && s.reg.stored <= reg.stored
    ensures HeadKept(s.(reg := reg))
  {
    hide HeadQueued;
  }

  lemma StepKeepsHead(s: System, e: Event)
    requires NothingLost(s) && HeadKept(s) && Sound(s, e)
    ensures HeadKept(Step(s, e))
  {
    StepKeepsRegistry(s, e);
    match e {
      case Synced(_) => HeadStaysKept(s, e);
      case Detached(_) => HeadStaysKept(s, e);
      case Captured(author, op) => CaptureKeepsHead(s, author, op);
      case MergeQueued(merge) => MergeKeepsHead(s, merge);
      case Asked(_) => HeadStaysStored(s, Step(s, e).reg);
      case Sent(_, _, _) => HeadStaysStored(s, Step(s, e).reg);
      case OthersActed(_) => HeadStaysStored(s, Step(s, e).reg);
      case _ => SettingKeepsHead(s, e);
    }
    hide HeadKept, NothingLost, Capture, Enqueue, Commit, Prepare, MarkSynced, MarkDetached, OutcomeOf;
  }

  lemma SettingKeepsHead(s: System, e: Event)
    requires HeadKept(s) && Sound(s, e)
    requires !e.Captured? && !e.MergeQueued? && !e.Synced? && !e.Detached? && !e.Asked? && !e.Sent? && !e.OthersActed?
    ensures HeadKept(Step(s, e))
  {
    hide Capture, Enqueue, Commit, Prepare, Queue, MarkSynced, MarkDetached, OutcomeOf;
  }

  /** Over every run the last valid tree is on the registry or in the queue. */
  lemma {:induction false} LastTreeIsKept(s: System, events: seq<Event>)
    requires NothingLost(s) && HeadKept(s) && SoundRun(s, events)
    ensures HeadKept(Run(s, events))
    decreases |events|
  {
    if events != [] {
      StepLosesNothing(s, events[0]);
      StepKeepsHead(s, events[0]);
      LastTreeIsKept(Step(s, events[0]), events[1..]);
    }
  }

  lemma PreservedForGood(tree: TreeId, a: Registry, b: Registry)
    requires Preserved(tree, a) && Evolves(a, b)
    ensures Preserved(tree, b)
  {
    var r :| r in a.stored && RootOf(r) == tree;
    assert r in b.stored;
  }

  /** A conflict recorded to be merged without asking was recorded for a tree the registry has. */
  ghost predicate MergingTreeKept(s: System) {
    s.ws.conflict.Some? && !s.ws.conflict.value.resolutionRequired ==> Preserved(s.ws.conflict.value.workingRoot, s.reg)
  }

  lemma StepKeepsMergingTree(s: System, e: Event)
    requires RegistryOk(s.reg) && MergingTreeKept(s) && Sound(s, e)
    ensures MergingTreeKept(Step(s, e))
  {
    var after := Step(s, e);
    StepKeepsRegistry(s, e);
    if after.ws.conflict == s.ws.conflict && s.ws.conflict.Some? && !s.ws.conflict.value.resolutionRequired {
      PreservedForGood(s.ws.conflict.value.workingRoot, s.reg, after.reg);
    }
  }

  /** It is over every run. */
  lemma {:induction false} MergingTreeStaysKept(s: System, events: seq<Event>)
    requires RegistryOk(s.reg) && MergingTreeKept(s) && SoundRun(s, events)
    ensures MergingTreeKept(Run(s, events))
    decreases |events|
  {
    if events != [] {
      StepKeepsRegistry(s, events[0]);
      StepKeepsMergingTree(s, events[0]);
      MergingTreeStaysKept(Step(s, events[0]), events[1..]);
    }
  }

  // ----- paths ------------------------------------------------------------------------------

  /** `now` is reached from `start` by steps that keep the queue in order and the trees sound. */
  ghost predicate Path(start: System, events: seq<Event>, now: System) {
    now == Run(start, events) && OrderlyRun(start, events) && SoundRun(start, events)
  }

  lemma PathNone(start: System)
    ensures Path(start, [], start)
  {
  }

  lemma PathOne(now: System, e: Event)
    requires Orderly(now, e) && Sound(now, e)
    ensures Path(now, [e], Step(now, e))
  {
    RunOne(now, e);
    assert [e][1..] == [];
  }

  lemma PathThen(start: System, first: seq<Event>, middle: System, second: seq<Event>, now: System)
    requires Path(start, first, middle) && Path(middle, second, now)
    ensures Path(start, first + second, now)
  {
    RunAppend(start, first, second);
    OrderlyAppend(start, first, second);
    SoundAppend(start, first, second);
  }

  lemma PathTraffic(start: System, events: seq<Event>)
    requires Quiet(start, events)
    ensures Path(start, events, Run(start, events))
  {
    TrafficIsOrderly(start, events);
  }

  lemma PathKeeps(start: System, events: seq<Event>, now: System)
    requires Path(start, events, now) && Chained(start)
    ensures Chained(now) && Evolves(start.reg, now.reg) && (HeadKept(start) ==> HeadKept(now))
    ensures MergingTreeKept(start) ==> MergingTreeKept(now)
  {
    QueueStaysChained(start, events);
    NoSaveIsLost(start, events);
    if HeadKept(start) { LastTreeIsKept(start, events); }
    if MergingTreeKept(start) { MergingTreeStaysKept(start, events); }
  }

  // ----- single steps ------------------------------------------------------------------------

  /** A download or other call that leaves no trace in this state. */
  method Reach(skill: Skill) returns (result: Upload)
    modifies skill`agenda
    ensures old(skill.agenda) == [] ==> result.Uploaded? && skill.agenda == []
  {
    var m := skill.NextMoment();
    match m.weather {
      case Fine => result := Uploaded;
      case Unreached(code) => result := Failed(code);
      case ReplyLost(code) => result := Failed(code);
      case _ => result := Killed;
    }
  }

  /** A local transaction that is one step of the run. */
  method Land(skill: Skill, next: Workspace, ghost e: Event) returns (result: Upload, ghost events: seq<Event>)
    requires skill.Valid() && Orderly(skill.Space(), e) && Sound(skill.Space(), e)
    requires Step(skill.Space(), e) == skill.Space().(ws := next) && OperationsDistinct(next.records)
    modifies skill`row, skill`agenda
    ensures skill.Valid() && Path(old(skill.Space()), events, skill.Space())
    ensures skill.row in {old(skill.row), next}
    ensures result.Uploaded? ==> skill.row == next
    ensures old(skill.agenda) == [] ==> result.Uploaded? && skill.agenda == []
  {
    hide Run, OperationsDistinct;
    ghost var was := skill.Space();
    PathOne(was, e);
    PathNone(was);
    result := skill.LandRow(next);
    events := if skill.row == next then [e] else [];
  }

  /** `materialize_skill_snapshot`: the tree becomes that of the revision, and is recorded so. */
  method Materialize(skill: Skill, root: TreeId) returns (result: Upload, ghost events: seq<Event>)
    requires skill.Valid()
    modifies skill`tree, skill`agenda
    ensures skill.Valid() && Path(old(skill.Space()), events, skill.Space())
    ensures skill.tree in {old(skill.tree), root}
    ensures result.Uploaded? ==> skill.tree == root
    ensures old(skill.agenda) == [] ==> result.Uploaded? && skill.agenda == []
  {
    PathNone(skill.Space());
    PathOne(skill.Space(), Replaced(root));
    events := [];
    var m := skill.NextMoment();
    if m.weather.KilledBefore? { return Killed, []; }
    if m.weather.Unreached? { return Failed(ContentVerification), []; }
    skill.tree, events := root, [Replaced(root)];
    match m.weather {
      case ReplyLost(_) => result := Failed(ContentVerification);
      case KilledAfter => result := Killed;
      case _ => result := Uploaded;
    }
  }

  // ----- the automatic merge --------------------------------------------------------------------

  function MergeRecord(c: Conflict, author: AuthorId, root: TreeId): Record {
    Record(c.id, Hashed(root, c.heads, author, c.id), c.active, c.heads, c.generation, root, true)
  }

  lemma MergeIsEnqueued(ws: Workspace, merge: Record)
    requires OperationsDistinct(ws.records) && Enqueue(ws, merge).Some? && merge.queued
    ensures var after := Enqueue(ws, merge).value;
            && OperationsDistinct(after.records) && merge in after.records
            && Queue(after.records) == Queue(ws.records) + [merge]
  {
    assert merge.(queued := true) == merge;
    QueueAppend(ws.records, merge);
  }

  method UploadFront(skill: Skill, rec: Record) returns (result: Upload, ghost events: seq<Event>)
    requires skill.Valid() && rec in skill.row.records && Queue(skill.row.records) == [rec]
    modifies skill`row, skill`registry, skill`agenda
    ensures skill.Valid() && Path(old(skill.Space()), events, skill.Space())
    ensures result.Uploaded? ==> Kept(rec, skill.registry)
    ensures old(skill.agenda) == [] && Ready(old(skill.registry), rec) ==>
              && result.Uploaded? && skill.agenda == [] && Synced(skill, rec)
              && skill.row.localHead == old(skill.row).localHead && skill.row.validRoot == old(skill.row).validRoot
              && skill.row.conflict == old(skill.row).conflict
  {
    hide Run, OperationsDistinct, Kept, Ready;
    UnqueueFirst(skill.row.records);
    result, events := skill.UploadOne(rec);
  }

  /** The save is the registry's head, and the row clean on it. */
  ghost predicate Synced(skill: Skill, rec: Record)
    reads skill
  {
    && skill.registry.head == rec.revision && skill.registry.generation == rec.generation + 1
    && skill.registry.conflict.None?
    && Queue(skill.row.records) == [] && skill.row.status.Clean?
    && skill.row.baseRevision == rec.revision && skill.row.baseGeneration == rec.generation + 1
  }

  /** Nothing hinders the merge of the conflict's heads: the registry is in that very conflict,
      and neither side has an operation or a revision of it. */
  ghost predicate MergeReady(s: System, merge: Record) {
    && s.reg.conflict.Some? && s.reg.conflict.value.id == merge.op && s.reg.conflict.value.heads == merge.parents
    && s.reg.head == merge.head && s.reg.generation == merge.generation && merge.head in merge.parents
    && merge.op !in s.reg.operations && Fresh(s.ws.records, merge.op, merge.revision)
    && merge.revision == Hashed(merge.root, merge.parents, s.reg.author, merge.op)
  }

  method QueueMerge(skill: Skill, merge: Record) returns (result: Upload, ghost events: seq<Event>)
    requires skill.Valid() && |merge.parents| == 2 && merge.queued && RootOf(merge.revision) == merge.root
    requires Queue(skill.row.records) == []
    modifies skill`row, skill`agenda
    ensures skill.Valid() && Path(old(skill.Space()), events, skill.Space())
    ensures result.Uploaded? ==> merge in skill.row.records && Queue(skill.row.records) == [merge]
    ensures result.Uploaded? ==>
              skill.row.localHead == merge.revision && skill.row.validRoot == merge.root
              && skill.row.conflict == old(skill.row).conflict
    ensures old(skill.agenda) == [] && MergeReady(old(skill.Space()), merge) ==> result.Uploaded? && skill.agenda == []
  {
    hide Run, OperationsDistinct, Path, Queue;
    var next := Enqueue(skill.row, merge);
    if next.None? {
      PathNone(skill.Space());
      return Failed(LocalState), [];
    }
    MergeIsEnqueued(skill.row, merge);
    result, events := Land(skill, next.value, MergeQueued(merge));
  }

  lemma MergeIsReady(s: System, merge: Record)
    requires MergeReady(s, merge) && |merge.parents| == 2
    ensures Ready(s.reg, merge)
  {
  }

  /** The merge of two heads is queued, alone, and uploaded. */
  method UploadMerge(skill: Skill, merge: Record) returns (result: Upload, ghost events: seq<Event>)
    requires skill.Valid() && |merge.parents| == 2 && merge.queued && RootOf(merge.revision) == merge.root
    requires Queue(skill.row.records) == []
    modifies skill`row, skill`registry, skill`agenda
    ensures skill.Valid() && Path(old(skill.Space()), events, skill.Space())
    ensures result.Uploaded? ==> Kept(merge, skill.registry)
    ensures old(skill.agenda) == [] && MergeReady(old(skill.Space()), merge) ==>
              && result.Uploaded? && skill.agenda == [] && Synced(skill, merge)
              && skill.row.localHead == merge.revision && skill.row.validRoot == merge.root
  {
    hide Run, OperationsDistinct, Kept, Path, Queue, RegistryOk, Ready;
    if MergeReady(skill.Space(), merge) { MergeIsReady(skill.Space(), merge); }
    result, events := QueueMerge(skill, merge);
    if result.Uploaded? {
      ghost var more;
      ghost var now := skill.Space();
      result, more := UploadFront(skill, merge);
      PathThen(old(skill.Space()), events, now, more, skill.Space());
      events := events + more;
    }
  }

  /** A clean row takes a registry revision as its baseline. */
  method AdvanceBaseline(skill: Skill, generation: nat, revision: RevisionId)
      returns (result: Upload, ghost events: seq<Event>)
    requires skill.Valid() && revision in skill.registry.stored
    modifies skill`row, skill`agenda
    ensures skill.Valid() && Path(old(skill.Space()), events, skill.Space())
    ensures skill.row.records == old(skill.row).records
    ensures result.Uploaded? ==> skill.row == AdvanceClean(old(skill.row), generation, revision, RootOf(revision))
    ensures old(skill.agenda) == [] ==> result.Uploaded? && skill.agenda == []
  {
    hide Run, Path, OperationsDistinct;
    var root := RootOf(revision);
    result, events := Land(skill, AdvanceClean(skill.row, generation, revision, root),
                           BaselineAdvanced(generation, revision, root));
  }

  method ClearConflict(skill: Skill) returns (result: Upload, ghost events: seq<Event>)
    requires skill.Valid()
    modifies skill`row, skill`agenda
    ensures skill.Valid() && Path(old(skill.Space()), events, skill.Space())
    ensures skill.row in {old(skill.row), old(skill.row).(conflict := None)}
    ensures result.Uploaded? ==> skill.row == old(skill.row).(conflict := None)
    ensures old(skill.agenda) == [] ==> result.Uploaded? && skill.agenda == []
  {
    hide Run, Path, OperationsDistinct;
    result, events := Land(skill, skill.row.(conflict := None), ConflictCleared);
  }

  /** Once the registry shows the merge as its head, the tree becomes the merged one. */
  method SettleMerge(skill: Skill, revision: RevisionId) returns (result: Upload, ghost events: seq<Event>)
    requires skill.Valid()
    modifies skill
    ensures skill.Valid() && Path(old(skill.Space()), events, skill.Space())
    ensures skill.tree in {old(skill.tree), RootOf(revision)}
    ensures result.Uploaded? ==>
              && skill.tree == RootOf(revision) && skill.registry.head == revision && skill.row.conflict.None?
              && (skill.row.status.Clean? ==>
                    skill.row.localHead == revision && skill.row.validRoot == RootOf(revision)
                    && skill.row.baseRevision == revision && skill.row.baseGeneration == skill.registry.generation)
    ensures old(skill.agenda) == [] && old(skill.registry).conflict.None? && old(skill.registry).head == revision ==>
              && result.Uploaded? && skill.agenda == [] && skill.registry == old(skill.registry)
              && skill.row == AdvanceClean(old(skill.row), skill.registry.generation, revision, RootOf(revision))
                              .(conflict := None)
  {
    hide Run, Path, OperationsDistinct;
    var m := skill.NextMoment();
    events := skill.OthersAct(m);
    PathTraffic(old(skill.Space()), events);
    if skill.registry.conflict.Some? || skill.registry.head != revision { return Failed(LocalState), events; }
    result := Reach(skill);
    if !result.Uploaded? { return; }
    ghost var now, more := skill.Space(), [];
    result, more := Materialize(skill, RootOf(revision));
    PathThen(old(skill.Space()), events, now, more, skill.Space());
    events := events + more;
    if !result.Uploaded? { return; }
    now := skill.Space();
    assert revision == skill.registry.chain[|skill.registry.chain| - 1] && revision in skill.registry.chain;
    result, more := AdvanceBaseline(skill, skill.registry.generation, revision);
    PathThen(old(skill.Space()), events, now, more, skill.Space());
    events := events + more;
    if !result.Uploaded? { return; }
    now := skill.Space();
    result, more := ClearConflict(skill);
    PathThen(old(skill.Space()), events, now, more, skill.Space());
    events := events + more;
  }

  /** The merge is the head here and there, nothing is queued, and the conflict is gone. */
  ghost predicate MergedHere(s: System, c: Conflict) {
    && s.reg.conflict.None? && s.reg.generation == c.generation + 1
    && s.ws.status.Clean? && Queue(s.ws.records) == [] && s.ws.conflict.None?
    && s.ws.localHead == s.ws.baseRevision == s.reg.head
    && s.ws.baseGeneration == c.generation + 1 && s.ws.validRoot == s.tree
  }

  method CommitMerge(skill: Skill, c: Conflict, author: AuthorId, root: TreeId)
      returns (result: Upload, ghost events: seq<Event>)
    requires skill.Valid() && |c.heads| == 2 && Queue(skill.row.records) == []
    modifies skill
    ensures skill.Valid() && Path(old(skill.Space()), events, skill.Space())
    ensures skill.tree in {old(skill.tree), root}
    ensures result.Uploaded? ==>
              skill.tree == root && skill.registry.head == MergeRecord(c, author, root).revision
                  && skill.row.conflict.None?
    ensures old(skill.agenda) == [] && MergeReady(old(skill.Space()), MergeRecord(c, author, root)) ==>
              result.Uploaded? && MergedHere(skill.Space(), c)
  {
    hide Run, Path, RegistryOk, OperationsDistinct, Queue, Kept;
    var merge := MergeRecord(c, author, root);
    result, events := UploadMerge(skill, merge);
    if result.Uploaded? {
      ghost var now, more := skill.Space(), [];
      result, more := SettleMerge(skill, merge.revision);
      PathThen(old(skill.Space()), events, now, more, skill.Space());
      events := events + more;
    }
  }

  /** The tree a call replaced was a preserved one, and no save was queued when it began. */
  ghost predicate GivesUpOnlyPreserved(before: System, after: System) {
    after.tree != before.tree ==> Queue(before.ws.records) == [] && Preserved(before.tree, after.reg)
  }

  /** Records the conflict, with what the tree held, for the user to resolve. */
  method LeaveToUser(skill: Skill, c: Conflict) returns (result: Upload, ghost events: seq<Event>)
    requires skill.Valid() && |c.heads| == 2
    modifies skill`row, skill`agenda
    ensures skill.Valid() && Path(old(skill.Space()), events, skill.Space()) && !result.Uploaded?
    ensures old(skill.agenda) == [] ==>
              && result == Failed(LocalState) && skill.row.status == InConflict
              && skill.row.conflict == Some(ContentConflict(c, skill.tree, true))
  {
    result, events := skill.PersistWorkspaceConflict(ContentConflict(c, skill.tree, true));
    if result.Uploaded? { result := Failed(LocalState); }
  }

  /** Merges two heads the registry reports, if the tree is one of them and nothing is queued;
      otherwise, or when the merge needs a decision, the conflict is left to the user. */
  method ReconcileWorkspaceConflict(skill: Skill, c: Conflict, author: AuthorId, merge: Merge)
    returns (result: Upload, ghost events: seq<Event>)
    requires skill.Valid() && Chained(skill.Space()) && c.heads <= skill.registry.stored
    modifies skill
    ensures skill.Valid() && Path(old(skill.Space()), events, skill.Space())
    ensures GivesUpOnlyPreserved(old(skill.Space()), skill.Space())
    ensures skill.tree != old(skill.tree) ==>
              (exists r :: r in c.heads && RootOf(r) == old(skill.tree)) && Some(skill.tree) == merge(c.base, c.heads)
    ensures old(skill.agenda) == [] && |c.heads| == 2 && MustAsk(old(skill.Space()), c, merge) ==>
              && result == Failed(LocalState) && skill.row.status == InConflict
              && skill.row.conflict == Some(ContentConflict(c, skill.tree, true))
    ensures old(skill.agenda) == [] && |c.heads| == 2 && MergesHere(old(skill.Space()), c, author, merge) ==>
              result.Uploaded? && MergedHere(skill.Space(), c)
    ensures result.Uploaded? ==>
              && Some(skill.tree) == merge(c.base, c.heads) && skill.row.conflict.None?
              && skill.registry.head == Hashed(skill.tree, c.heads, author, c.id)
  {
    hide Run, Path, RegistryOk, OperationsDistinct, Queue, Chained;
    PathNone(skill.Space());
    if |c.heads| != 2 { return Failed(LocalState), []; }
    result := FetchThree(skill);
    if !result.Uploaded? { return result, []; }
    var untouched := exists r | r in c.heads :: RootOf(r) == skill.tree;
    if !untouched || Queue(skill.row.records) != [] {
      result, events := LeaveToUser(skill, c);
      return;
    }
    match merge(c.base, c.heads) {
      case None =>
        result, events := LeaveToUser(skill, c);
      case Some(root) =>
        if MergesHere(skill.Space(), c, author, merge) {
          MergesHereIsReady(skill.Space(), c, author, merge);
        }
        result, events := MergeUntouched(skill, c, author, root);
    }
  }

  ghost predicate MustAsk(s: System, c: Conflict, merge: Merge) {
    Queue(s.ws.records) != [] || merge(c.base, c.heads).None? || forall r :: r in c.heads ==> RootOf(r) != s.tree
  }

  /** The tree is one of the heads, nothing is queued, the heads merge, and the registry still has
      this conflict and no operation under its id. */
  ghost predicate MergesHere(s: System, c: Conflict, author: AuthorId, merge: Merge) {
    && !MustAsk(s, c, merge)
    && s.reg.conflict == Some(c) && s.reg.head == c.active && s.reg.generation == c.generation
    && s.reg.author == author && c.id !in s.reg.operations
    && forall i :: 0 <= i < |s.ws.records| ==>
         s.ws.records[i].op != c.id
             && s.ws.records[i].revision != Hashed(merge(c.base, c.heads).value, c.heads, author, c.id)
  }

  lemma MergesHereIsReady(s: System, c: Conflict, author: AuthorId, merge: Merge)
    requires MergesHere(s, c, author, merge) && RegistryOk(s.reg)
    ensures MergeReady(s, MergeRecord(c, author, merge(c.base, c.heads).value))
  {
  }

  method FetchThree(skill: Skill) returns (result: Upload)
    modifies skill`agenda
    ensures old(skill.agenda) == [] ==> result.Uploaded? && skill.agenda == []
  {
    result := Reach(skill);
    if result.Uploaded? { result := Reach(skill); }
    if result.Uploaded? { result := Reach(skill); }
  }

  method MergeUntouched(skill: Skill, c: Conflict, author: AuthorId, root: TreeId)
      returns (result: Upload, ghost events: seq<Event>)
    requires skill.Valid() && Chained(skill.Space()) && |c.heads| == 2 && c.heads <= skill.registry.stored
    requires Queue(skill.row.records) == [] && exists r :: r in c.heads && RootOf(r) == skill.tree
    modifies skill
    ensures skill.Valid() && Path(old(skill.Space()), events, skill.Space())
    ensures skill.tree in {old(skill.tree), root} && GivesUpOnlyPreserved(old(skill.Space()), skill.Space())
    ensures result.Uploaded? ==>
              skill.tree == root && skill.registry.head == Hashed(root, c.heads, author, c.id)
                  && skill.row.conflict.None?
    ensures old(skill.agenda) == [] && MergeReady(old(skill.Space()), MergeRecord(c, author, root)) ==>
              result.Uploaded? && MergedHere(skill.Space(), c)
  {
    hide Run, Path, RegistryOk, OperationsDistinct, Queue, Chained, Evolves;
    ghost var was := skill.Space();
    ghost var more;
    assert Preserved(was.tree, was.reg);
    result, more := skill.PersistWorkspaceConflict(ContentConflict(c, skill.tree, false));
    PathTraffic(was, more);
    events := more;
    QueueUntouched(was, more);
    if result.Uploaded? {
      ghost var now := skill.Space();
      result, more := CommitMerge(skill, c, author, root);
      PathThen(was, events, now, more, skill.Space());
      events := events + more;
    }
    PathKeeps(was, events, skill.Space());
    PreservedForGood(was.tree, was.reg, skill.registry);
  }

  lemma QueueUntouched(s: System, events: seq<Event>)
    requires AllTraffic(events)
    ensures Queue(Run(s, events).ws.records) == Queue(s.ws.records)
  {
    TrafficIsOrderly(s, events);
  }

  /** Nothing was saved or edited here since the conflict was recorded. */
  ghost predicate SettlesHere(s: System) {
    s.ws.conflict.Some? ==> Queue(s.ws.records) == [] && s.tree == s.ws.conflict.value.workingRoot
  }

  /** A conflict that another device has resolved is forgotten only if nothing was saved or
      edited here since it was recorded. */
  method SettleResolvedConflict(skill: Skill, remote: Remote) returns (result: Upload, ghost events: seq<Event>)
    requires skill.Valid()
    modifies skill`row, skill`agenda
    ensures skill.Valid() && Path(old(skill.Space()), events, skill.Space())
    ensures skill.row != old(skill.row) ==>
              && old(skill.row).conflict.Some? && remote.conflicts == [] && Queue(old(skill.row).records) == []
              && skill.tree == old(skill.row).conflict.value.workingRoot
    ensures skill.row.records == old(skill.row).records
    ensures old(skill.agenda) == [] && SettlesHere(old(skill.Space())) ==> result.Uploaded? && skill.agenda == []
    ensures result.Uploaded? && old(skill.row).conflict.Some? && remote.conflicts == [] ==>
              skill.row == old(skill.row).(conflict := None, status := Clean)
    ensures result.Uploaded? && (old(skill.row).conflict.None? || remote.conflicts != []) ==>
              skill.row == old(skill.row)
  {
    hide Run, Path, RegistryOk, OperationsDistinct, Queue;
    ghost var was := skill.Space();
    PathNone(was);
    if skill.row.conflict.None? || remote.conflicts != [] { return Uploaded, []; }
    if Queue(skill.row.records) != [] || skill.tree != skill.row.conflict.value.workingRoot {
      return Failed(LocalState), [];
    }
    result, events := ClearConflict(skill);
    if result.Uploaded? {
      ghost var now := skill.Space();
      ghost var more;
      result, more := ResumeWorkspace(skill);
      PathThen(was, events, now, more, skill.Space());
      events := events + more;
    }
  }

  method ResumeWorkspace(skill: Skill) returns (result: Upload, ghost events: seq<Event>)
    requires skill.Valid()
    modifies skill`row, skill`agenda
    ensures skill.Valid() && Path(old(skill.Space()), events, skill.Space())
    ensures skill.row in {old(skill.row), Resume(old(skill.row))}
    ensures result.Uploaded? ==> skill.row == Resume(old(skill.row))
    ensures old(skill.agenda) == [] ==> result.Uploaded? && skill.agenda == []
  {
    hide Run, Path, OperationsDistinct;
    result, events := Land(skill, Resume(skill.row), Resumed);
  }

  /** What this device has of the skill besides the workspace row; `linked` says that the visible
      link leads to the generation of the materialized revision. */
  datatype Local = Local(name: Name, materialized: Option<RevisionId>, linked: bool, pendingRename: Option<Name>)

  predicate AlreadyCurrent(local: Local, remote: Remote) {
    local.materialized == Some(remote.revision) && local.linked
  }

  method AdoptBaseline(skill: Skill, generation: nat, revision: RevisionId)
      returns (result: Upload, ghost events: seq<Event>)
    requires skill.Valid() && revision in skill.registry.stored
    modifies skill`row, skill`agenda
    ensures skill.Valid() && skill.Space() == Run(old(skill.Space()), events)
    ensures Queue(old(skill.row).records) == [] ==> Path(old(skill.Space()), events, skill.Space())
    ensures skill.row in {old(skill.row), AdoptRename(old(skill.row), generation, revision, RootOf(revision))}
    ensures result.Uploaded? ==> skill.row == AdoptRename(old(skill.row), generation, revision, RootOf(revision))
    ensures old(skill.agenda) == [] ==> result.Uploaded? && skill.agenda == []
  {
    hide OperationsDistinct, Queue;
    ghost var was := skill.Space();
    ghost var e := RenameAdopted(generation, revision, RootOf(revision));
    RunOne(was, e);
    if Orderly(was, e) { PathOne(was, e); }
    PathNone(was);
    var next := AdoptRename(skill.row, generation, revision, RootOf(revision));
    result := skill.LandRow(next);
    events := if skill.row == next then [e] else [];
  }

  /** The user's working tree waits for exactly the name the registry now shows. */
  predicate RenameAwaited(row: Workspace, local: Local, remote: Remote) {
    row.status.PendingRename? && local.pendingRename == Some(remote.name)
  }

  /** `apply_registry_rename`: a tree waiting for this very name is kept, a clean one replaced. */
  method AdoptRemoteName(skill: Skill, local: Local, remote: Remote)
      returns (result: Upload, next: Local, ghost events: seq<Event>)
    requires skill.Valid() && remote.revision in skill.registry.stored
    modifies skill`row, skill`tree, skill`agenda
    ensures skill.Valid() && skill.Space() == Run(old(skill.Space()), events)
    ensures Queue(old(skill.row).records) == [] ==> Path(old(skill.Space()), events, skill.Space())
    ensures skill.tree != old(skill.tree) ==> old(skill.row).status.Clean? && skill.tree == RootOf(remote.revision)
    ensures skill.row.records == old(skill.row).records
    ensures old(skill.agenda) == []
            && (old(skill.row).status.Clean? || RenameAwaited(old(skill.row), local, remote)) ==>
              result.Uploaded?
    ensures !old(skill.row).status.Clean? && !RenameAwaited(old(skill.row), local, remote) ==>
              && skill.row == old(skill.row) && skill.tree == old(skill.tree) && result == Failed(LocalState)
              && Path(old(skill.Space()), events, skill.Space())
    ensures result.Uploaded? ==>
              && skill.row == AdoptRename(old(skill.row), remote.generation, remote.revision, RootOf(remote.revision))
              && next.name == remote.name && next.pendingRename.None?
              && next.linked == (local.linked || !RenameAwaited(old(skill.row), local, remote))
              && next.materialized
                  == (if RenameAwaited(old(skill.row), local, remote) then local.materialized
                      else Some(remote.revision))
              && skill.tree == if RenameAwaited(old(skill.row), local, remote) then old(skill.tree)
                               else RootOf(remote.revision)
  {
    hide Run, Path, RegistryOk, OperationsDistinct, Queue;
    ghost var was := skill.Space();
    PathNone(was);
    PathIsRun(was, [], was);
    var awaited := RenameAwaited(skill.row, local, remote);
    if !skill.row.status.Clean? && !awaited { return Failed(LocalState), local, []; }
    events := [];
    if !awaited {
      result := Reach(skill);
      if !result.Uploaded? { return result, local, []; }
      result, events := Materialize(skill, RootOf(remote.revision));
      PathIsRun(was, events, skill.Space());
      if !result.Uploaded? { return result, local, events; }
    }
    ghost var now := skill.Space();
    ghost var more;
    result, more := AdoptBaseline(skill, remote.generation, remote.revision);
    RunBoth(was, events, more, skill.Space());
    if Queue(was.ws.records) == [] { PathThen(was, events, now, more, skill.Space()); }
    events := events + more;
    next := Local(remote.name, if awaited then local.materialized
                               else Some(remote.revision), local.linked || !awaited, None);
  }

  lemma PathIsRun(start: System, events: seq<Event>, now: System)
    requires Path(start, events, now)
    ensures now == Run(start, events)
  {
  }

  /** A skill whose row is not clean is left as it is; a clean one follows the registry. */
  method FollowRegistry(skill: Skill, local: Local, remote: Remote)
      returns (result: Upload, next: Local, ghost events: seq<Event>)
    requires skill.Valid() && remote.revision in skill.registry.stored
    modifies skill`row, skill`tree, skill`agenda
    ensures skill.Valid() && Path(old(skill.Space()), events, skill.Space())
    ensures !old(skill.row).status.Clean? ==> skill.row == old(skill.row) && skill.tree == old(skill.tree)
    ensures skill.row.records == old(skill.row).records
    ensures skill.tree in {old(skill.tree), RootOf(remote.revision)} && next.name == local.name
    ensures result.Uploaded? && old(skill.row).status.Clean? ==>
              && skill.row == AdvanceClean(old(skill.row), remote.generation, remote.revision, RootOf(remote.revision))
              && next.materialized == Some(remote.revision)
              && next.linked
              && skill.tree == if AlreadyCurrent(local, remote) then old(skill.tree) else RootOf(remote.revision)
    ensures old(skill.agenda) == [] ==> result.Uploaded?
  {
    hide Run, Path, RegistryOk, OperationsDistinct;
    ghost var was := skill.Space();
    PathNone(was);
    events := [];
    next := local;
    result := Reach(skill);
    if !result.Uploaded? || !skill.row.status.Clean? { return; }
    if !AlreadyCurrent(local, remote) {
      result := Reach(skill);
      if !result.Uploaded? { return; }
      result, events := Materialize(skill, RootOf(remote.revision));
      if !result.Uploaded? { return; }
      next := local.(materialized := Some(remote.revision), linked := true);
    }
    ghost var now := skill.Space();
    ghost var more;
    result, more := AdvanceBaseline(skill, remote.generation, remote.revision);
    PathThen(was, events, now, more, skill.Space());
    events := events + more;
  }

  /** A conflict that waits for the user was recorded for a tree the registry has. */
  ghost predicate AskedTreeKept(s: System) {
    s.ws.conflict.Some? && s.ws.conflict.value.resolutionRequired ==> Preserved(s.ws.conflict.value.workingRoot, s.reg)
  }

  lemma GivenUpTree(was: System, settled: Workspace, after: System)
    requires Chained(was) && HeadKept(was) && MergingTreeKept(was) && after.reg == was.reg
    requires if settled == was.ws then was.ws.conflict.None?
             else was.ws.conflict.Some? && Queue(was.ws.records) == [] && was.tree == was.ws.conflict.value.workingRoot
    requires after.tree != was.tree ==> settled.status.Clean?
    ensures AskedTreeKept(was) && Caught(was) ==> GivesUpOnlyPreserved(was, after)
    ensures was.ws.conflict.None? && after.tree != was.tree && NoOtherHas(was) ==>
              (GivesUpOnlyPreserved(was, after) <==> Caught(was))
  {
    if settled == was.ws && settled.status.Clean? {
      CleanTreeIsPreservedIff(was);
    }
  }

  /** Brings one owned skill up to date. Only the conflict branches look at the tree again; a clean
      row is taken at its word, so its tree is replaced whether or not a scan of this pass saw it. */
  method SyncOwnedSkill(skill: Skill, local: Local, remote: Remote, author: AuthorId, merge: Merge)
    returns (result: Upload, next: Local, ghost events: seq<Event>)
    requires skill.Valid() && Chained(skill.Space()) && HeadKept(skill.Space()) && MergingTreeKept(skill.Space())
    requires remote.revision in skill.registry.stored
    requires forall c :: c in remote.conflicts ==> c.heads <= skill.registry.stored
    modifies skill
    ensures skill.Valid() && skill.Space() == Run(old(skill.Space()), events)
    ensures Queue(old(skill.row).records) == [] || local.name == remote.name
            || !RenameAwaited(old(skill.row), local, remote) ==>
              Path(old(skill.Space()), events, skill.Space())
    ensures AskedTreeKept(old(skill.Space())) && Caught(old(skill.Space())) ==>
              GivesUpOnlyPreserved(old(skill.Space()), skill.Space())
    ensures remote.conflicts == [] && old(skill.row).conflict.None? && skill.tree != old(skill.tree)
            && NoOtherHas(old(skill.Space())) ==>
              (GivesUpOnlyPreserved(old(skill.Space()), skill.Space()) <==> old(skill.tree) == old(skill.row).validRoot)
    ensures remote.conflicts == [] ==>
              && skill.registry == old(skill.registry) && skill.row.records == old(skill.row).records
              && skill.tree in {old(skill.tree), RootOf(remote.revision)}
    ensures remote.conflicts == [] && old(skill.row).conflict.None? && !old(skill.row).status.Clean? ==>
              skill.tree == old(skill.tree)
    ensures old(skill.agenda) == [] && old(skill.row).status.Clean? && old(skill.row).conflict.None?
            && remote.conflicts == [] && (local.name != remote.name || !AlreadyCurrent(local, remote)) ==>
              skill.tree == RootOf(remote.revision)
    ensures old(skill.agenda) == [] && old(skill.row).conflict.None? && remote.conflicts == []
            && local.name != remote.name && RenameAwaited(old(skill.row), local, remote) ==>
              && result.Uploaded? && next.name == remote.name && next.pendingRename.None?
              && skill.tree == old(skill.tree) && skill.row.status.Clean? && skill.row.localHead == remote.revision
    ensures !old(skill.row).status.Clean? && old(skill.row).conflict.None? && remote.conflicts == []
            && !(local.name != remote.name && RenameAwaited(old(skill.row), local, remote)) ==>
              skill.row == old(skill.row) && skill.tree == old(skill.tree)
    ensures old(skill.agenda) == [] && old(skill.row).conflict.Some? && SettlesHere(old(skill.Space()))
            && remote.conflicts == []
            && local.name == remote.name && !AlreadyCurrent(local, remote) ==>
              skill.tree == RootOf(remote.revision) && skill.registry == old(skill.registry)
    ensures |remote.conflicts| == 1 && old(skill.agenda) == [] && |remote.conflicts[0].heads| == 2
            && MergesHere(old(skill.Space()), remote.conflicts[0], author, merge) ==>
              && result.Uploaded? && MergedHere(skill.Space(), remote.conflicts[0])
              && Some(skill.tree) == merge(remote.conflicts[0].base, remote.conflicts[0].heads)
              && skill.registry.head == Hashed(skill.tree, remote.conflicts[0].heads, author, remote.conflicts[0].id)
    ensures |remote.conflicts| > 1 ==>
              result == Failed(LocalState) && skill.row == old(skill.row) && skill.tree == old(skill.tree)
    ensures old(skill.agenda) == [] && old(skill.row).status.Clean? && old(skill.row).conflict.None?
            && remote.conflicts == [] ==>
              && result.Uploaded?
              && skill.row == old(skill.row).(baseGeneration := remote.generation, baseRevision := remote.revision,
                                              localHead := remote.revision, validRoot := RootOf(remote.revision))
    ensures result.Uploaded? && old(skill.row).status.Clean? && remote.conflicts == [] ==>
              && skill.row.localHead == remote.revision && skill.row.baseGeneration == remote.generation
              && skill.row.validRoot == RootOf(remote.revision) && next.name == remote.name
                  && next.materialized == Some(remote.revision)
  {
    hide Run, Path, RegistryOk, OperationsDistinct, Queue, Chained, HeadKept, AskedTreeKept, MergingTreeKept,
      Caught, NoOtherHas;
    ghost var was := skill.Space();
    PathNone(was);
    PathIsRun(was, [], was);
    next := local;
    if |remote.conflicts| > 1 { return Failed(LocalState), local, []; }
    if remote.conflicts != [] {
      assert remote.conflicts[0] in remote.conflicts;
      result, events := ReconcileWorkspaceConflict(skill, remote.conflicts[0], author, merge);
      PathIsRun(was, events, skill.Space());
      return;
    }
    result, events := SettleResolvedConflict(skill, remote);
    PathIsRun(was, events, skill.Space());
    if !result.Uploaded? { return; }
    ghost var settled := skill.Space();
    ghost var more;
    if local.name != remote.name {
      result, next, more := AdoptRemoteName(skill, local, remote);
    } else {
      result, next, more := FollowRegistry(skill, local, remote);
      PathIsRun(settled, more, skill.Space());
    }
    RunBoth(was, events, more, skill.Space());
    PathKeeps(was, events, settled);
    if settled.ws.status.Clean? { CleanIsDrained(settled); }
    if Path(settled, more, skill.Space()) { PathThen(was, events, settled, more, skill.Space()); }
    events := events + more;
    GivenUpTree(was, settled.ws, skill.Space());
    if was.ws.conflict.None? { CaughtPlain(was); }
  }

  lemma CaughtPlain(s: System)
    requires s.ws.conflict.None?
    ensures Caught(s) <==> s.tree == s.ws.validRoot
  {
  }

  // ----- where the guarantees end --------------------------------------------------------------

  ghost predicate HeadTree(tree: TreeId, c: Conflict) {
    exists r :: r in c.heads && RootOf(r) == tree
  }

  /** This device has recorded a save of the tree, queued or uploaded. */
  ghost predicate SavedHere(tree: TreeId, ws: Workspace) {
    exists i :: 0 <= i < |ws.records| && RootOf(ws.records[i].revision) == tree
  }

  /** Every stored revision of the tree is one of the heads or of these saves. */
  ghost predicate NoThirdHas(tree: TreeId, c: Conflict, ws: Workspace, reg: Registry) {
    forall r :: r in reg.stored && RootOf(r) == tree ==>
      r in c.heads || exists i :: 0 <= i < |ws.records| && ws.records[i].revision == r
  }

  /** The state in which a conflict is left to the user with the tree as it stands, and the same
      a run later. */
  ghost function LeftToUser(s: System, c: Conflict, events: seq<Event>): System {
    Run(Step(s, ConflictSaved(ContentConflict(c, s.tree, true))), events)
  }

  /** It would now be settled over that tree, if another device has resolved the conflict. */
  ghost predicate WouldSettle(s: System, c: Conflict, events: seq<Event>) {
    var after := LeftToUser(s, c, events);
    after.ws.conflict == Some(ContentConflict(c, s.tree, true)) && SettlesHere(after)
  }

  lemma SavedIsStored(s: System, events: seq<Event>, i: nat)
    requires NothingLost(s) && i < |s.ws.records| && Queue(Run(s, events).ws.records) == []
    ensures s.ws.records[i].revision in Run(s, events).reg.stored
  {
    NoSaveIsLost(s, events);
    var after := Run(s, events);
    hide Run;
    QueueHas(after.ws.records, i);
    assert Kept(after.ws.records[i], after.reg) && OperationOk(after.reg, after.ws.records[i].op);
  }

  /** A conflict is left to the user in state `s`, and a run later it would be settled. Unless a
      third revision happens to have the very same tree, that tree is then on the registry exactly
      when, at the time the conflict was recorded, it was one of the two heads or this device had
      saved it, queued or not; the device could tell both. A reconcile leaves a conflict to the
      user also when neither holds. */
  lemma AskedTreeIsKeptIff(s: System, c: Conflict, events: seq<Event>)
    requires NothingLost(s) && |c.heads| == 2 && c.heads <= s.reg.stored && WouldSettle(s, c, events)
    requires NoThirdHas(s.tree, c, s.ws, LeftToUser(s, c, events).reg)
    ensures AskedTreeKept(LeftToUser(s, c, events)) <==> HeadTree(s.tree, c) || SavedHere(s.tree, s.ws)
  {
    if HeadTree(s.tree, c) || SavedHere(s.tree, s.ws) {
      AskedTreeIsKept(s, c, events);
    } else {
      assert LeftToUser(s, c, events).ws.conflict == Some(ContentConflict(c, s.tree, true));
    }
    hide Run, NothingLost, WouldSettle, LeftToUser;
  }

  /** So settling is safe after every run exactly when that held at the time, if it can come to
      settling at all, whatever was queued. */
  lemma AskedTreeIsSafeIff(s: System, c: Conflict, some: seq<Event>)
    requires NothingLost(s) && |c.heads| == 2 && c.heads <= s.reg.stored
    requires WouldSettle(s, c, some) && NoThirdHas(s.tree, c, s.ws, LeftToUser(s, c, some).reg)
    ensures (forall events :: WouldSettle(s, c, events) ==> AskedTreeKept(LeftToUser(s, c, events)))
            <==> HeadTree(s.tree, c) || SavedHere(s.tree, s.ws)
  {
    AskedTreeIsKeptIff(s, c, some);
    if HeadTree(s.tree, c) || SavedHere(s.tree, s.ws) {
      forall events | WouldSettle(s, c, events) ensures AskedTreeKept(LeftToUser(s, c, events)) {
        AskedTreeIsKept(s, c, events);
      }
    }
  }

  /** A head or a save of this device stays on the registry, whatever anybody else stores. */
  lemma AskedTreeIsKept(s: System, c: Conflict, events: seq<Event>)
    requires NothingLost(s) && c.heads <= s.reg.stored && WouldSettle(s, c, events)
    requires HeadTree(s.tree, c) || SavedHere(s.tree, s.ws)
    ensures AskedTreeKept(LeftToUser(s, c, events))
  {
    var recorded := Step(s, ConflictSaved(ContentConflict(c, s.tree, true)));
    assert NothingLost(recorded) && recorded.ws.records == s.ws.records;
    NoSaveIsLost(recorded, events);
    if i :| 0 <= i < |s.ws.records| && RootOf(s.ws.records[i].revision) == s.tree {
      SavedIsStored(recorded, events, i);
    }
  }

  /** One more step of a path. */
  lemma PathStep(start: System, events: seq<Event>, now: System, e: Event, next: System)
    requires Path(start, events, now) && Orderly(now, e) && Sound(now, e) && Step(now, e) == next
    ensures Path(start, events + [e], next)
  {
    PathOne(now, e);
    PathThen(start, events, now, [e], next);
  }

  // A run from a clean skill: a save diverges, the user edits on before the conflict is reconciled,
  // another device resolves it.

  function CleanStart(): System {
    System(Workspace(1, Base(), Base(), 100, Clean, [], None), 100,
           Registry(7, Base(), 1, [Base()], {Base()}, map[], None))
  }

  function Other(): RevisionId { Foreign(1, 200) }

  function Resolved(): RevisionId { Foreign(2, 201) }

  function TwoHeads(): Conflict { Conflict(50, Base(), {SaveA().revision, Other()}, Other(), 2) }

  function OtherSaved(): Registry { Registry(7, Other(), 2, [Base(), Other()], {Base(), Other()}, map[], None) }

  function SaveDiverged(): Registry {
    OtherSaved().(stored := {Base(), Other(), SaveA().revision}, conflict := Some(TwoHeads()),
                  operations := map[1 := Operation(RequestOf(SaveA()), SaveA().revision, Diverged(TwoHeads()))])
  }

  function OtherResolved(): Registry {
    SaveDiverged().(head := Resolved(), generation := 3, chain := [Base(), Other(), Resolved()],
                    stored := {Base(), Other(), SaveA().revision, Resolved()}, conflict := None)
  }

  function SavedRow(): Workspace { Workspace(1, Base(), SaveA().revision, 101, Waiting, [SaveA()], None) }

  function ConflictRow(workingRoot: TreeId, asks: bool): Workspace {
    SavedRow().(records := [SaveA().(queued := false)], status := InConflict,
                conflict := Some(ContentConflict(TwoHeads(), workingRoot, asks)))
  }

  function DivergenceEvents(): seq<Event> {
    [Edited(101)] + [Captured(7, 1)] + [OthersActed(OtherSaved())]
    + [Asked(SaveA())] + [Sent(SaveA(), true, 50)] + [Detached(SaveA())]
    + [ConflictSaved(ContentConflict(TwoHeads(), 101, false))] + [Paused(InConflict)]
  }

  lemma RegistriesEvolve()
    ensures Evolves(CleanStart().reg, OtherSaved()) && Evolves(SaveDiverged(), OtherResolved())
    ensures SaveA().revision !in {Base(), Other(), Resolved()}
  {
    var reg := SaveDiverged();
    assert OperationOk(reg, 1) && OperationOk(OtherResolved(), 1);
  }

  lemma OneSaveQueue()
    ensures Queue([SaveA()]) == [SaveA()] && Queue([SaveA().(queued := false)]) == []
    ensures Unqueue([SaveA()], 1) == [SaveA().(queued := false)]
  {
    var save := SaveA();
    assert save.queued && save.op == 1;
    hide Queue, Unqueue, SaveA;
    QueueOne(save);
    QueueOne(save.(queued := false));
    UnqueueOne(save);
  }

  lemma SaveIsCaptured()
    ensures Capture(CleanStart().ws, 101, 7, 1) == SavedRow()
  {
    assert SaveA().(queued := true) == SaveA() && |SaveA().parents| == 1;
    assert Save(CleanStart().ws, 101, 7, 1) == Some(SaveA());
    assert [] + [SaveA()] == [SaveA()];
  }

  function SaveAsked(): Registry {
    OtherSaved().(operations := map[1 := Operation(RequestOf(SaveA()), SaveA().revision, Prepared)])
  }

  lemma SaveIsPrepared()
    ensures Prepare(OtherSaved(), RequestOf(SaveA())).0 == SaveAsked()
    ensures Commit(SaveAsked(), RequestOf(SaveA()), true, 50).0 == SaveDiverged()
  {
    assert |SaveA().parents| == 1;
    assert map[][1 := Operation(RequestOf(SaveA()), SaveA().revision, Prepared)] == SaveAsked().operations;
    assert CommitCheck(SaveAsked(), RequestOf(SaveA())) == None;
    assert {Base(), Other()} + {SaveA().revision} == SaveDiverged().stored;
  }

  /** The step is allowed there and leads to `next`. */
  ghost predicate Goes(now: System, e: Event, next: System) {
    Orderly(now, e) && Sound(now, e) && Step(now, e) == next
  }

  lemma PathGoes(start: System, events: seq<Event>, now: System, e: Event, next: System)
    requires Path(start, events, now) && Goes(now, e, next)
    ensures Path(start, events + [e], next)
  {
    PathStep(start, events, now, e, next);
  }

  function DetachedRow(): Workspace { SavedRow().(records := [SaveA().(queued := false)]) }

  lemma CaptureGoes()
    ensures Goes(System(CleanStart().ws, 101, CleanStart().reg), Captured(7, 1),
                 System(SavedRow(), 101, CleanStart().reg))
    ensures Goes(System(SavedRow(), 101, CleanStart().reg), OthersActed(OtherSaved()),
                 System(SavedRow(), 101, OtherSaved()))
  {
    SaveIsCaptured();
    RegistriesEvolve();
    hide Capture, Evolves;
  }

  lemma UploadGoes()
    ensures Goes(System(SavedRow(), 101, OtherSaved()), Asked(SaveA()), System(SavedRow(), 101, SaveAsked()))
    ensures Goes(System(SavedRow(), 101, SaveAsked()), Sent(SaveA(), true, 50), System(SavedRow(), 101, SaveDiverged()))
  {
    SaveIsPrepared();
    hide Prepare, Commit;
  }

  lemma DetachGoes()
    ensures Goes(System(SavedRow(), 101, SaveDiverged()), Detached(SaveA()), System(DetachedRow(), 101, SaveDiverged()))
  {
    OneSaveQueue();
    assert OutcomeOf(SaveDiverged(), SaveA()) == Some(Diverged(TwoHeads())) && SaveA() in [SaveA()];
    hide Queue, Unqueue, OutcomeOf;
  }

  lemma ConflictGoes()
    ensures var c := ContentConflict(TwoHeads(), 101, false);
            var s := System(DetachedRow(), 101, SaveDiverged());
            && Goes(s, ConflictSaved(c), s.(ws := s.ws.(conflict := Some(c))))
            && Goes(s.(ws := s.ws.(conflict := Some(c))), Paused(InConflict), s.(ws := ConflictRow(101, false)))
  {
    RegistriesEvolve();
    assert |TwoHeads().heads| == 2;
    assert Preserved(101, SaveDiverged()) by { assert SaveA().revision in SaveDiverged().stored; }
    hide Preserved, SaveDiverged, Evolves;
  }

  /** A save diverges and its conflict is recorded. */
  lemma SaveDiverges()
    ensures Path(CleanStart(), DivergenceEvents(), System(ConflictRow(101, false), 101, SaveDiverged()))
  {
    CaptureGoes();
    UploadGoes();
    DetachGoes();
    ConflictGoes();
    var s0 := CleanStart();
    var s1, s2 := s0.(tree := 101), System(SavedRow(), 101, s0.reg);
    var s3, s4, s5 := s2.(reg := OtherSaved()), s2.(reg := SaveAsked()), s2.(reg := SaveDiverged());
    var s6 := s5.(ws := DetachedRow());
    var c := ContentConflict(TwoHeads(), 101, false);
    var s7 := s6.(ws := s6.ws.(conflict := Some(c)));
    assert Goes(s0, Edited(101), s1);
    PathNone(s0);
    hide Path, Goes, SaveA, OtherSaved, SaveAsked, SaveDiverged, SavedRow, DetachedRow, ConflictRow, TwoHeads;
    PathGoes(s0, [], s0, Edited(101), s1);
    assert [] + [Edited(101)] == [Edited(101)];
    var a := [Edited(101)] + [Captured(7, 1)];
    PathGoes(s0, [Edited(101)], s1, Captured(7, 1), s2);
    PathGoes(s0, a, s2, OthersActed(OtherSaved()), s3);
    PathGoes(s0, a + [OthersActed(OtherSaved())], s3, Asked(SaveA()), s4);
    var b := a + [OthersActed(OtherSaved())] + [Asked(SaveA())];
    PathGoes(s0, b, s4, Sent(SaveA(), true, 50), s5);
    PathGoes(s0, b + [Sent(SaveA(), true, 50)], s5, Detached(SaveA()), s6);
    var d := b + [Sent(SaveA(), true, 50)] + [Detached(SaveA())];
    PathGoes(s0, d, s6, ConflictSaved(c), s7);
    PathGoes(s0, d + [ConflictSaved(c)], s7, Paused(InConflict), s7.(ws := ConflictRow(101, false)));
  }

  function LossEvents(): seq<Event> {
    [Edited(300)] + [Captured(7, 2)] + [ConflictSaved(ContentConflict(TwoHeads(), 300, true))] + [Captured(7, 3)]
    + [OthersActed(OtherResolved())] + [ConflictCleared] + [Resumed] + [Replaced(201)]
    + [BaselineAdvanced(3, Resolved(), 201)]
  }

  function EditLost(): System {
    System(ConflictRow(300, true).(baseGeneration := 3, baseRevision := Resolved(), localHead := Resolved(),
                                   validRoot := 201, status := Clean, conflict := None),
           201, OtherResolved())
  }

  lemma ScansTakeNothing()
    ensures var s := System(ConflictRow(101, false), 300, SaveDiverged());
            Goes(s, Captured(7, 2), s)
    ensures var s := System(ConflictRow(300, true), 300, SaveDiverged());
            Goes(s, Captured(7, 3), s)
  {
    OneSaveQueue();
    hide Queue, SaveDiverged;
  }

  lemma ReconcileGoes()
    ensures Goes(System(ConflictRow(101, false), 300, SaveDiverged()),
                 ConflictSaved(ContentConflict(TwoHeads(), 300, true)),
                 System(ConflictRow(300, true), 300, SaveDiverged()))
  {
    RegistriesEvolve();
    assert |TwoHeads().heads| == 2;
    hide SaveDiverged, Evolves;
  }

  lemma SettleGoes()
    ensures var s := System(ConflictRow(300, true), 300, OtherResolved());
            var cleared := s.(ws := s.ws.(conflict := None));
            var resumed := cleared.(ws := cleared.ws.(status := Clean));
            && Goes(System(ConflictRow(300, true), 300, SaveDiverged()), OthersActed(OtherResolved()), s)
            && SettlesHere(s)
            && Goes(s, ConflictCleared, cleared) && Goes(cleared, Resumed, resumed)
            && Goes(resumed, Replaced(201), resumed.(tree := 201))
            && Goes(resumed.(tree := 201), BaselineAdvanced(3, Resolved(), 201), EditLost())
  {
    RegistriesEvolve();
    OneSaveQueue();
    hide Queue, SaveDiverged, Evolves;
  }

  /** What the user edits before the reconcile is taken by no scan, neither before nor after, and the
      conflict resolved elsewhere is settled over it. */
  lemma EditIsReplaced()
    ensures Path(System(ConflictRow(101, false), 101, SaveDiverged()), LossEvents(), EditLost())
    ensures SettlesHere(System(ConflictRow(300, true), 300, OtherResolved()))
  {
    ScansTakeNothing();
    ReconcileGoes();
    SettleGoes();
    var s := System(ConflictRow(101, false), 101, SaveDiverged());
    var c, r := ContentConflict(TwoHeads(), 300, true), OtherResolved();
    var s1 := s.(tree := 300);
    var s2 := s1.(ws := ConflictRow(300, true));
    var s3 := s2.(reg := r);
    var s4 := s3.(ws := s3.ws.(conflict := None));
    var s5 := s4.(ws := s4.ws.(status := Clean));
    assert Goes(s, Edited(300), s1);
    PathNone(s);
    hide Path, Goes, OtherResolved, SaveDiverged, ConflictRow, TwoHeads, EditLost;
    PathGoes(s, [], s, Edited(300), s1);
    assert [] + [Edited(300)] == [Edited(300)];
    PathGoes(s, [Edited(300)], s1, Captured(7, 2), s1);
    PathGoes(s, [Edited(300)] + [Captured(7, 2)], s1, ConflictSaved(c), s2);
    PathGoes(s, [Edited(300)] + [Captured(7, 2)] + [ConflictSaved(c)], s2, Captured(7, 3), s2);
    var a := [Edited(300)] + [Captured(7, 2)] + [ConflictSaved(c)] + [Captured(7, 3)];
    PathGoes(s, a, s2, OthersActed(r), s3);
    PathGoes(s, a + [OthersActed(r)], s3, ConflictCleared, s4);
    PathGoes(s, a + [OthersActed(r)] + [ConflictCleared], s4, Resumed, s5);
    var b := a + [OthersActed(r)] + [ConflictCleared] + [Resumed];
    PathGoes(s, b, s5, Replaced(201), s5.(tree := 201));
    PathGoes(s, b + [Replaced(201)], s5.(tree := 201), BaselineAdvanced(3, Resolved(), 201), EditLost());
  }

  /** The whole run, from a clean skill: an edit made in a conflict is replaced, and no revision and
      no record of this device has it. */
  lemma AskedTreeCanBeLost()
    ensures var f := Run(CleanStart(), DivergenceEvents() + LossEvents());
            && Path(CleanStart(), DivergenceEvents() + LossEvents(), f) && Chained(CleanStart())
            && Edited(300) in DivergenceEvents() + LossEvents()
            && f.tree == 201 && !Preserved(300, f.reg) && !SavedHere(300, f.ws)
  {
    var middle := System(ConflictRow(101, false), 101, SaveDiverged());
    SaveDiverges();
    EditIsReplaced();
    NobodyHasTheEdit();
    assert Edited(300) in LossEvents() by { assert LossEvents()[0] == Edited(300); }
    hide Path, Run, Chained, Preserved, SavedHere, DivergenceEvents, LossEvents, ConflictRow, OtherResolved,
        SaveDiverged;
    PathThen(CleanStart(), DivergenceEvents(), middle, LossEvents(), EditLost());
    PathIsRun(CleanStart(), DivergenceEvents() + LossEvents(), EditLost());
  }

  lemma NobodyHasTheEdit()
    ensures Chained(CleanStart()) && EditLost().tree == 201
    ensures !Preserved(300, EditLost().reg) && !SavedHere(300, EditLost().ws)
  {
  }

  lemma RunFour(s: System, a: Event, b: Event, c: Event, d: Event)
    ensures Run(s, [a, b, c, d]) == Step(Step(Step(Step(s, a), b), c), d)
  {
    assert [a, b, c, d] == [a, b, c] + [d];
    RunAppend(s, [a, b, c], [d]);
    RunThree(s, a, b, c);
    RunOne(Run(s, [a, b, c]), d);
  }

  /** It need not be otherwise. What the user edits after a divergence has been recorded and
      before it is reconciled is never queued: no scan takes it before the reconcile, and none
      after, because it is then the tree the conflict was recorded for. So when another device
      resolves the conflict, it is replaced. */
  lemma NewerWorkInConflictIsNotSaved(s: System, edit: TreeId, author: AuthorId, op: OperationId, again: OperationId)
    requires s.ws.status.InConflict? && s.ws.conflict.Some? && !s.ws.conflict.value.resolutionRequired
    requires Queue(s.ws.records) == [] && |s.ws.conflict.value.conflict.heads| == 2
    ensures var asked := ContentConflict(s.ws.conflict.value.conflict, edit, true);
            var after := Run(s, [Edited(edit), Captured(author, op), ConflictSaved(asked), Captured(author, again)]);
            && after.ws.records == s.ws.records && after.reg == s.reg && after.tree == edit && SettlesHere(after)
            && (AskedTreeKept(after) <==> Preserved(edit, s.reg))
  {
    var asked := ContentConflict(s.ws.conflict.value.conflict, edit, true);
    RunFour(s, Edited(edit), Captured(author, op), ConflictSaved(asked), Captured(author, again));
    var s1 := s.(tree := edit);
    assert Step(s1, Captured(author, op)) == s1;
    var s2 := Step(s1, ConflictSaved(asked));
    assert s2 == s1.(ws := s.ws.(conflict := Some(asked)));
    assert Step(s2, Captured(author, again)) == s2;
  }

  /** A rename adopted over queued saves marks the row clean although they wait. */
  lemma RenameKeepsChainIff(s: System, generation: nat, revision: RevisionId)
    requires Chained(s)
    ensures Chained(Step(s, RenameAdopted(generation, revision, RootOf(revision)))) <==> Queue(s.ws.records) == []
  {
    var e := RenameAdopted(generation, revision, RootOf(revision));
    if Queue(s.ws.records) == [] {
      StepKeepsChain(s, e);
    } else {
      CleanQueueIsNoChain(Step(s, e));
    }
    hide Chained, Queue;
  }

  lemma CleanQueueIsNoChain(s: System)
    requires s.ws.status.Clean? && Queue(s.ws.records) != []
    ensures !Chained(s)
  {
  }
}
