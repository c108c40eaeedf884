/** Several scanners of one workspace, each in small steps: claim the lease, scan, read the
    row, read the queue, enqueue. Uploads take no lease and run in between. */
module ScanLease {
  import opened Basics
  import opened WorkspaceModel
  import opened QueueChain

  type Holder = nat

  const LEASE_MS: nat := 60000

  datatype Lease = Lease(holder: Holder, expires: nat)

  datatype Stage =
    | Claimed
    | Scanned(tree: TreeId)
    | SawState(tree: TreeId, seen: Workspace)
    | SawQueue(tree: TreeId, seen: Workspace, queue: seq<Record>)

  /** A live scan; `expires` is when the lease it claimed runs out. */
  datatype Scanner = Scanner(expires: nat, stage: Stage)

  datatype Site = Site(now: nat, lease: Option<Lease>, scanners: map<Holder, Scanner>, sys: System)

  datatype Move =
    | Ticks(ms: nat)
    | Claims(h: Holder)
    | Advances(h: Holder)                                     // next read of the scan
    | Enqueues(h: Holder, author: AuthorId, saveOp: OperationId)
    | Dies(h: Holder)                                         // killed; the lease stays
    | Meanwhile(e: Event)                                     // uploads, edits, other devices

  /** `claim_lease`: drops an expired lease, then inserts unless one is held. */
  predicate Claimable(t: Site) {
    t.lease.None? || t.lease.value.expires <= t.now
  }

  function Leave(t: Site, h: Holder): Site {
    t.(scanners := t.scanners - {h}, lease := if t.lease.Some? && t.lease.value.holder == h then None else t.lease)
  }

  /** A scan goes on to the queue only when its tree is not the last valid one. */
  function Advance(t: Site, h: Holder): Site
    requires h in t.scanners
  {
    var scanner := t.scanners[h];
    match scanner.stage
    case Claimed => t.(scanners := t.scanners[h := scanner.(stage := Scanned(t.sys.tree))])
    case Scanned(tree) => t.(scanners := t.scanners[h := scanner.(stage := SawState(tree, t.sys.ws))])
    case SawState(tree, seen) =>
      if seen.validRoot == tree then Leave(t, h)
      else t.(scanners := t.scanners[h := scanner.(stage := SawQueue(tree, seen, Queue(t.sys.ws.records)))])
    case SawQueue(_, _, _) => t
  }

  function Saved(t: Site, h: Holder, author: AuthorId, op: OperationId): Option<Record>
    requires h in t.scanners && t.scanners[h].stage.SawQueue?
  {
    SaveFrom(t.scanners[h].stage.seen, t.scanners[h].stage.queue, t.scanners[h].stage.tree, author, op)
  }

  ghost function Next(t: Site, m: Move): Site {
    match m
    case Ticks(ms) => t.(now := t.now + ms)
    case Claims(h) =>
      if h !in t.scanners && Claimable(t) then
        t.(lease := Some(Lease(h, t.now + LEASE_MS)), scanners := t.scanners[h := Scanner(t.now + LEASE_MS, Claimed)])
      else t
    case Advances(h) => if h in t.scanners then Advance(t, h) else t
    case Enqueues(h, author, op) =>
      if h in t.scanners && t.scanners[h].stage.SawQueue? then
        match Saved(t, h, author, op)
        case None => Leave(t, h)
        case Some(rec) =>
          (match Enqueue(t.sys.ws, rec)
           case None => Leave(t, h)
           case Some(ws) => Leave(t.(sys := t.sys.(ws := ws)), h))
      else t
    case Dies(h) => t.(scanners := t.scanners - {h})
    case Meanwhile(e) => t.(sys := Step(t.sys, e))
  }

  ghost function Play(t: Site, moves: seq<Move>): Site
    decreases |moves|
  {
    if moves == [] then t else Play(Next(t, moves[0]), moves[1..])
  }

  // ----- exclusion -----------------------------------------------------------------------

  /** A scan whose lease has not run out holds the lease. */
  ghost predicate Exclusive(t: Site) {
    forall h :: h in t.scanners && t.now < t.scanners[h].expires ==> t.lease == Some(Lease(h, t.scanners[h].expires))
  }

  lemma MoveExcludes(t: Site, m: Move)
    requires Exclusive(t)
    ensures Exclusive(Next(t, m))
  {
    hide Step, SaveFrom, Enqueue, Queue;
  }

  lemma {:induction false} LeaseExcludes(t: Site, moves: seq<Move>)
    requires Exclusive(t)
    ensures Exclusive(Play(t, moves))
    ensures var f := Play(t, moves);
            forall g, h :: g in f.scanners && h in f.scanners && f.now < f.scanners[g].expires
                && f.now < f.scanners[h].expires
              ==> g == h
    decreases |moves|
  {
    if moves != [] {
      MoveExcludes(t, moves[0]);
      hide Next;
      LeaseExcludes(Next(t, moves[0]), moves[1..]);
    }
  }

  // ----- no save is captured twice, and the queue does not fork ------------------------------

  /** A save's revision is of its tree, and the local head is that of the last valid tree. */
  ghost predicate Rooted(ws: Workspace) {
    && RootOf(ws.localHead) == ws.validRoot
    && forall i :: 0 <= i < |ws.records| ==> RootOf(ws.records[i].revision) == ws.records[i].root
  }

  /** No save repeats the tree it stands on. */
  ghost predicate NoRepeat(ws: Workspace) {
    forall i :: 0 <= i < |ws.records| && |ws.records[i].parents| == 1 ==>
        ws.records[i].root != RootOf(ws.records[i].head)
  }

  /** The queue is one chain that ends at the local head, and saves no tree twice in a row. */
  ghost predicate OneQueue(ws: Workspace) {
    OperationsDistinct(ws.records) && Linear(ws) && Rooted(ws) && NoRepeat(ws)
  }

  lemma NeighboursDiffer(ws: Workspace, i: nat)
    requires OneQueue(ws) && 0 < i < |Queue(ws.records)|
    ensures Queue(ws.records)[i].root != Queue(ws.records)[i - 1].root
  {
    var q := Queue(ws.records);
    QueueMembers(ws.records, q[i]);
    QueueMembers(ws.records, q[i - 1]);
  }

  /** What a scan builds its save on: the newest queued save it read, or else the local head. */
  function ParentRead(seen: Workspace, queue: seq<Record>): RevisionId {
    if queue == [] then seen.localHead else Latest(queue).revision
  }

  function GenerationRead(seen: Workspace, queue: seq<Record>): nat {
    if queue == [] then seen.baseGeneration else Latest(queue).generation + 1
  }

  /** The row that was read does not wait for the user to merge two heads. */
  predicate Plain(seen: Workspace) {
    !(seen.status.InConflict? && seen.conflict.Some?)
  }

  /** Nothing is queued, or the save continues the newest one; and its tree is a new one. */
  ghost predicate ContinuesQueue(tree: TreeId, seen: Workspace, queue: seq<Record>, ws: Workspace) {
    var q := Queue(ws.records);
    && (q != [] ==> Plain(seen) && ParentRead(seen, queue) == ws.localHead
                    && GenerationRead(seen, queue) == q[|q| - 1].generation + 1)
    && (Plain(seen) ==> tree != RootOf(ParentRead(seen, queue)))
  }

  /** Something is queued, or what the scan read is still the synced head and base generation. */
  ghost predicate ReadTheBase(seen: Workspace, queue: seq<Record>, ws: Workspace) {
    Queue(ws.records) == [] ==>
      && Plain(seen) && ParentRead(seen, queue) == ws.baseRevision && GenerationRead(seen, queue) == ws.baseGeneration
  }

  ghost predicate TwoHeads(seen: Workspace) {
    seen.conflict.Some? ==> |seen.conflict.value.conflict.heads| == 2
  }

  lemma SavedShape(tree: TreeId, seen: Workspace, queue: seq<Record>, author: AuthorId, op: OperationId)
    requires SaveFrom(seen, queue, tree, author, op).Some? && TwoHeads(seen)
    ensures var rec := SaveFrom(seen, queue, tree, author, op).value;
            && rec.queued && rec.root == tree && RootOf(rec.revision) == tree
            && if Plain(seen) then
                 && rec.head == ParentRead(seen, queue) && rec.parents == {rec.head} && |rec.parents| == 1
                 && rec.generation == GenerationRead(seen, queue)
               else |rec.parents| == 2
  {
  }

  lemma TableExtendsIff(ws: Workspace, rec: Record)
    requires OneQueue(ws) && Enqueue(ws, rec).Some? && RootOf(rec.revision) == rec.root
    ensures var after := Enqueue(ws, rec).value;
            && OperationsDistinct(after.records) && Rooted(after)
            && (NoRepeat(after) <==> |rec.parents| != 1 || rec.root != RootOf(rec.head))
  {
    var after := Enqueue(ws, rec).value;
    EnqueueKeepsDistinct(ws, rec);
    hide Linear, OperationsDistinct;
    assert after.records[|ws.records|] == rec.(queued := true);
    assert forall i :: 0 <= i < |ws.records| ==> after.records[i] == ws.records[i];
  }

  lemma StraightSnocIff(q: seq<Record>, rec: Record)
    requires Straight(q)
    ensures Straight(q + [rec]) <==>
              q == [] || (rec.head == q[|q| - 1].revision && rec.parents == {rec.head}
                          && rec.generation == q[|q| - 1].generation + 1)
  {
    if q != [] {
      assert (q + [rec])[|q|] == rec && (q + [rec])[|q| - 1] == q[|q| - 1];
      if rec.head == q[|q| - 1].revision && rec.parents == {rec.head} && rec.generation == q[|q| - 1].generation + 1 {
        StraightAppend(q, rec);
      }
    }
  }

  lemma ChainExtendsIff(ws: Workspace, rec: Record)
    requires Linear(ws) && Enqueue(ws, rec).Some? && rec.queued
    ensures var q := Queue(ws.records);
            Linear(Enqueue(ws, rec).value) <==>
              q == [] || (rec.head == q[|q| - 1].revision && rec.parents == {rec.head}
                          && rec.generation == q[|q| - 1].generation + 1)
  {
    var q, after := Queue(ws.records), Enqueue(ws, rec).value;
    assert rec.(queued := true) == rec;
    QueueAppend(ws.records, rec);
    assert after
        == ws.(records := ws.records + [rec], localHead := rec.revision, validRoot := rec.root, status := Waiting);
    StraightSnocIff(q, rec);
    hide Queue, Enqueue, Straight;
    assert Queue(after.records) == q + [rec];
  }

  /** Any scan, within its lease or not, and whatever happened since its reads: its save keeps the
      queue one chain exactly when nothing is queued any more or what it read as the newest save
      still is, and its tree is not the one it builds on. And a chain from the synced head stays one
      exactly when something is queued or the base it read is still the base. */
  lemma EnqueueExtendsChainIff(tree: TreeId, seen: Workspace, queue: seq<Record>, ws: Workspace, author: AuthorId,
                               op: OperationId)
    requires OneQueue(ws) && TwoHeads(seen) && SaveFrom(seen, queue, tree, author, op).Some?
    requires Enqueue(ws, SaveFrom(seen, queue, tree, author, op).value).Some?
    ensures var after := Enqueue(ws, SaveFrom(seen, queue, tree, author, op).value).value;
            && (OneQueue(after) <==> ContinuesQueue(tree, seen, queue, ws))
            && (Anchored(ws) ==> (Anchored(after) <==> ReadTheBase(seen, queue, ws)))
  {
    var rec := SaveFrom(seen, queue, tree, author, op).value;
    SavedShape(tree, seen, queue, author, op);
    assert Linear(ws);
    hide SaveFrom, Enqueue, Queue, OneQueue, Anchored, ParentRead, GenerationRead, LinksOn, Linear, Plain, TwoHeads;
    SaveExtendsIff(ws, rec);
    if Anchored(ws) { StartStaysIff(ws, rec); }
    if Queue(ws.records) != [] { LinkedHeadIff(ws, rec); }
  }

  /** The save continues the newest queued one. */
  ghost predicate LinksOn(ws: Workspace, rec: Record)
    requires Queue(ws.records) != []
  {
    var q := Queue(ws.records);
    && rec.head == q[|q| - 1].revision && rec.parents == {rec.head} && rec.generation == q[|q| - 1].generation + 1
  }

  lemma SaveExtendsIff(ws: Workspace, rec: Record)
    requires OneQueue(ws) && Enqueue(ws, rec).Some? && rec.queued && RootOf(rec.revision) == rec.root
    ensures OneQueue(Enqueue(ws, rec).value) <==>
              && (Queue(ws.records) != [] ==> LinksOn(ws, rec))
              && (|rec.parents| == 1 ==> rec.root != RootOf(rec.head))
  {
    TableExtendsIff(ws, rec);
    ChainExtendsIff(ws, rec);
    hide Enqueue, Queue, Linear, OperationsDistinct, Rooted, NoRepeat;
  }

  lemma LinkedHeadIff(ws: Workspace, rec: Record)
    requires Linear(ws) && Queue(ws.records) != []
    ensures LinksOn(ws, rec) <==>
              rec.head == ws.localHead && rec.parents == {rec.head}
              && rec.generation == Queue(ws.records)[|Queue(ws.records)| - 1].generation + 1
  {
    hide Queue, Straight;
  }

  lemma StartStaysIff(ws: Workspace, rec: Record)
    requires Enqueue(ws, rec).Some? && rec.queued && Anchored(ws)
    ensures Anchored(Enqueue(ws, rec).value) <==>
              Queue(ws.records) != []
              || (rec.head == ws.baseRevision && rec.parents == {ws.baseRevision}
                  && rec.generation == ws.baseGeneration)
  {
    var q, after := Queue(ws.records), Enqueue(ws, rec).value;
    assert rec.(queued := true) == rec;
    QueueAppend(ws.records, rec);
    assert after
        == ws.(records := ws.records + [rec], localHead := rec.revision, validRoot := rec.root, status := Waiting);
    hide Queue, Enqueue;
    assert (q + [rec])[0] == if q == [] then rec else q[0];
  }

  /** Events that run beside the scans here: everything but scanning itself, done in order. While
      a scan within its lease has read the row, no merge is queued. */
  ghost predicate Beside(t: Site, e: Event) {
    && Orderly(t.sys, e) && Sound(t.sys, e) && !e.Captured?
    && (e.MergeQueued? ==> forall h :: h in t.scanners && t.now < t.scanners[h].expires ==>
        !HasRead(t.scanners[h].stage))
  }

  predicate HasRead(stage: Stage) {
    stage.SawState? || stage.SawQueue?
  }

  /** What is left of the queue a scan read: some front of it has been taken off since. */
  ghost predicate FrontGone(queue: seq<Record>, ws: Workspace) {
    exists k | 0 <= k <= |queue| :: queue[k..] == Queue(ws.records)
  }

  /** A row as some scan read it once. */
  ghost predicate RowOk(stage: Stage) {
    HasRead(stage) ==> TwoHeads(stage.seen) && RootOf(stage.seen.localHead) == stage.seen.validRoot
  }

  ghost predicate NewestIs(queue: seq<Record>, root: TreeId) {
    queue != [] ==> queue[|queue| - 1].root == root && RootOf(queue[|queue| - 1].revision) == root
  }

  /** What a scan within its lease has read still holds, but for saves taken off the front of the
      queue, and a row that moved on while nothing was queued. */
  ghost predicate Current(stage: Stage, ws: Workspace) {
    match stage
    case SawState(_, seen) => Queue(ws.records) != [] ==> seen.validRoot == ws.validRoot
    case SawQueue(tree, seen, queue) =>
      seen.validRoot != tree && Straight(queue) && FrontGone(queue, ws) && NewestIs(queue, seen.validRoot)
    case _ => true
  }

  ghost predicate SiteOk(t: Site) {
    && Exclusive(t) && OneQueue(t.sys.ws) && RegistryOk(t.sys.reg)
    && (forall h :: h in t.scanners ==> RowOk(t.scanners[h].stage))
    && forall h :: h in t.scanners && t.now < t.scanners[h].expires ==> Current(t.scanners[h].stage, t.sys.ws)
  }

  ghost predicate Prompt(t: Site, m: Move) {
    match m
    case Enqueues(h, _, _) => h in t.scanners && t.scanners[h].stage.SawQueue? ==> t.now < t.scanners[h].expires
    case Meanwhile(e) => Beside(t, e)
    case _ => true
  }

  ghost predicate PromptPlay(t: Site, moves: seq<Move>)
    decreases |moves|
  {
    moves == [] || (Prompt(t, moves[0]) && PromptPlay(Next(t, moves[0]), moves[1..]))
  }

  /** A scan within its lease continues the queue. */
  lemma CurrentContinues(tree: TreeId, seen: Workspace, queue: seq<Record>, ws: Workspace)
    requires OneQueue(ws) && Current(SawQueue(tree, seen, queue), ws) && RowOk(SawQueue(tree, seen, queue))
    requires Plain(seen) || queue == []
    ensures ContinuesQueue(tree, seen, queue, ws)
  {
    if queue != [] { LatestIsLast(queue); }
    SuffixEndsAlike(queue, Queue(ws.records), ws);
    hide Queue, Straight, OperationsDistinct, Rooted, NoRepeat, Latest, FrontGone;
  }

  lemma SuffixEndsAlike(queue: seq<Record>, rest: seq<Record>, ws: Workspace)
    requires FrontGone(queue, ws) && rest == Queue(ws.records)
    ensures rest != [] ==> queue != [] && rest[|rest| - 1] == queue[|queue| - 1]
  {
    hide Queue;
    var k :| 0 <= k <= |queue| && queue[k..] == Queue(ws.records);
  }

  lemma FrontShifts(queue: seq<Record>, ws: Workspace, after: Workspace)
    requires OperationsDistinct(ws.records) && Queue(ws.records) != [] && FrontGone(queue, ws)
    requires after.records == Unqueue(ws.records, Queue(ws.records)[0].op)
    ensures FrontGone(queue, after)
  {
    var q := Queue(ws.records);
    UnqueueFirst(ws.records);
    var k :| 0 <= k <= |queue| && queue[k..] == q;
    assert queue[k + 1..] == q[1..];
  }

  lemma UnqueueKeepsTable(ws: Workspace, after: Workspace, op: OperationId)
    requires Rooted(ws) && NoRepeat(ws) && after.records == Unqueue(ws.records, op)
    requires after.localHead == ws.localHead && after.validRoot == ws.validRoot
    ensures Rooted(after) && NoRepeat(after)
  {
  }

  /** Taking the front off leaves every scan with some front of its queue gone. */
  lemma FrontMeanwhile(t: Site, e: Event)
    requires SiteOk(t) && Beside(t, e) && (e.Synced? || e.Detached?)
    ensures SiteOk(Next(t, Meanwhile(e)))
  {
    hide OneQueue, Current, Step, Orderly, Sound, RegistryOk, InOrder, Queue, Unqueue, OperationsDistinct, RowOk;
    var next := Step(t.sys, e);
    FrontKeepsQueue(t.sys, e);
    OneQueueInOrder(t.sys);
    FrontRecords(t.sys, e);
    FrontLeavesCurrent(t, next.ws);
    SiteMovesOn(t, next);
  }

  lemma OneQueueInOrder(s: System)
    requires OneQueue(s.ws) && RegistryOk(s.reg)
    ensures InOrder(s) && OperationsDistinct(s.ws.records)
  {
  }

  lemma SiteMovesOn(t: Site, next: System)
    requires SiteOk(t) && OneQueue(next.ws) && RegistryOk(next.reg)
    requires forall h :: h in t.scanners && Current(t.scanners[h].stage, t.sys.ws) ==>
               Current(t.scanners[h].stage, next.ws)
    ensures SiteOk(t.(sys := next))
  {
    hide OneQueue, Current, RowOk, RegistryOk;
  }

  lemma FrontLeavesCurrent(t: Site, after: Workspace)
    requires OperationsDistinct(t.sys.ws.records)
    requires after == t.sys.ws
             || (Queue(t.sys.ws.records) != [] && after.validRoot == t.sys.ws.validRoot
                 && after.records == Unqueue(t.sys.ws.records, Queue(t.sys.ws.records)[0].op))
    ensures forall h :: h in t.scanners && Current(t.scanners[h].stage, t.sys.ws) ==>
              Current(t.scanners[h].stage, after)
  {
    if after != t.sys.ws {
      UnqueueFirst(t.sys.ws.records);
      hide Unqueue, Queue, Straight, FrontGone;
      forall h | h in t.scanners && Current(t.scanners[h].stage, t.sys.ws) ensures Current(t.scanners[h].stage, after) {
        if t.scanners[h].stage.SawQueue? { FrontShifts(t.scanners[h].stage.queue, t.sys.ws, after); }
      }
    }
  }

  lemma FrontKeepsQueue(s: System, e: Event)
    requires OneQueue(s.ws) && RegistryOk(s.reg) && Orderly(s, e) && (e.Synced? || e.Detached?)
    ensures OneQueue(Step(s, e).ws) && RegistryOk(Step(s, e).reg)
  {
    var after := Step(s, e).ws;
    FrontKeepsOrder(s, e);
    FrontRecords(s, e);
    if after != s.ws { UnqueueKeepsTable(s.ws, after, Queue(s.ws.records)[0].op); }
    hide Linear, Rooted, NoRepeat, OperationsDistinct, RegistryOk, Queue, Unqueue, MarkSynced, MarkDetached, OutcomeOf;
  }

  lemma FrontRecords(s: System, e: Event)
    requires InOrder(s) && Orderly(s, e) && (e.Synced? || e.Detached?)
    ensures var after := Step(s, e).ws;
            after == s.ws || (after.records == Unqueue(s.ws.records, Queue(s.ws.records)[0].op)
                              && after.localHead == s.ws.localHead && after.validRoot == s.ws.validRoot)
    ensures Step(s, e).reg == s.reg && Queue(s.ws.records) != []
  {
  }

  /** The steps that leave the records alone: they move the row only while nothing is queued. */
  lemma SettingMeanwhile(t: Site, e: Event)
    requires SiteOk(t) && Beside(t, e) && !e.Synced? && !e.Detached? && !e.MergeQueued?
    ensures SiteOk(Next(t, Meanwhile(e)))
  {
    var next := Step(t.sys, e);
    StepKeepsRegistry(t.sys, e);
    SettingKeepsQueue(t.sys, e);
    SettingKeepsTable(t.sys, e);
    hide OneQueue, Current, Step, Orderly, Sound, RegistryOk, Queue, Rooted, NoRepeat, Evolves;
    forall h | h in t.scanners && Current(t.scanners[h].stage, t.sys.ws) ensures Current(t.scanners[h].stage, next.ws) {
      SameQueueIsCurrent(t.scanners[h].stage, t.sys.ws, next.ws);
    }
    SiteMovesOn(t, next);
  }

  lemma SettingKeepsTable(s: System, e: Event)
    requires OneQueue(s.ws) && RegistryOk(s.reg) && Sound(s, e) && Orderly(s, e)
    requires !e.Captured? && !e.Synced? && !e.Detached? && !e.MergeQueued?
    ensures var after := Step(s, e).ws;
            && Rooted(after) && NoRepeat(after) && after.records == s.ws.records
            && (Queue(s.ws.records) != [] ==> after.validRoot == s.ws.validRoot)
  {
    hide Prepare, Commit, Straight, OperationsDistinct;
  }

  lemma SameQueueIsCurrent(stage: Stage, ws: Workspace, after: Workspace)
    requires Current(stage, ws) && after.records == ws.records
    requires Queue(ws.records) != [] ==> after.validRoot == ws.validRoot
    ensures Current(stage, after)
  {
  }

  lemma MergeMeanwhile(t: Site, merge: Record)
    requires SiteOk(t) && Beside(t, MergeQueued(merge))
    ensures SiteOk(Next(t, Meanwhile(MergeQueued(merge))))
  {
    hide Queue, Enqueue, OneQueue, RegistryOk, Current, RowOk;
    if Enqueue(t.sys.ws, merge).Some? {
      MergeKeepsQueue(t.sys.ws, merge);
      forall h | h in t.scanners && t.now < t.scanners[h].expires
        ensures Current(t.scanners[h].stage, Enqueue(t.sys.ws, merge).value)
      {
        UnreadIsCurrent(t.scanners[h].stage, Enqueue(t.sys.ws, merge).value);
      }
    }
  }

  lemma UnreadIsCurrent(stage: Stage, ws: Workspace)
    requires !HasRead(stage)
    ensures Current(stage, ws)
  {
  }

  lemma MergeKeepsQueue(ws: Workspace, merge: Record)
    requires OneQueue(ws) && Queue(ws.records) == [] && Enqueue(ws, merge).Some?
    requires |merge.parents| == 2 && RootOf(merge.revision) == merge.root
    ensures OneQueue(Enqueue(ws, merge).value)
  {
    EnqueueKeepsLinear(ws, merge);
    TableExtendsIff(ws, merge);
    hide Queue, Enqueue, Linear, OperationsDistinct, Rooted, NoRepeat;
  }

  lemma MeanwhileKeeps(t: Site, e: Event)
    requires SiteOk(t) && Beside(t, e)
    ensures SiteOk(Next(t, Meanwhile(e)))
  {
    match e {
      case Synced(_) => FrontMeanwhile(t, e);
      case Detached(_) => FrontMeanwhile(t, e);
      case MergeQueued(merge) => MergeMeanwhile(t, merge);
      case _ => SettingMeanwhile(t, e);
    }
  }

  lemma EnqueueKeeps(t: Site, h: Holder, author: AuthorId, op: OperationId)
    requires SiteOk(t) && Prompt(t, Enqueues(h, author, op))
    ensures SiteOk(Next(t, Enqueues(h, author, op)))
  {
    hide Saved, Enqueue, OneQueue, Current, RowOk, RegistryOk;
    if h in t.scanners && t.scanners[h].stage.SawQueue? {
      if Saved(t, h, author, op).Some? && Enqueue(t.sys.ws, Saved(t, h, author, op).value).Some? {
        PromptSaveContinues(t, h, author, op);
        LeaveAlone(t, Enqueue(t.sys.ws, Saved(t, h, author, op).value).value, h);
      } else {
        LeaveAlone(t, t.sys.ws, h);
      }
    }
  }

  lemma PromptSaveContinues(t: Site, h: Holder, author: AuthorId, op: OperationId)
    requires SiteOk(t) && h in t.scanners && t.scanners[h].stage.SawQueue? && t.now < t.scanners[h].expires
    requires Saved(t, h, author, op).Some? && Enqueue(t.sys.ws, Saved(t, h, author, op).value).Some?
    ensures OneQueue(Enqueue(t.sys.ws, Saved(t, h, author, op).value).value)
  {
    var stage := t.scanners[h].stage;
    assert Plain(stage.seen) || stage.queue == [];
    CurrentContinues(stage.tree, stage.seen, stage.queue, t.sys.ws);
    hide ContinuesQueue, Enqueue, OneQueue, Current, RegistryOk, SaveFrom;
    EnqueueExtendsChainIff(stage.tree, stage.seen, stage.queue, t.sys.ws, author, op);
  }

  /** The one live scan leaves; no other is left to go stale. */
  lemma LeaveAlone(t: Site, ws: Workspace, h: Holder)
    requires SiteOk(t) && h in t.scanners && t.now < t.scanners[h].expires && OneQueue(ws)
    ensures SiteOk(Leave(t.(sys := t.sys.(ws := ws)), h))
  {
    forall g | g in t.scanners && g != h ensures t.scanners[g].expires <= t.now {
    }
  }

  /** A read of the current row or queue is current. */
  lemma FreshReadIsCurrent(ws: Workspace, tree: TreeId)
    requires OneQueue(ws)
    ensures Current(SawState(tree, ws), ws) && RowOk(SawState(tree, ws))
    ensures forall seen :: Current(SawState(tree, seen), ws) && seen.validRoot != tree ==>
                             Current(SawQueue(tree, seen, Queue(ws.records)), ws)
  {
    var q := Queue(ws.records);
    assert q[0..] == q;
    if q != [] { QueueMembers(ws.records, q[|q| - 1]); }
  }

  lemma AdvanceKeeps(t: Site, h: Holder)
    requires SiteOk(t) && h in t.scanners
    ensures SiteOk(Advance(t, h))
  {
    hide OneQueue, Current;
    var stage := t.scanners[h].stage;
    match stage {
      case Claimed => ScannedIsCurrent(t.sys.tree, t.sys.ws);
      case Scanned(tree) => FreshReadIsCurrent(t.sys.ws, tree);
      case SawState(tree, seen) => FreshReadIsCurrent(t.sys.ws, tree);
      case _ =>
    }
  }

  lemma ScannedIsCurrent(tree: TreeId, ws: Workspace)
    ensures Current(Scanned(tree), ws)
  {
  }

  lemma MoveKeeps(t: Site, m: Move)
    requires SiteOk(t) && Prompt(t, m)
    ensures SiteOk(Next(t, m))
  {
    match m {
      case Meanwhile(e) => MeanwhileKeeps(t, e);
      case Enqueues(h, author, op) => EnqueueKeeps(t, h, author, op);
      case Advances(h) => if h in t.scanners { AdvanceKeeps(t, h); }
      case _ =>
    }
  }

  /** However scanners, uploads, divergences, conflicts, new baselines, renames, edits, kills and
      other devices interleave, as long as a scan enqueues within its lease and no merge is queued
      while one within its lease has read the row: the queue is one chain that ends at the local
      head, and no tree is saved on top of itself. */
  lemma {:induction false} ScannersNeverForkTheChain(t: Site, moves: seq<Move>)
    requires SiteOk(t) && PromptPlay(t, moves)
    ensures SiteOk(Play(t, moves))
    decreases |moves|
  {
    if moves != [] {
      MoveKeeps(t, moves[0]);
      ScannersNeverForkTheChain(Next(t, moves[0]), moves[1..]);
    }
  }

  // ----- without any lease: exactly when the queue stays one chain ----------------------------

  ghost predicate RowsOk(t: Site) {
    RegistryOk(t.sys.reg) && forall h :: h in t.scanners ==> RowOk(t.scanners[h].stage)
  }

  ghost predicate Tame(t: Site, m: Move) {
    m.Meanwhile? ==> Orderly(t.sys, m.e) && Sound(t.sys, m.e) && !m.e.Captured?
  }

  ghost predicate TamePlay(t: Site, moves: seq<Move>)
    decreases |moves|
  {
    moves == [] || (Tame(t, moves[0]) && TamePlay(Next(t, moves[0]), moves[1..]))
  }

  /** The move queues no save, or one that continues the queue. */
  ghost predicate MoveContinues(t: Site, m: Move) {
    match m
    case Enqueues(h, author, op) =>
      h in t.scanners && t.scanners[h].stage.SawQueue?
      && Saved(t, h, author, op).Some? && Enqueue(t.sys.ws, Saved(t, h, author, op).value).Some? ==>
        ContinuesQueue(t.scanners[h].stage.tree, t.scanners[h].stage.seen, t.scanners[h].stage.queue, t.sys.ws)
    case _ => true
  }

  lemma EventKeepsQueue(s: System, e: Event)
    requires OneQueue(s.ws) && RegistryOk(s.reg) && Orderly(s, e) && Sound(s, e) && !e.Captured?
    ensures OneQueue(Step(s, e).ws) && RegistryOk(Step(s, e).reg)
  {
    StepKeepsRegistry(s, e);
    match e {
      case Synced(_) => FrontKeepsQueue(s, e);
      case Detached(_) => FrontKeepsQueue(s, e);
      case MergeQueued(merge) =>
        if Enqueue(s.ws, merge).Some? { MergeKeepsQueue(s.ws, merge); }
      case _ => SettingKeepsQueue(s, e);
    }
    hide OneQueue, RegistryOk, Enqueue, MarkSynced, MarkDetached, OutcomeOf, Queue;
  }

  lemma SettingKeepsQueue(s: System, e: Event)
    requires OneQueue(s.ws) && RegistryOk(s.reg) && Orderly(s, e) && Sound(s, e)
    requires !e.Captured? && !e.Synced? && !e.Detached? && !e.MergeQueued?
    ensures OneQueue(Step(s, e).ws)
  {
    SettingKeepsOrder(s, e);
    SettingKeepsTable(s, e);
    hide Linear, Rooted, NoRepeat, OperationsDistinct, RegistryOk;
  }

  lemma MoveKeepsQueueIff(t: Site, m: Move)
    requires OneQueue(t.sys.ws) && RowsOk(t) && Tame(t, m)
    ensures RowsOk(Next(t, m)) && (OneQueue(Next(t, m).sys.ws) <==> MoveContinues(t, m))
  {
    match m {
      case Meanwhile(e) => EventKeepsQueue(t.sys, e);
      case Enqueues(h, author, op) =>
        if h in t.scanners && t.scanners[h].stage.SawQueue? {
          var stage := t.scanners[h].stage;
          if Saved(t, h, author, op).Some? && Enqueue(t.sys.ws, Saved(t, h, author, op).value).Some? {
            EnqueueExtendsChainIff(stage.tree, stage.seen, stage.queue, t.sys.ws, author, op);
          }
        }
      case _ =>
    }
    hide OneQueue, RegistryOk, SaveFrom, Enqueue, Step, ContinuesQueue;
  }

  ghost predicate OneQueueThroughout(t: Site, moves: seq<Move>)
    decreases |moves|
  {
    OneQueue(t.sys.ws) && (moves == [] || OneQueueThroughout(Next(t, moves[0]), moves[1..]))
  }

  ghost predicate AllContinue(t: Site, moves: seq<Move>)
    decreases |moves|
  {
    moves == [] || (MoveContinues(t, moves[0]) && AllContinue(Next(t, moves[0]), moves[1..]))
  }

  /** Over every interleaving, leases kept or not and merges queued at any time: the queue is one
      chain that repeats no tree all along exactly when every save that is enqueued continues it. */
  lemma {:induction false} OneQueueThroughoutIff(t: Site, moves: seq<Move>)
    requires OneQueue(t.sys.ws) && RowsOk(t) && TamePlay(t, moves)
    ensures OneQueueThroughout(t, moves) <==> AllContinue(t, moves)
    decreases |moves|
  {
    if moves != [] {
      MoveKeepsQueueIff(t, moves[0]);
      if MoveContinues(t, moves[0]) {
        OneQueueThroughoutIff(Next(t, moves[0]), moves[1..]);
      } else {
        assert !OneQueue(Next(t, moves[0]).sys.ws);
      }
    }
  }

  // ----- when the chain starts at the synced head --------------------------------------------

  /** The moves that unanchor the chain: the steps that do, and a save on a base that has moved. */
  ghost predicate MoveUnanchors(t: Site, m: Move) {
    match m
    case Meanwhile(e) => Unanchors(t.sys, e)
    case Enqueues(h, author, op) =>
      && h in t.scanners && t.scanners[h].stage.SawQueue?
      && Saved(t, h, author, op).Some? && Enqueue(t.sys.ws, Saved(t, h, author, op).value).Some?
      && !ReadTheBase(t.scanners[h].stage.seen, t.scanners[h].stage.queue, t.sys.ws)
    case _ => false
  }

  lemma MoveAnchorsIff(t: Site, m: Move)
    requires SiteOk(t) && Prompt(t, m) && Anchored(t.sys.ws)
    ensures Anchored(Next(t, m).sys.ws) <==> !MoveUnanchors(t, m)
  {
    match m {
      case Meanwhile(e) => StepAnchorsIff(t.sys, e);
      case Enqueues(h, author, op) =>
        if h in t.scanners && t.scanners[h].stage.SawQueue? {
          var stage := t.scanners[h].stage;
          if Saved(t, h, author, op).Some? && Enqueue(t.sys.ws, Saved(t, h, author, op).value).Some? {
            EnqueueExtendsChainIff(stage.tree, stage.seen, stage.queue, t.sys.ws, author, op);
          }
        }
      case _ =>
    }
  }

  ghost predicate AnchoredPlay(t: Site, moves: seq<Move>)
    decreases |moves|
  {
    Anchored(t.sys.ws) && (moves == [] || AnchoredPlay(Next(t, moves[0]), moves[1..]))
  }

  ghost predicate NoMoveUnanchors(t: Site, moves: seq<Move>)
    decreases |moves|
  {
    moves == [] || (!MoveUnanchors(t, moves[0]) && NoMoveUnanchors(Next(t, moves[0]), moves[1..]))
  }

  /** In the same interleavings the chain starts at the synced head all along exactly when no save
      diverges, no merge is queued, and every save that finds the queue empty was built on what
      is still the base. */
  lemma {:induction false} AnchoredPlayIff(t: Site, moves: seq<Move>)
    requires SiteOk(t) && PromptPlay(t, moves) && Anchored(t.sys.ws)
    ensures AnchoredPlay(t, moves) <==> NoMoveUnanchors(t, moves)
    decreases |moves|
  {
    if moves != [] {
      MoveKeeps(t, moves[0]);
      MoveAnchorsIff(t, moves[0]);
      if !MoveUnanchors(t, moves[0]) {
        AnchoredPlayIff(Next(t, moves[0]), moves[1..]);
      } else {
        assert !Anchored(Next(t, moves[0]).sys.ws);
      }
    }
  }

  // ----- why the conditions are needed ----------------------------------------------------

  lemma PlayFirst(t: Site, m: Move, rest: seq<Move>)
    ensures Play(t, [m] + rest) == Play(Next(t, m), rest)
  {
    assert ([m] + rest)[1..] == rest;
  }

  function StartRegistry(): Registry { Registry(7, Base(), 1, [Base()], {Base()}, map[], None) }

  /** A scan that has just read the row, with one save queued and another in the tree. */
  function RowRead(): Site {
    var ws := Workspace(1, Base(), SaveA().revision, 101, Waiting, [SaveA()], None);
    Site(0, Some(Lease(1, LEASE_MS)), map[1 := Scanner(LEASE_MS, SawState(102, ws))], System(ws, 102, StartRegistry()))
  }

  function UploadMoves(): seq<Move> {
    [Meanwhile(Asked(SaveA()))] + ([Meanwhile(Sent(SaveA(), true, 50))] + ([Meanwhile(Synced(SaveA()))] + []))
  }

  lemma OneSaveIsAChain(ws: Workspace)
    requires ws.records == [SaveA()] && ws.conflict.None? && ws.status == Waiting
    requires ws.localHead == SaveA().revision && ws.validRoot == 101
    ensures OneQueue(ws)
  {
    QueueAppend([], SaveA());
    assert [] + [SaveA()] == [SaveA()];
    assert Queue(ws.records) == [SaveA()];
    OneIsStraight(SaveA());
    hide Queue, Straight;
  }

  lemma OneIsStraight(rec: Record)
    ensures Straight([rec])
  {
  }

  lemma StartIsOk()
    ensures RegistryOk(StartRegistry())
  {
  }

  lemma RowReadOk()
    ensures SiteOk(RowRead())
  {
    hide OneQueue, RegistryOk, Current, SaveA, Base, StartRegistry;
    OneSaveIsAChain(RowRead().sys.ws);
    StartIsOk();
    FreshReadIsCurrent(RowRead().sys.ws, 102);
  }

  lemma RowReadUploaded()
    ensures var f := Play(RowRead(), UploadMoves());
            && f.scanners == RowRead().scanners && f.lease == RowRead().lease && f.now == 0
            && f.sys.ws
                == Workspace(2, SaveA().revision, SaveA().revision, 101, Clean, [SaveA().(queued := false)], None)
            && f.sys.reg.head == SaveA().revision && f.sys.reg.generation == 2 && f.sys.reg.conflict.None?
            && f.sys.reg.stored == {Base(), SaveA().revision}
  {
    var t := RowRead();
    var e1, e2, e3 := Asked(SaveA()), Sent(SaveA(), true, 50), Synced(SaveA());
    UploadAdvances(t.sys, SaveA(), 50);
    RunThree(t.sys, e1, e2, e3);
    PlayFirst(t, Meanwhile(e1), [Meanwhile(e2)] + ([Meanwhile(e3)] + []));
    PlayFirst(Next(t, Meanwhile(e1)), Meanwhile(e2), [Meanwhile(e3)] + []);
    PlayFirst(Next(Next(t, Meanwhile(e1)), Meanwhile(e2)), Meanwhile(e3), []);
    HoldsAt(t.sys.ws.records, 0);
    var records := Unqueue([SaveA()], 1);
    assert records == [SaveA().(queued := false)];
    QueueAppend([], SaveA().(queued := false));
    assert [] + [SaveA().(queued := false)] == records;
  }

  /** If an upload drains the queue between the two reads, the save is queued with the
      generation of the row that was read, and the registry refuses it as out of date,
      although no other device has written. */
  lemma UploadBetweenReadsIsRefused()
    ensures var t := Play(RowRead(), UploadMoves());
            var f := Next(Next(t, Advances(1)), Enqueues(1, 7, 2));
            && SiteOk(RowRead()) && Queue(f.sys.ws.records) != []
            && Admission(f.sys.reg, RequestOf(Queue(f.sys.ws.records)[0])) == Some(GenerationConflict)
  {
    hide SiteOk, Play, UploadMoves;
    RowReadOk();
    RowReadUploaded();
    var t := Play(RowRead(), UploadMoves());
    var a := SaveA().(queued := false);
    QueueAppend([], a);
    assert [] + [a] == [a];
    var rec := Record(2, Hashed(102, {SaveA().revision}, 7, 2), SaveA().revision, {SaveA().revision}, 1, 102, true);
    var t1 := Next(t, Advances(1));
    assert t1.scanners[1].stage == SawQueue(102, RowRead().sys.ws, []);
    assert Saved(t1, 1, 7, 2) == Some(rec);
    QueueAppend([a], rec);
    assert [a] + [rec] == [a, rec];
  }

  /** A scan that has read everything of a clean workspace whose tree has changed. */
  function AllRead(): Site {
    var ws := Workspace(1, Base(), Base(), 100, Clean, [], None);
    Site(0, Some(Lease(1, LEASE_MS)), map[1 := Scanner(LEASE_MS, SawQueue(101, ws, []))],
         System(ws, 101, StartRegistry()))
  }

  function Twin(op: OperationId): Record { Record(op, Hashed(101, {Base()}, 7, op), Base(), {Base()}, 1, 101, true) }

  /** The first scan outlived its lease; a second one is at the given stage. */
  function Overtaken(stage: Stage): Site {
    AllRead().(now := LEASE_MS, lease := Some(Lease(2, 2 * LEASE_MS)),
               scanners := AllRead().scanners[2 := Scanner(2 * LEASE_MS, stage)])
  }

  function OvertakingMoves(): seq<Move> {
    [Ticks(LEASE_MS)] + ([Claims(2)] + ([Advances(2)] + ([Advances(2)] + ([Advances(2)] + []))))
  }

  lemma SecondScanOvertakes()
    ensures Play(AllRead(), OvertakingMoves()) == Overtaken(SawQueue(101, AllRead().sys.ws, []))
  {
    var t1 := AllRead().(now := LEASE_MS);
    var t2, t3 := Overtaken(Claimed), Overtaken(Scanned(101));
    var t4 := Overtaken(SawState(101, AllRead().sys.ws));
    assert Next(t2, Advances(2)) == t3;
    assert Next(t3, Advances(2)) == t4;
    PlayFirst(AllRead(), Ticks(LEASE_MS), [Claims(2)] + ([Advances(2)] + ([Advances(2)] + ([Advances(2)] + []))));
    PlayFirst(t1, Claims(2), [Advances(2)] + ([Advances(2)] + ([Advances(2)] + [])));
    PlayFirst(t2, Advances(2), [Advances(2)] + ([Advances(2)] + []));
    PlayFirst(t3, Advances(2), [Advances(2)] + []);
    PlayFirst(t4, Advances(2), []);
  }

  lemma TwinEnqueues(ws: Workspace, op: OperationId)
    requires ws.records == [] || (op == 1 && ws.records == [Twin(2)])
    ensures Enqueue(ws, Twin(op)) == Some(ws.(records := ws.records + [Twin(op)], localHead := Twin(op).revision,
                                              validRoot := 101, status := Waiting))
  {
    var rec := Twin(op);
    assert |rec.parents| == 1 && rec.head in rec.parents && rec.(queued := true) == rec;
    assert Fresh(ws.records, rec.op, rec.revision);
  }

  lemma TwinsQueue()
    ensures Queue([Twin(2), Twin(1)]) == [Twin(2), Twin(1)]
  {
    assert [] + [Twin(2)] == [Twin(2)] && [Twin(2)] + [Twin(1)] == [Twin(2), Twin(1)];
    QueueAppend([], Twin(2));
    QueueAppend([Twin(2)], Twin(1));
  }

  lemma AllReadOk()
    ensures SiteOk(AllRead())
  {
    hide RegistryOk;
    StartIsOk();
    FreshReadIsCurrent(AllRead().sys.ws, 101);
  }

  lemma TwinsSaved(t: Site, h: Holder)
    requires h in {1, 2} && h in t.scanners && t.scanners[h].stage == SawQueue(101, AllRead().sys.ws, [])
    ensures Saved(t, h, 7, h) == Some(Twin(h))
  {
  }

  /** If a scan outlives its lease, the same tree is queued twice on the same parent. */
  lemma OutlivedLeaseForksTheChain()
    ensures var t := Play(AllRead(), OvertakingMoves());
            var f := Next(Next(t, Enqueues(2, 7, 2)), Enqueues(1, 7, 1)).sys.ws;
            SiteOk(AllRead()) && Queue(f.records) == [Twin(2), Twin(1)]
  {
    hide SiteOk, Play, Queue, Enqueue, Saved, Twin;
    AllReadOk();
    SecondScanOvertakes();
    var t := Overtaken(SawQueue(101, AllRead().sys.ws, []));
    TwinsSaved(t, 2);
    TwinEnqueues(t.sys.ws, 2);
    var t1 := Next(t, Enqueues(2, 7, 2));
    assert t1.scanners[1] == AllRead().scanners[1];
    assert t1.sys.ws.records == [] + [Twin(2)] == [Twin(2)];
    TwinsSaved(t1, 1);
    TwinEnqueues(t1.sys.ws, 1);
    assert [Twin(2)] + [Twin(1)] == [Twin(2), Twin(1)];
    TwinsQueue();
  }

  /** The merge of two heads, as a sync queues it. */
  function MergeOfTwo(): Record {
    Record(9, Hashed(103, {Base(), Foreign(1, 200)}, 7, 9), Base(), {Base(), Foreign(1, 200)}, 1, 103, true)
  }

  lemma MergeEnqueues()
    ensures var ws := AllRead().sys.ws;
            Enqueue(ws, MergeOfTwo()) == Some(ws.(records := [MergeOfTwo()], localHead := MergeOfTwo().revision,
                                                  validRoot := 103, status := Waiting))
  {
    var rec := MergeOfTwo();
    assert Base() != Foreign(1, 200);
    assert |rec.parents| == 2 && rec.head in rec.parents && rec.(queued := true) == rec;
    assert [] + [rec] == [rec];
  }

  lemma TwinAfterMerge(ws: Workspace)
    requires ws.records == [MergeOfTwo()]
    ensures Enqueue(ws, Twin(1)) == Some(ws.(records := [MergeOfTwo(), Twin(1)], localHead := Twin(1).revision,
                                             validRoot := 101, status := Waiting))
    ensures Queue([MergeOfTwo(), Twin(1)]) == [MergeOfTwo(), Twin(1)]
  {
    var rec := Twin(1);
    assert |rec.parents| == 1 && rec.head in rec.parents && rec.(queued := true) == rec;
    assert Fresh(ws.records, rec.op, rec.revision);
    assert [] + [MergeOfTwo()] == [MergeOfTwo()] && [MergeOfTwo()] + [rec] == [MergeOfTwo(), rec];
    QueueAppend([], MergeOfTwo());
    QueueAppend([MergeOfTwo()], rec);
  }

  /** If a merge is queued while a scan well within its lease has read the queue, the scan's save
      goes beside the merge instead of on top of it. */
  lemma MergeBesideScanForksTheChain()
    ensures var t := Next(AllRead(), Meanwhile(MergeQueued(MergeOfTwo())));
            var f := Next(t, Enqueues(1, 7, 1)).sys.ws;
            && SiteOk(AllRead()) && t.now < t.scanners[1].expires
            && Queue(f.records) == [MergeOfTwo(), Twin(1)] && !Straight(Queue(f.records))
  {
    hide SiteOk, Queue, Enqueue, Saved, Twin, Straight;
    AllReadOk();
    MergeEnqueues();
    var t := Next(AllRead(), Meanwhile(MergeQueued(MergeOfTwo())));
    TwinsSaved(t, 1);
    TwinAfterMerge(t.sys.ws);
    NotStraight();
  }

  lemma NotStraight()
    ensures !Straight([MergeOfTwo(), Twin(1)])
  {
    var q := [MergeOfTwo(), Twin(1)];
    assert q[1].head != q[1 - 1].revision;
  }
}
