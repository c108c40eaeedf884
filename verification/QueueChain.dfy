/** The shape of the upload queue over whole runs: when it is one chain, where the chain is
    anchored, and the runs in which it is not. */
module QueueChain {
  import opened Basics
  import opened WorkspaceModel

  /** Each queued revision has the one before it as its only parent and expects the next
      generation. */
  ghost predicate Straight(q: seq<Record>) {
    forall i :: 0 < i < |q| ==>
      q[i].head == q[i - 1].revision && q[i].parents == {q[i - 1].revision}
          && q[i].generation == q[i - 1].generation + 1
  }

  /** The chain starts at the synced head and base generation. */
  ghost predicate AtBase(ws: Workspace) {
    var q := Queue(ws.records);
    q != [] ==>
      q[0].head == ws.baseRevision && q[0].parents == {ws.baseRevision} && q[0].generation == ws.baseGeneration
  }

  /** The chain ends at the local head, whose tree is the last valid one. */
  ghost predicate EndsAtHead(ws: Workspace) {
    var q := Queue(ws.records);
    q != [] ==> q[|q| - 1].revision == ws.localHead && q[|q| - 1].root == ws.validRoot
  }

  /** The first queued revision stands on one that left this queue by divergence. */
  ghost predicate OnDetached(s: System) {
    var q := Queue(s.ws.records);
    exists i :: 0 <= i < |s.ws.records| && !s.ws.records[i].queued && LeftByDivergence(s, i)
             && q != [] && s.ws.records[i].revision == q[0].head
  }

  ghost predicate LocalHeadDetached(s: System) {
    exists i :: 0 <= i < |s.ws.records| && !s.ws.records[i].queued && LeftByDivergence(s, i)
             && s.ws.records[i].revision == s.ws.localHead
  }

  ghost predicate LeftByDivergence(s: System, i: nat)
    requires i < |s.ws.records|
  {
    var op := s.ws.records[i].op;
    op in s.reg.operations && s.reg.operations[op].outcome.Diverged?
  }

  /** An uploader takes revisions off the queue from the front, a rename is adopted only
      with nothing queued, and a merge of two heads is queued only with nothing else
      queued. */
  ghost predicate Orderly(s: System, e: Event) {
    var q := Queue(s.ws.records);
    match e
    case Synced(rec) => q != [] && rec == q[0]
    case Detached(rec) => q != [] && rec == q[0]
    case RenameAdopted(_, _, _) => q == []
    case MergeQueued(merge) => q == [] && |merge.parents| == 2
    case _ => true
  }

  ghost predicate OrderlyRun(s: System, events: seq<Event>)
    decreases |events|
  {
    events == [] || (Orderly(s, events[0]) && OrderlyRun(Step(s, events[0]), events[1..]))
  }

  /** The queue is one chain that ends at the local head, wherever it starts. */
  ghost predicate Linear(ws: Workspace) {
    && Straight(Queue(ws.records)) && EndsAtHead(ws)
    && (ws.status.Clean? ==> Queue(ws.records) == [])
    && (ws.conflict.Some? ==> |ws.conflict.value.conflict.heads| == 2)
  }

  ghost predicate InOrder(s: System) {
    RegistryOk(s.reg) && OperationsDistinct(s.ws.records) && Linear(s.ws)
  }

  /** What the next save stands on is the synced head: the chain starts there, or it is empty
      and the local head is the synced head. */
  ghost predicate Anchored(ws: Workspace) {
    AtBase(ws) && (Queue(ws.records) == [] ==> ws.localHead == ws.baseRevision)
  }

  /** The queue is one chain that ends at the local head. It starts at the synced head and
      base generation, unless its first entry is the merge of two heads or stands on a
      revision that left by divergence. */
  ghost predicate Chained(s: System) {
    && NothingLost(s) && Linear(s.ws)
    && (Anchored(s.ws) || OnDivergence(s))
  }

  ghost predicate OnDivergence(s: System) {
    var q := Queue(s.ws.records);
    if q == [] then LocalHeadDetached(s) else OnDetached(s) || |q[0].parents| == 2
  }

  lemma {:induction false} QueueMembers(records: seq<Record>, rec: Record)
    requires rec in Queue(records)
    ensures rec in records && rec.queued
    decreases |records|
  {
    var n := |records| - 1;
    if rec in Queue(records[..n]) {
      QueueMembers(records[..n], rec);
    }
  }

  lemma QueueAppend(records: seq<Record>, rec: Record)
    ensures Queue(records + [rec]) == Queue(records) + if rec.queued then [rec] else []
  {
    assert (records + [rec])[..|records|] == records;
  }

  lemma QueueOne(rec: Record)
    ensures Queue([rec]) == if rec.queued then [rec] else []
  {
    assert [rec][..0] == [];
  }

  lemma UnqueueOne(rec: Record)
    ensures Unqueue([rec], rec.op) == [rec.(queued := false)]
  {
  }

  lemma {:induction false} UnqueueAbsent(records: seq<Record>, op: OperationId)
    requires forall i :: 0 <= i < |records| ==> records[i].op != op
    ensures Queue(Unqueue(records, op)) == Queue(records)
    decreases |records|
  {
    if records != [] {
      var n := |records| - 1;
      UnqueueAbsent(records[..n], op);
      assert Unqueue(records, op)[..n] == Unqueue(records[..n], op);
    }
  }

  /** Taking one queued revision off leaves the others, in order. */
  lemma {:induction false} UnqueueAt(records: seq<Record>, k: nat)
    requires OperationsDistinct(records) && k < |Queue(records)|
    ensures var q := Queue(records); Queue(Unqueue(records, q[k].op)) == q[..k] + q[k + 1..]
    decreases |records|
  {
    var n := |records| - 1;
    var front := Queue(records[..n]);
    if k < |front| {
      UnqueueAt(records[..n], k);
      OthersOperation(records, front[k]);
      UnqueueBefore(records, front[k].op);
      assert Queue(records)[k] == front[k];
    } else {
      UnqueueBefore(records, records[n].op);
      UnqueueAbsent(records[..n], records[n].op);
    }
  }

  lemma OthersOperation(records: seq<Record>, rec: Record)
    requires OperationsDistinct(records) && records != [] && rec in Queue(records[..|records| - 1])
    ensures rec.op != records[|records| - 1].op
  {
    var n := |records| - 1;
    QueueMembers(records[..n], rec);
    var i :| 0 <= i < n && records[..n][i] == rec;
    assert records[i] == rec;
  }

  lemma UnqueueBefore(records: seq<Record>, op: OperationId)
    requires records != []
    ensures var n := |records| - 1;
            Queue(Unqueue(records, op)) ==
              Queue(Unqueue(records[..n], op)) + if records[n].queued && records[n].op != op then [records[n]] else []
  {
    var n := |records| - 1;
    assert Unqueue(records, op)[..n] == Unqueue(records[..n], op);
  }

  lemma UnqueueFirst(records: seq<Record>)
    requires OperationsDistinct(records) && Queue(records) != []
    ensures Queue(Unqueue(records, Queue(records)[0].op)) == Queue(records)[1..]
  {
    UnqueueAt(records, 0);
  }

  lemma DistinctSnoc(q: seq<Record>, rec: Record)
    requires OperationsDistinct(q)
    requires forall r :: r in q ==> r.op != rec.op && r.revision != rec.revision
    ensures OperationsDistinct(q + [rec])
  {
  }

  lemma DistinctFront(q: seq<Record>)
    requires OperationsDistinct(q) && q != []
    ensures OperationsDistinct(q[..|q| - 1])
    ensures forall r :: r in q[..|q| - 1] ==> r.op != q[|q| - 1].op && r.revision != q[|q| - 1].revision
  {
  }

  lemma {:induction false} QueueDistinct(records: seq<Record>)
    requires OperationsDistinct(records)
    ensures OperationsDistinct(Queue(records))
    decreases |records|
  {
    if records != [] {
      var n := |records| - 1;
      DistinctFront(records);
      QueueDistinct(records[..n]);
      forall r | r in Queue(records[..n]) ensures r in records[..n] {
        QueueMembers(records[..n], r);
      }
      DistinctSnoc(Queue(records[..n]), records[n]);
    }
  }

  lemma {:induction false} LatestIsLast(q: seq<Record>)
    requires q != [] && Straight(q)
    ensures Latest(q) == q[|q| - 1]
    decreases |q|
  {
    var n := |q| - 1;
    if n > 0 {
      forall i | 0 < i < n ensures q[..n][i].generation == q[..n][i - 1].generation + 1 {
      }
      LatestIsLast(q[..n]);
    }
  }

  /** Without its front entry a chain is a chain, and the next entry stands on that one. */
  lemma StraightTail(q: seq<Record>)
    requires q != [] && Straight(q)
    ensures Straight(q[1..])
    ensures if |q| == 1 then q[1..] == [] else
              && q[1..][0].head == q[0].revision && q[1..][0].parents == {q[0].revision}
              && q[1..][0].generation == q[0].generation + 1 && q[1..][|q| - 2] == q[|q| - 1]
  {
    forall i | 0 < i < |q[1..]|
      ensures var a, b := q[1..][i - 1], q[1..][i];
              b.head == a.revision && b.parents == {a.revision} && b.generation == a.generation + 1
    {
      assert q[1..][i] == q[i + 1] && q[1..][i - 1] == q[i];
    }
    if |q| > 1 {
      assert q[1..][0] == q[1];
    }
  }

  lemma DivergenceRemembered(s: System, rec: Record, revision: RevisionId)
    requires exists i :: 0 <= i < |s.ws.records| && !s.ws.records[i].queued && LeftByDivergence(s, i)
                      && s.ws.records[i].revision == revision
    ensures var after := s.(ws := s.ws.(records := s.ws.records + [rec]));
            exists i :: 0 <= i < |after.ws.records| && !after.ws.records[i].queued && LeftByDivergence(after, i)
                     && after.ws.records[i].revision == revision
  {
    var i :| 0 <= i < |s.ws.records| && !s.ws.records[i].queued && LeftByDivergence(s, i)
          && s.ws.records[i].revision == revision;
    var after := s.(ws := s.ws.(records := s.ws.records + [rec]));
    assert after.ws.records[i] == s.ws.records[i] && LeftByDivergence(after, i);
  }

  /** A new tail of a chain. */
  lemma AppendKeepsChain(s: System, rec: Record)
    requires Chained(s) && rec.queued && Enqueue(s.ws, rec).Some?
    requires NothingLost(s.(ws := Enqueue(s.ws, rec).value))
    requires var q := Queue(s.ws.records);
             if q == [] then
               || |rec.parents| == 2
               || (rec.head == s.ws.localHead && rec.parents == {rec.head} && rec.generation == s.ws.baseGeneration)
             else
               && rec.head == q[|q| - 1].revision && rec.parents == {rec.head}
               && rec.generation == q[|q| - 1].generation + 1
    ensures Chained(s.(ws := Enqueue(s.ws, rec).value))
  {
    var after := s.(ws := Enqueue(s.ws, rec).value);
    EnqueueKeepsLinear(s.ws, rec);
    EnqueuedAnchorsIff(s.ws, rec);
    if !Anchored(after.ws) { AppendOnDivergence(s, rec); }
    hide Linear, Anchored, OnDivergence, NothingLost, Enqueue, Queue;
  }

  lemma AppendOnDivergence(s: System, rec: Record)
    requires rec.queued && Enqueue(s.ws, rec).Some? && (Queue(s.ws.records) != [] ==> |rec.parents| == 1)
    requires |rec.parents| == 2 || OnDivergence(s)
    requires Queue(s.ws.records) == [] && |rec.parents| == 1 ==> rec.head == s.ws.localHead
    ensures OnDivergence(s.(ws := Enqueue(s.ws, rec).value))
  {
    var after := s.(ws := Enqueue(s.ws, rec).value);
    var q := Queue(s.ws.records);
    assert rec.(queued := true) == rec;
    QueueAppend(s.ws.records, rec);
    assert Queue(after.ws.records)[0] == if q == [] then rec else q[0];
    if q == [] && LocalHeadDetached(s) {
      DivergenceRemembered(s, rec, s.ws.localHead);
      assert |rec.parents| == 2 || OnDetached(after);
    }
    if q != [] && OnDetached(s) {
      DivergenceRemembered(s, rec, q[0].head);
      assert OnDetached(after);
    }
  }

  lemma StraightAppend(q: seq<Record>, rec: Record)
    requires Straight(q)
    requires q != [] ==>
               rec.head == q[|q| - 1].revision && rec.parents == {rec.head}
                   && rec.generation == q[|q| - 1].generation + 1
    ensures Straight(q + [rec])
  {
  }

  /** What a scan queues is the next link, or the merge of two heads. */
  lemma SaveIsNextLink(ws: Workspace, q: seq<Record>, tree: TreeId, author: AuthorId, op: OperationId)
    requires Straight(q) && SaveFrom(ws, q, tree, author, op).Some?
    requires ws.conflict.Some? ==> |ws.conflict.value.conflict.heads| == 2
    ensures var rec := SaveFrom(ws, q, tree, author, op).value;
            && rec.queued && rec.root == tree && tree != ws.validRoot
            && if q == [] then
                 || |rec.parents| == 2
                 || (rec.head == ws.localHead && rec.parents == {rec.head} && rec.generation == ws.baseGeneration)
               else
                 && rec.head == q[|q| - 1].revision && rec.parents == {rec.head}
                 && rec.generation == q[|q| - 1].generation + 1
  {
    if q != [] {
      LatestIsLast(q);
    }
  }

  /** A scan leaves everything alone, or settles a pause, or queues its save. */
  lemma CaptureOutcome(ws: Workspace, tree: TreeId, author: AuthorId, op: OperationId)
    ensures var after := Capture(ws, tree, author, op);
            || after == ws
            || after == Resume(ws)
            || (Save(ws, tree, author, op).Some? && Enqueue(ws, Save(ws, tree, author, op).value) == Some(after))
  {
  }

  lemma CaptureKeepsChain(s: System, author: AuthorId, op: OperationId)
    requires Chained(s) && NothingLost(Step(s, Captured(author, op)))
    ensures Chained(Step(s, Captured(author, op)))
  {
    var after := Step(s, Captured(author, op));
    assert after == s.(ws := Capture(s.ws, s.tree, author, op));
    CaptureOutcome(s.ws, s.tree, author, op);
    if after.ws == Resume(s.ws) {
      SameRecordsKeepChain(s, after.ws.status);
    } else if after.ws != s.ws {
      CapturedSaveKeepsChain(s, author, op);
    }
  }

  lemma CapturedSaveKeepsChain(s: System, author: AuthorId, op: OperationId)
    requires Chained(s) && Save(s.ws, s.tree, author, op).Some?
    requires Enqueue(s.ws, Save(s.ws, s.tree, author, op).value).Some?
    requires NothingLost(s.(ws := Enqueue(s.ws, Save(s.ws, s.tree, author, op).value).value))
    ensures Chained(s.(ws := Enqueue(s.ws, Save(s.ws, s.tree, author, op).value).value))
  {
    SaveIsNextLink(s.ws, Queue(s.ws.records), s.tree, author, op);
    AppendKeepsChain(s, Save(s.ws, s.tree, author, op).value);
  }

  lemma SameRecordsKeepChain(s: System, status: Status)
    requires Chained(s) && (status.Clean? ==> Queue(s.ws.records) == [])
    ensures Chained(s.(ws := s.ws.(status := status)))
  {
    AlikeKeepsChain(s, s.(ws := s.ws.(status := status)));
  }

  /** Status, conflict and tree do not touch the chain. */
  lemma AlikeKeepsChain(s: System, after: System)
    requires Chained(s) && after.reg == s.reg
    requires after.ws == s.ws.(status := after.ws.status, conflict := after.ws.conflict)
    requires after.ws.status.Clean? ==> Queue(s.ws.records) == []
    requires after.ws.conflict.Some? ==> |after.ws.conflict.value.conflict.heads| == 2
    ensures Chained(after)
  {
    assert NothingLost(after);
    DetachedAlike(s, after);
    SameAnchor(s.ws, after.ws);
    hide OnDetached, LocalHeadDetached, Straight, Queue, Anchored, NothingLost;
  }

  lemma MergeKeepsChain(s: System, merge: Record)
    requires Chained(s) && Orderly(s, MergeQueued(merge))
    ensures Chained(Step(s, MergeQueued(merge)))
  {
    StepLosesNothing(s, MergeQueued(merge));
    if Enqueue(s.ws, merge).Some? {
      EnqueueKeepsLinear(s.ws, merge);
      MergeStandsAlone(s, merge);
    }
    hide Enqueue, NothingLost, Linear, Anchored, OnDivergence;
  }

  lemma MergeStandsAlone(s: System, merge: Record)
    requires Queue(s.ws.records) == [] && |merge.parents| == 2 && Enqueue(s.ws, merge).Some?
    ensures OnDivergence(s.(ws := Enqueue(s.ws, merge).value))
  {
    QueueAppend(s.ws.records, merge.(queued := true));
  }

  /** The front entry leaves: what stays is a chain to the same local head. */
  lemma FrontLeaves(ws: Workspace, rec: Record)
    requires Linear(ws) && OperationsDistinct(ws.records)
    requires Queue(ws.records) != [] && rec == Queue(ws.records)[0]
    ensures var q, rest := Queue(ws.records), Queue(Unqueue(ws.records, rec.op));
            && rest == q[1..] && Straight(rest)
            && (if rest == [] then rec.revision == ws.localHead
                else
                  && rest[0].head == rec.revision && rest[0].parents == {rec.revision}
                  && rest[0].generation == rec.generation + 1 && rest[|rest| - 1] == q[|q| - 1])
    ensures Holds(ws.records, rec.op, rec.revision)
  {
    var q := Queue(ws.records);
    UnqueueFirst(ws.records);
    StraightTail(q);
    QueueMembers(ws.records, rec);
  }

  lemma SyncedKeepsChain(s: System, rec: Record)
    requires Chained(s) && Orderly(s, Synced(rec)) && NothingLost(Step(s, Synced(rec)))
    ensures Chained(Step(s, Synced(rec)))
  {
    if OutcomeOf(s.reg, rec).Some? && OutcomeOf(s.reg, rec).value.Advanced? {
      var generation := OutcomeOf(s.reg, rec).value.generation;
      assert generation == rec.generation + 1 by { assert OperationOk(s.reg, rec.op); }
      MarkedFront(s.ws, rec, generation);
      hide MarkSynced, OutcomeOf, NothingLost, Linear, Anchored, OnDivergence, Orderly;
    }
  }

  /** The entry that left by divergence is remembered as such. */
  lemma DetachedIsRemembered(s: System, rec: Record)
    requires rec in s.ws.records && OutcomeOf(s.reg, rec).Some? && OutcomeOf(s.reg, rec).value.Diverged?
    ensures var after := s.(ws := MarkDetached(s.ws, rec.op));
            && (rec.revision == s.ws.localHead ==> LocalHeadDetached(after))
            && (Queue(after.ws.records) != [] && rec.revision == Queue(after.ws.records)[0].head ==> OnDetached(after))
  {
    var after := s.(ws := MarkDetached(s.ws, rec.op));
    var k :| 0 <= k < |s.ws.records| && s.ws.records[k] == rec;
    assert !after.ws.records[k].queued && LeftByDivergence(after, k) && after.ws.records[k].revision == rec.revision;
  }

  lemma DetachedKeepsChain(s: System, rec: Record)
    requires Chained(s) && Orderly(s, Detached(rec)) && NothingLost(Step(s, Detached(rec)))
    ensures Chained(Step(s, Detached(rec)))
  {
    var after := s.(ws := MarkDetached(s.ws, rec.op));
    if Step(s, Detached(rec)) != s {
      assert Step(s, Detached(rec)) == after;
      FrontLeaves(s.ws, rec);
      DetachedFront(s.ws, rec);
      DetachedIsRemembered(s, rec);
    }
    hide Queue, MarkDetached, OutcomeOf, NothingLost, Linear, Anchored, OnDetached, LocalHeadDetached;
  }

  /** What left by divergence has left by divergence for good. */
  lemma DivergenceStays(s: System, reg: Registry, revision: RevisionId)
    requires Evolves(s.reg, reg)
    requires exists i :: 0 <= i < |s.ws.records| && !s.ws.records[i].queued && LeftByDivergence(s, i)
                      && s.ws.records[i].revision == revision
    ensures var after := s.(reg := reg);
            exists i :: 0 <= i < |after.ws.records| && !after.ws.records[i].queued && LeftByDivergence(after, i)
                     && after.ws.records[i].revision == revision
  {
    hide RegistryOk;
    var i :| 0 <= i < |s.ws.records| && !s.ws.records[i].queued && LeftByDivergence(s, i)
          && s.ws.records[i].revision == revision;
    var after := s.(reg := reg);
    assert LeftByDivergence(after, i) && after.ws.records[i] == s.ws.records[i];
  }

  lemma RegistryKeepsChain(s: System, reg: Registry)
    requires Chained(s) && Evolves(s.reg, reg) && NothingLost(s.(reg := reg))
    ensures Chained(s.(reg := reg))
  {
    var q := Queue(s.ws.records);
    if q != [] && OnDetached(s) {
      DivergenceStays(s, reg, q[0].head);
      assert OnDetached(s.(reg := reg));
    }
    if LocalHeadDetached(s) {
      DivergenceStays(s, reg, s.ws.localHead);
      assert LocalHeadDetached(s.(reg := reg));
    }
    hide Straight, NothingLost, Queue, Evolves;
  }

  /** A new baseline while nothing is queued. */
  lemma BaselineKeepsChain(s: System, next: Workspace)
    requires Chained(s) && Queue(s.ws.records) == [] && next.records == s.ws.records && next.conflict == s.ws.conflict
    requires next.localHead == next.baseRevision
    ensures Chained(s.(ws := next))
  {
  }

  lemma CleanIsDrained(s: System)
    requires Linear(s.ws) && s.ws.status.Clean?
    ensures Queue(s.ws.records) == []
  {
  }

  lemma ConflictKeepsChain(s: System, conflict: Option<ContentConflict>)
    requires Chained(s) && (conflict.Some? ==> |conflict.value.conflict.heads| == 2)
    ensures Chained(s.(ws := s.ws.(conflict := conflict)))
  {
    AlikeKeepsChain(s, s.(ws := s.ws.(conflict := conflict)));
  }

  /** Divergence is read off the records, the heads and the registry alone. */
  lemma DetachedAlike(s: System, after: System)
    requires after.ws.records == s.ws.records && after.reg == s.reg && after.ws.localHead == s.ws.localHead
    ensures OnDetached(after) == OnDetached(s) && LocalHeadDetached(after) == LocalHeadDetached(s)
  {
    forall i | 0 <= i < |s.ws.records| ensures LeftByDivergence(s, i) == LeftByDivergence(after, i) {
    }
  }

  lemma TreeKeepsChain(s: System, tree: TreeId)
    requires Chained(s)
    ensures Chained(s.(tree := tree))
  {
    AlikeKeepsChain(s, s.(tree := tree));
  }

  lemma StepKeepsChain(s: System, e: Event)
    requires Chained(s) && Orderly(s, e)
    ensures Chained(Step(s, e))
  {
    hide Chained, NothingLost;
    assert NothingLost(s) by { ChainedLosesNothing(s); }
    StepLosesNothing(s, e);
    match e {
      case Captured(author, op) => CaptureKeepsChain(s, author, op);
      case MergeQueued(merge) => MergeKeepsChain(s, merge);
      case Synced(rec) => SyncedKeepsChain(s, rec);
      case Detached(rec) => DetachedKeepsChain(s, rec);
      case Asked(rec) => RegistryKeepsChain(s, Step(s, e).reg);
      case Sent(rec, quota, newId) => RegistryKeepsChain(s, Step(s, e).reg);
      case OthersActed(reg) => if Evolves(s.reg, reg) { RegistryKeepsChain(s, reg); }
      case Edited(tree) => TreeKeepsChain(s, tree);
      case Replaced(root) => TreeKeepsChain(s, root);
      case ConflictSaved(saved) => if |saved.conflict.heads| == 2 { ConflictKeepsChain(s, Some(saved)); }
      case ConflictCleared => ConflictKeepsChain(s, None);
      case Paused(status) => StatusKeepsChain(s, Step(s, e).ws.status);
      case Resumed => StatusKeepsChain(s, Step(s, e).ws.status);
      case BaselineAdvanced(generation, revision, root) =>
        if s.ws.status.Clean? {
          assert Linear(s.ws) by { ChainedInOrder(s); }
          CleanIsDrained(s);
          BaselineKeepsChain(s, Step(s, e).ws);
        }
      case RenameAdopted(generation, revision, root) => BaselineKeepsChain(s, Step(s, e).ws);
    }
  }

  lemma ChainedLosesNothing(s: System)
    requires Chained(s)
    ensures NothingLost(s)
  {
  }

  lemma ChainedInOrder(s: System)
    requires Chained(s)
    ensures InOrder(s) && Linear(s.ws)
  {
  }

  lemma OrderIsLinear(s: System)
    requires InOrder(s)
    ensures Linear(s.ws)
  {
  }

  lemma EnqueueKeepsOrder(s: System, rec: Record)
    requires InOrder(s) && Enqueue(s.ws, rec).Some?
    requires var q := Queue(s.ws.records);
             q != [] ==> rec.head == q[|q| - 1].revision && rec.parents == {rec.head}
                         && rec.generation == q[|q| - 1].generation + 1
    ensures InOrder(s.(ws := Enqueue(s.ws, rec).value))
  {
    EnqueueKeepsDistinct(s.ws, rec);
    EnqueueKeepsLinear(s.ws, rec);
    hide Enqueue, RegistryOk, OperationsDistinct, Linear;
  }

  lemma EnqueueKeepsLinear(ws: Workspace, rec: Record)
    requires Linear(ws) && Enqueue(ws, rec).Some?
    requires var q := Queue(ws.records);
             q != [] ==> rec.head == q[|q| - 1].revision && rec.parents == {rec.head}
                         && rec.generation == q[|q| - 1].generation + 1
    ensures Linear(Enqueue(ws, rec).value)
  {
    var after, next := Enqueue(ws, rec).value, rec.(queued := true);
    assert after == Appended(ws, next);
    hide Enqueue, Queue;
    AppendKeepsLinear(ws, next);
  }

  function Appended(ws: Workspace, rec: Record): Workspace {
    ws.(records := ws.records + [rec], localHead := rec.revision, validRoot := rec.root, status := Waiting)
  }

  lemma AppendKeepsLinear(ws: Workspace, rec: Record)
    requires Linear(ws) && rec.queued
    requires var q := Queue(ws.records);
             q != [] ==> rec.head == q[|q| - 1].revision && rec.parents == {rec.head}
                         && rec.generation == q[|q| - 1].generation + 1
    ensures Linear(Appended(ws, rec))
  {
    QueueAppend(ws.records, rec);
    StraightAppend(Queue(ws.records), rec);
    hide Queue, Straight;
  }

  lemma EnqueueKeepsDistinct(ws: Workspace, rec: Record)
    requires OperationsDistinct(ws.records) && Enqueue(ws, rec).Some?
    ensures OperationsDistinct(Enqueue(ws, rec).value.records)
  {
  }

  lemma UnqueueKeepsDistinct(records: seq<Record>, op: OperationId)
    requires OperationsDistinct(records)
    ensures OperationsDistinct(Unqueue(records, op))
  {
  }

  lemma CaptureKeepsOrder(s: System, author: AuthorId, op: OperationId)
    requires InOrder(s)
    ensures InOrder(Step(s, Captured(author, op)))
  {
    var save := Save(s.ws, s.tree, author, op);
    CaptureOutcome(s.ws, s.tree, author, op);
    if save.Some? && Enqueue(s.ws, save.value).Some? {
      SaveIsNextLink(s.ws, Queue(s.ws.records), s.tree, author, op);
      EnqueueKeepsOrder(s, save.value);
    }
  }

  /** What is left when the front has been marked synced: a chain from the new synced head. */
  lemma MarkedFront(ws: Workspace, rec: Record, generation: nat)
    requires Linear(ws) && OperationsDistinct(ws.records) && Queue(ws.records) != [] && rec == Queue(ws.records)[0]
    ensures var after := MarkSynced(ws, rec.op, generation, rec.revision);
            Linear(after) && OperationsDistinct(after.records) && (generation == rec.generation + 1 ==> Anchored(after))
  {
    FrontLeaves(ws, rec);
    UnqueueKeepsDistinct(ws.records, rec.op);
    var after := MarkSynced(ws, rec.op, generation, rec.revision);
    assert after == ws.(records := after.records, baseGeneration := generation, baseRevision := rec.revision,
                        status := after.status);
    assert after.records == Unqueue(ws.records, rec.op) && (after.status.Clean? ==> Queue(after.records) == []);
    hide Queue, Unqueue, MarkSynced, OperationsDistinct, Straight;
  }

  lemma DetachedFront(ws: Workspace, rec: Record)
    requires Linear(ws) && OperationsDistinct(ws.records) && Queue(ws.records) != [] && rec == Queue(ws.records)[0]
    ensures var after := MarkDetached(ws, rec.op); Linear(after) && OperationsDistinct(after.records)
  {
    FrontLeaves(ws, rec);
    UnqueueKeepsDistinct(ws.records, rec.op);
    hide Queue, Unqueue, OperationsDistinct, Straight;
  }

  lemma FrontKeepsOrder(s: System, e: Event)
    requires InOrder(s) && Orderly(s, e) && (e.Synced? || e.Detached?)
    ensures InOrder(Step(s, e))
  {
    var rec := e.rec;
    DetachedFront(s.ws, rec);
    if OutcomeOf(s.reg, rec).Some? && OutcomeOf(s.reg, rec).value.Advanced? {
      MarkedFront(s.ws, rec, OutcomeOf(s.reg, rec).value.generation);
    }
    hide Queue, MarkSynced, MarkDetached, OutcomeOf, RegistryOk, OperationsDistinct, Linear;
  }

  /** Every orderly step keeps the queue in order, whatever has become of its start. */
  lemma StepKeepsOrder(s: System, e: Event)
    requires InOrder(s) && Orderly(s, e)
    ensures InOrder(Step(s, e))
  {
    hide InOrder, Queue, MarkSynced, Enqueue, Capture;
    match e {
      case Captured(author, op) => CaptureKeepsOrder(s, author, op);
      case Synced(_) => FrontKeepsOrder(s, e);
      case Detached(_) => FrontKeepsOrder(s, e);
      case MergeQueued(merge) => if Enqueue(s.ws, merge).Some? { EnqueueKeepsOrder(s, merge); }
      case _ => SettingKeepsOrder(s, e);
    }
  }

  lemma SettingKeepsOrder(s: System, e: Event)
    requires InOrder(s) && Orderly(s, e)
    requires !e.Captured? && !e.Synced? && !e.Detached? && !e.MergeQueued?
    ensures InOrder(Step(s, e)) && Step(s, e).ws.records == s.ws.records
  {
    StepKeepsRegistry(s, e);
    hide Queue, RegistryOk, OperationsDistinct, Straight, Prepare, Commit;
  }

  /** A status that is not newly clean over a queue. */
  lemma StatusKeepsChain(s: System, status: Status)
    requires Chained(s) && (status.Clean? ==> s.ws.status.Clean? || Queue(s.ws.records) == [])
    ensures Chained(s.(ws := s.ws.(status := status)))
  {
    SameRecordsKeepChain(s, status);
  }

  /** The chain invariant, over every run in which one uploader at a time works the front of
      the queue and renames wait for it to drain. */
  lemma {:induction false} QueueStaysChained(s: System, events: seq<Event>)
    requires Chained(s) && OrderlyRun(s, events)
    ensures Chained(Run(s, events))
    decreases |events|
  {
    if events != [] {
      StepKeepsChain(s, events[0]);
      QueueStaysChained(Step(s, events[0]), events[1..]);
    }
  }

  // ----- where the chain starts -----------------------------------------------------------------

  /** The steps that put something else than the synced head under the next save: taking a
      diverged save off the queue, and queueing a revision of two parents. */
  ghost predicate Unanchors(s: System, e: Event) {
    match e
    case Detached(rec) =>
      OutcomeOf(s.reg, rec).Some? && OutcomeOf(s.reg, rec).value.Diverged? && rec in s.ws.records
    case MergeQueued(merge) => Enqueue(s.ws, merge).Some?
    case Captured(author, op) => SavesMerge(s, author, op)
    case _ => false
  }

  ghost predicate SavesMerge(s: System, author: AuthorId, op: OperationId) {
    var save := Save(s.ws, s.tree, author, op);
    save.Some? && |save.value.parents| == 2 && Enqueue(s.ws, save.value).Some?
  }

  /** The steps that put the synced head back: marking the front synced, and a new baseline over
      an empty queue. Taking a front off that is itself the synced head would do so as well. */
  ghost predicate Reanchors(s: System, e: Event) {
    match e
    case Synced(rec) => OutcomeOf(s.reg, rec).Some? && OutcomeOf(s.reg, rec).value.Advanced?
    case BaselineAdvanced(_, _, _) => s.ws.status.Clean?
    case RenameAdopted(_, _, _) => true
    case Detached(rec) => Unanchors(s, e) && rec.revision == s.ws.baseRevision && NextAtBase(s.ws)
    case _ => false
  }

  ghost predicate NextAtBase(ws: Workspace) {
    var q := Queue(ws.records);
    |q| > 1 ==> q[1].generation == ws.baseGeneration
  }

  lemma SyncedAnchors(s: System, rec: Record)
    requires InOrder(s) && Orderly(s, Synced(rec)) && Reanchors(s, Synced(rec))
    ensures Anchored(Step(s, Synced(rec)).ws)
  {
    var generation := OutcomeOf(s.reg, rec).value.generation;
    assert generation == rec.generation + 1 by { assert OperationOk(s.reg, rec.op); }
    MarkedFront(s.ws, rec, generation);
    hide Queue, MarkSynced, OutcomeOf, RegistryOk, OperationsDistinct, Linear, Anchored;
  }

  /** A revision that the registry has computed is none of its parents. */
  lemma NotItsOwnParent(reg: Registry, rec: Record, parent: RevisionId)
    requires RegistryOk(reg) && OutcomeOf(reg, rec).Some? && parent in rec.parents
    ensures rec.revision != parent
  {
    assert OperationOk(reg, rec.op);
    assert parent in rec.revision.parents;
  }

  /** After a divergence the next save stands on the diverged one. */
  lemma DetachedAnchorsIff(s: System, rec: Record)
    requires InOrder(s) && Orderly(s, Detached(rec)) && Unanchors(s, Detached(rec))
    ensures Anchored(Step(s, Detached(rec)).ws) <==> rec.revision == s.ws.baseRevision && NextAtBase(s.ws)
    ensures Anchored(s.ws) ==> rec.revision != s.ws.baseRevision
  {
    if Anchored(s.ws) { NotItsOwnParent(s.reg, rec, s.ws.baseRevision); }
    hide *;
    FrontAnchorsIff(s.ws, rec);
    assert Step(s, Detached(rec)).ws == MarkDetached(s.ws, rec.op);
  }

  lemma FrontAnchorsIff(ws: Workspace, rec: Record)
    requires Linear(ws) && OperationsDistinct(ws.records) && Queue(ws.records) != [] && rec == Queue(ws.records)[0]
    ensures Anchored(MarkDetached(ws, rec.op)) <==> rec.revision == ws.baseRevision && NextAtBase(ws)
  {
    FrontLeaves(ws, rec);
    var q := Queue(ws.records);
    hide Queue, Unqueue, Linear, OperationsDistinct;
    assert |q| > 1 ==> q[1..][0] == q[1];
  }

  lemma EnqueuedAnchorsIff(ws: Workspace, rec: Record)
    requires rec.queued && Enqueue(ws, rec).Some?
    requires Queue(ws.records) == [] ==>
               |rec.parents| == 2
               || (rec.head == ws.localHead && rec.parents == {rec.head} && rec.generation == ws.baseGeneration)
    requires Queue(ws.records) != [] ==> |rec.parents| == 1
    ensures Anchored(Enqueue(ws, rec).value) <==> Anchored(ws) && |rec.parents| == 1
  {
    assert rec.(queued := true) == rec;
    QueueAppend(ws.records, rec);
    var after := Enqueue(ws, rec).value;
    assert after
        == ws.(records := ws.records + [rec], localHead := rec.revision, validRoot := rec.root, status := Waiting);
    hide Queue, Enqueue;
    assert Queue(after.records)[0] == if Queue(ws.records) == [] then rec else Queue(ws.records)[0];
  }

  lemma CapturedAnchorsIff(s: System, author: AuthorId, op: OperationId)
    requires InOrder(s)
    ensures Anchored(Step(s, Captured(author, op)).ws) <==> Anchored(s.ws) && !SavesMerge(s, author, op)
  {
    var save := Save(s.ws, s.tree, author, op);
    CaptureOutcome(s.ws, s.tree, author, op);
    if save.Some? && Enqueue(s.ws, save.value).Some? {
      SaveIsNextLink(s.ws, Queue(s.ws.records), s.tree, author, op);
      EnqueuedAnchorsIff(s.ws, save.value);
    }
  }

  /** One step of an orderly run, exactly: a chain from the synced head stays one unless the step
      unanchors it, and any other becomes one only by a step that puts the head back. */
  lemma StepAnchorsIff(s: System, e: Event)
    requires InOrder(s) && Orderly(s, e)
    ensures Anchored(Step(s, e).ws) <==> if Anchored(s.ws) then !Unanchors(s, e) else Reanchors(s, e)
  {
    hide InOrder, Anchored, Queue, MarkSynced, Enqueue, Capture, SavesMerge;
    match e {
      case Synced(rec) => if Reanchors(s, e) { SyncedAnchors(s, rec); }
      case Detached(rec) => if Unanchors(s, e) { DetachedAnchorsIff(s, rec); }
      case Captured(author, op) => CapturedAnchorsIff(s, author, op);
      case MergeQueued(merge) => if Enqueue(s.ws, merge).Some? { MergeUnanchors(s, merge); }
      case BaselineAdvanced(_, _, _) =>
        if s.ws.status.Clean? {
          assert Linear(s.ws) by { OrderIsLinear(s); }
          CleanIsDrained(s);
          BaselineAnchors(Step(s, e).ws);
        }
      case RenameAdopted(_, _, _) => BaselineAnchors(Step(s, e).ws);
      case _ => SameAnchor(s.ws, Step(s, e).ws);
    }
  }

  lemma BaselineAnchors(ws: Workspace)
    requires Queue(ws.records) == [] && ws.localHead == ws.baseRevision
    ensures Anchored(ws)
  {
  }

  lemma SameAnchor(a: Workspace, b: Workspace)
    requires a.records == b.records && a.localHead == b.localHead
    requires a.baseRevision == b.baseRevision && a.baseGeneration == b.baseGeneration
    ensures Anchored(a) == Anchored(b)
  {
  }

  lemma MergeUnanchors(s: System, merge: Record)
    requires Orderly(s, MergeQueued(merge)) && Enqueue(s.ws, merge).Some?
    ensures !Anchored(Enqueue(s.ws, merge).value)
  {
    QueueAppend(s.ws.records, merge.(queued := true));
  }

  ghost predicate AnchoredThroughout(s: System, events: seq<Event>)
    decreases |events|
  {
    Anchored(s.ws) && (events == [] || AnchoredThroughout(Step(s, events[0]), events[1..]))
  }

  ghost predicate NeverUnanchors(s: System, events: seq<Event>)
    decreases |events|
  {
    events == [] || (!Unanchors(s, events[0]) && NeverUnanchors(Step(s, events[0]), events[1..]))
  }

  /** Over a whole run, exactly: the chain starts at the synced head and base generation all
      along if and only if no save is taken off after a divergence and no merge is queued. */
  lemma {:induction false} AnchoredThroughoutIff(s: System, events: seq<Event>)
    requires InOrder(s) && Anchored(s.ws) && OrderlyRun(s, events)
    ensures AnchoredThroughout(s, events) <==> NeverUnanchors(s, events)
    decreases |events|
  {
    if events != [] {
      StepKeepsOrder(s, events[0]);
      StepAnchorsIff(s, events[0]);
      if !Unanchors(s, events[0]) {
        AnchoredThroughoutIff(Step(s, events[0]), events[1..]);
      } else {
        assert !Anchored(Step(s, events[0]).ws);
      }
    }
  }

  // ----- which marks keep the chain -----------------------------------------------------------------

  /** The row of this save is in the table, as an uploader once read it. */
  ghost predicate Recorded(records: seq<Record>, rec: Record) {
    exists i :: 0 <= i < |records| && records[i].(queued := rec.queued) == rec
  }

  ghost predicate InQueue(ws: Workspace, op: OperationId) {
    exists k :: 0 <= k < |Queue(ws.records)| && Queue(ws.records)[k].op == op
  }

  ghost predicate AtFront(ws: Workspace, op: OperationId) {
    Queue(ws.records) != [] && Queue(ws.records)[0].op == op
  }

  /** The save the rest of the chain stands on: the one marked last. */
  ghost predicate MarkedLast(ws: Workspace, rec: Record, generation: nat) {
    var q := Queue(ws.records);
    if q == [] then ws.localHead == rec.revision
    else q[0].head == rec.revision && q[0].parents == {rec.revision} && q[0].generation == generation
  }

  lemma RecordedInQueue(records: seq<Record>, rec: Record, k: nat)
    requires OperationsDistinct(records) && Recorded(records, rec)
    requires k < |Queue(records)| && Queue(records)[k].op == rec.op
    ensures Queue(records)[k].(queued := rec.queued) == rec
  {
    var i :| 0 <= i < |records| && records[i].(queued := rec.queued) == rec;
    QueueMembers(records, Queue(records)[k]);
    var j :| 0 <= j < |records| && records[j] == Queue(records)[k];
    assert records[i].op == records[j].op;
  }

  /** Taking a save out of the middle or off the end breaks the chain. */
  lemma MiddleLeaves(ws: Workspace, k: nat)
    requires Linear(ws) && OperationsDistinct(ws.records) && 0 < k < |Queue(ws.records)|
    ensures var after := ws.(records := Unqueue(ws.records, Queue(ws.records)[k].op));
            Queue(after.records) != [] && !(Straight(Queue(after.records)) && EndsAtHead(after))
  {
    var q := Queue(ws.records);
    UnqueueAt(ws.records, k);
    QueueDistinct(ws.records);
    hide Queue, Unqueue;
    var rest := q[..k] + q[k + 1..];
    assert rest[k - 1] == q[k - 1];
    if k < |q| - 1 {
      assert rest[k] == q[k + 1] && q[k + 1].head == q[k].revision;
    }
  }

  lemma MiddleMarkBreaks(s: System, rec: Record, generation: nat, k: nat)
    requires Chained(s) && OutcomeOf(s.reg, rec) == Some(Advanced(generation)) && Recorded(s.ws.records, rec)
    requires 0 < k < |Queue(s.ws.records)| && Queue(s.ws.records)[k].op == rec.op
    ensures !Chained(Step(s, Synced(rec)))
  {
    var after := Step(s, Synced(rec)).ws;
    HoldsRecorded(s.ws.records, rec);
    MiddleLeaves(s.ws, k);
    hide Queue, OutcomeOf, Straight, OperationsDistinct;
    assert after.records == Unqueue(s.ws.records, rec.op) && after.localHead == s.ws.localHead;
  }

  lemma HoldsRecorded(records: seq<Record>, rec: Record)
    requires Recorded(records, rec)
    ensures Holds(records, rec.op, rec.revision)
  {
  }

  lemma FrontMarkKeeps(s: System, rec: Record)
    requires Chained(s) && OutcomeOf(s.reg, rec).Some? && OutcomeOf(s.reg, rec).value.Advanced?
    requires Recorded(s.ws.records, rec) && AtFront(s.ws, rec.op)
    ensures Chained(Step(s, Synced(rec))) && Anchored(Step(s, Synced(rec)).ws)
  {
    var q := Queue(s.ws.records);
    RecordedInQueue(s.ws.records, rec, 0);
    assert RequestOf(rec) == RequestOf(q[0]);
    StepLosesNothing(s, Synced(q[0]));
    SyncedKeepsChain(s, q[0]);
    hide Chained, Queue;
    assert OutcomeOf(s.reg, rec) == OutcomeOf(s.reg, q[0]);
    SyncedAnchors(s, q[0]);
    assert Step(s, Synced(rec)) == Step(s, Synced(q[0]));
  }

  /** A mark of a save that has already left the queue moves only the base. */
  lemma OldMarkMovesBase(s: System, rec: Record, generation: nat)
    requires NothingLost(s) && OutcomeOf(s.reg, rec) == Some(Advanced(generation))
    requires Recorded(s.ws.records, rec) && !InQueue(s.ws, rec.op)
    ensures var after := Step(s, Synced(rec)).ws;
            && after.records == s.ws.records
            && after == s.ws.(baseGeneration := generation, baseRevision := rec.revision,
                              status := if Queue(s.ws.records) == [] then Clean else s.ws.status)
  {
    HoldsRecorded(s.ws.records, rec);
    var i :| 0 <= i < |s.ws.records| && s.ws.records[i].(queued := rec.queued) == rec;
    QueueHas(s.ws.records, i);
    assert !s.ws.records[i].queued;
    hide Queue;
    assert Unqueue(s.ws.records, rec.op) == s.ws.records;
  }

  lemma OldMarkKeepsIff(s: System, rec: Record, generation: nat)
    requires Chained(s) && OutcomeOf(s.reg, rec) == Some(Advanced(generation))
    requires Recorded(s.ws.records, rec) && !InQueue(s.ws, rec.op)
    ensures Anchored(Step(s, Synced(rec)).ws) <==> MarkedLast(s.ws, rec, generation)
    ensures Chained(Step(s, Synced(rec))) <==> MarkedLast(s.ws, rec, generation) || OnDivergence(s)
  {
    OldMarkMovesBase(s, rec, generation);
    StepLosesNothing(s, Synced(rec));
    DetachedAlike(s, Step(s, Synced(rec)));
    hide Queue, Recorded, InQueue, OutcomeOf, NothingLost, OnDetached, LocalHeadDetached, Straight;
  }

  /** With any number of uploaders, exactly which marks keep the chain: that of the front of the
      queue, or a repeat of the last one; and where the queue stands on a diverged save or a
      merge, any old one. Only the first two leave it standing on the synced head. */
  lemma MarkKeepsChainIff(s: System, rec: Record, generation: nat)
    requires Chained(s) && OutcomeOf(s.reg, rec) == Some(Advanced(generation)) && Recorded(s.ws.records, rec)
    ensures var after := Step(s, Synced(rec));
            && (Chained(after) <==>
                  AtFront(s.ws, rec.op)
                  || (!InQueue(s.ws, rec.op) && (MarkedLast(s.ws, rec, generation) || OnDivergence(s))))
            && (Chained(after) && Anchored(after.ws) <==>
                  AtFront(s.ws, rec.op) || (!InQueue(s.ws, rec.op) && MarkedLast(s.ws, rec, generation)))
  {
    if InQueue(s.ws, rec.op) {
      var k :| 0 <= k < |Queue(s.ws.records)| && Queue(s.ws.records)[k].op == rec.op;
      if k == 0 {
        FrontMarkKeeps(s, rec);
      } else {
        MiddleMarkBreaks(s, rec, generation, k);
        FrontIsOther(s.ws, k);
      }
    } else {
      OldMarkKeepsIff(s, rec, generation);
      hide Chained, Anchored, MarkedLast, OnDivergence;
      assert AtFront(s.ws, rec.op) ==> InQueue(s.ws, rec.op);
    }
  }

  lemma FrontIsOther(ws: Workspace, k: nat)
    requires OperationsDistinct(ws.records) && 0 < k < |Queue(ws.records)|
    ensures !AtFront(ws, Queue(ws.records)[k].op)
  {
    QueueDistinct(ws.records);
  }

  /** Queue order is generation order, so the queue query lists the chain from its start. */
  lemma {:induction false} ChainIsOrdered(q: seq<Record>, i: nat, j: nat)
    requires Straight(q) && i < j < |q|
    ensures q[j].generation == q[i].generation + (j - i)
  {
    if i + 1 < j {
      ChainIsOrdered(q, i, j - 1);
    }
  }

  // ----- the runs that break it -------------------------------------------------------------

  function Base(): RevisionId { Foreign(0, 100) }

  function SaveA(): Record { Record(1, Hashed(101, {Base()}, 7, 1), Base(), {Base()}, 1, 101, true) }

  function SaveB(): Record {
    Record(2, Hashed(102, {SaveA().revision}, 7, 2), SaveA().revision, {SaveA().revision}, 2, 102, true)
  }

  /** Two saves made offline on top of the synced head. */
  function TwoSaves(reg: Registry): System {
    System(Workspace(1, Base(), SaveB().revision, 102, Waiting, [SaveA(), SaveB()], None), 102, reg)
  }

  lemma TwoSavesQueue()
    ensures Queue([SaveA(), SaveB()]) == [SaveA(), SaveB()]
    ensures Queue([SaveA().(queued := false), SaveB()]) == [SaveB()]
    ensures Queue([SaveA().(queued := false), SaveB().(queued := false)]) == []
  {
    QueueAppend([], SaveA());
    QueueAppend([SaveA()], SaveB());
    assert [SaveA()] + [SaveB()] == [SaveA(), SaveB()];
    assert [] + [SaveA()] == [SaveA()];
    var a := SaveA().(queued := false);
    QueueAppend([], a);
    QueueAppend([a], SaveB());
    QueueAppend([a], SaveB().(queued := false));
    assert [a] + [SaveB()] == [a, SaveB()];
    assert [] + [a] == [a];
    assert [a] + [SaveB().(queued := false)] == [a, SaveB().(queued := false)];
  }

  lemma RunThree(s: System, a: Event, b: Event, c: Event)
    ensures Run(s, [a, b, c]) == Step(Step(Step(s, a), b), c)
  {
    assert [a, b, c] == [a] + ([b] + [c]);
    RunAppend(s, [a], [b] + [c]);
    RunOne(s, a);
    RunAppend(Step(s, a), [b], [c]);
    RunOne(Step(s, a), b);
    RunOne(Step(Step(s, a), b), c);
  }

  /** A queued save whose head and generation are the registry's uploads in three steps. */
  lemma UploadAdvances(s: System, rec: Record, newId: OperationId)
    requires s.reg.conflict.None? && s.reg.head == rec.head && s.reg.generation == rec.generation
    requires rec.op !in s.reg.operations && rec.parents == {rec.head}
    requires rec.revision == Hashed(rec.root, rec.parents, s.reg.author, rec.op)
    ensures var f := Run(s, [Asked(rec), Sent(rec, true, newId), Synced(rec)]);
            var operation := Operation(RequestOf(rec), rec.revision, Advanced(rec.generation + 1));
            && f.reg == s.reg.(head := rec.revision, generation := rec.generation + 1,
                               chain := s.reg.chain + [rec.revision], stored := s.reg.stored + {rec.revision},
                               operations := s.reg.operations[rec.op := operation])
            && f.ws == MarkSynced(s.ws, rec.op, rec.generation + 1, rec.revision) && f.tree == s.tree
  {
    var e1, e2, e3 := Asked(rec), Sent(rec, true, newId), Synced(rec);
    assert |rec.parents| == 1;
    var s1 := Step(s, e1);
    assert s1.reg.operations == s.reg.operations[rec.op := Operation(RequestOf(rec), rec.revision, Prepared)];
    var s2 := Step(s1, e2);
    assert OutcomeOf(s2.reg, rec) == Some(Advanced(rec.generation + 1));
    assert s2.reg.operations
        == s.reg.operations[rec.op := Operation(RequestOf(rec), rec.revision, Advanced(rec.generation + 1))];
    RunThree(s, e1, e2, e3);
  }

  /** One whose head another device has moved past is stored detached. */
  lemma UploadDiverges(s: System, rec: Record, newId: OperationId)
    requires s.reg.conflict.None? && s.reg.head != rec.head && rec.head in s.reg.stored
    requires rec.op !in s.reg.operations && rec.parents == {rec.head} && rec in s.ws.records
    requires rec.revision == Hashed(rec.root, rec.parents, s.reg.author, rec.op)
    ensures var f := Run(s, [Asked(rec), Sent(rec, true, newId), Detached(rec)]);
            && rec.revision in f.reg.stored && f.reg.head == s.reg.head && f.reg.conflict.Some?
            && f.reg.conflict.value.heads == {rec.revision, s.reg.head}
            && (s.reg.head != rec.revision ==> |f.reg.conflict.value.heads| == 2)
            && f.ws == MarkDetached(s.ws, rec.op)
  {
    var e1, e2, e3 := Asked(rec), Sent(rec, true, newId), Detached(rec);
    assert |rec.parents| == 1;
    var s1 := Step(s, e1);
    assert s1.reg.operations == s.reg.operations[rec.op := Operation(RequestOf(rec), rec.revision, Prepared)];
    var s2 := Step(s1, e2);
    assert OutcomeOf(s2.reg, rec).Some? && OutcomeOf(s2.reg, rec).value.Diverged?;
    RunThree(s, e1, e2, e3);
  }

  lemma TwoSavesStraight()
    ensures Straight([SaveA(), SaveB()])
  {
  }

  lemma TwoSavesChained(reg: Registry)
    requires RegistryOk(reg)
    ensures Chained(TwoSaves(reg))
  {
    TwoSavesQueue();
    TwoSavesStraight();
    hide Queue, RegistryOk, Straight;
    assert Queue(TwoSaves(reg).ws.records)[0] == SaveA();
  }

  lemma TwoSavesUnqueued()
    ensures Unqueue([SaveA(), SaveB()], 1) == [SaveA().(queued := false), SaveB()]
    ensures Unqueue([SaveA().(queued := false), SaveB()], 2) == [SaveA().(queued := false), SaveB().(queued := false)]
    ensures Unqueue([SaveA().(queued := false), SaveB().(queued := false)], 1)
         == [SaveA().(queued := false), SaveB().(queued := false)]
  {
  }

  lemma HoldsAt(records: seq<Record>, i: nat)
    requires i < |records|
    ensures Holds(records, records[i].op, records[i].revision)
  {
  }

  /** "Outside Conflict the chain starts at the synced head" is false: between the step that
      takes a diverged save off the queue and the one that records the conflict the status
      is still an ordinary one, and a crash there leaves it so. */
  lemma DivergenceWindow()
    ensures var other := Foreign(1, 200);
            var reg := Registry(7, other, 2, [Base(), other], {Base(), other}, map[], None);
            var s := TwoSaves(reg);
            var f := Run(s, [Asked(SaveA()), Sent(SaveA(), true, 50), Detached(SaveA())]);
            Chained(s) && f.ws.status == Waiting && f.ws.conflict == None && !AtBase(f.ws)
  {
    var other := Foreign(1, 200);
    var reg := Registry(7, other, 2, [Base(), other], {Base(), other}, map[], None);
    var s := TwoSaves(reg);
    TwoSavesQueue();
    TwoSavesChained(reg);
    TwoSavesUnqueued();
    assert s.ws.records[0] == SaveA();
    UploadDiverges(s, SaveA(), 50);
  }

  function LateMarkEvents(): seq<Event> {
    [Asked(SaveA()), Sent(SaveA(), true, 50), Synced(SaveA())]
    + ([Asked(SaveB()), Sent(SaveB(), true, 51), Synced(SaveB())] + [Synced(SaveA())])
  }

  lemma FirstSaveSynced(reg: Registry)
    requires reg == Registry(7, Base(), 1, [Base()], {Base()}, map[], None)
    ensures var f := Run(TwoSaves(reg), [Asked(SaveA()), Sent(SaveA(), true, 50), Synced(SaveA())]);
            && f.ws == Workspace(2, SaveA().revision, SaveB().revision, 102, Waiting,
                                 [SaveA().(queued := false), SaveB()], None)
            && f.reg.author == 7 && f.reg.head == SaveA().revision && f.reg.generation == 2 && f.reg.conflict.None?
            && f.reg.operations == map[1 := Operation(RequestOf(SaveA()), SaveA().revision, Advanced(2))]
  {
    TwoSavesQueue();
    TwoSavesUnqueued();
    HoldsAt([SaveA(), SaveB()], 0);
    UploadAdvances(TwoSaves(reg), SaveA(), 50);
  }

  lemma SecondSaveSynced(s: System)
    requires s.ws
             == Workspace(2, SaveA().revision, SaveB().revision, 102, Waiting, [SaveA().(queued := false), SaveB()],
                          None)
    requires s.reg.author == 7 && s.reg.head == SaveA().revision && s.reg.generation == 2 && s.reg.conflict.None?
    requires s.reg.operations == map[1 := Operation(RequestOf(SaveA()), SaveA().revision, Advanced(2))]
    ensures var f := Run(s, [Asked(SaveB()), Sent(SaveB(), true, 51), Synced(SaveB())]);
            && f.ws == Workspace(3, SaveB().revision, SaveB().revision, 102, Clean,
                                 [SaveA().(queued := false), SaveB().(queued := false)], None)
            && f.reg.head == SaveB().revision && f.reg.generation == 3 && f.reg.conflict.None?
            && OutcomeOf(f.reg, SaveA()) == Some(Advanced(2))
  {
    TwoSavesQueue();
    TwoSavesUnqueued();
    HoldsAt([SaveA().(queued := false), SaveB()], 1);
    UploadAdvances(s, SaveB(), 51);
  }

  lemma LateMarkRun(reg: Registry)
    requires reg == Registry(7, Base(), 1, [Base()], {Base()}, map[], None)
    ensures var f := Run(TwoSaves(reg), LateMarkEvents());
            && f.reg.head == SaveB().revision && f.reg.generation == 3 && f.reg.conflict.None?
            && f.ws == Workspace(2, SaveA().revision, SaveB().revision, 102, Clean,
                                 [SaveA().(queued := false), SaveB().(queued := false)], None)
  {
    var s := TwoSaves(reg);
    var first := [Asked(SaveA()), Sent(SaveA(), true, 50), Synced(SaveA())];
    var second := [Asked(SaveB()), Sent(SaveB(), true, 51), Synced(SaveB())];
    RunAppend(s, first, second + [Synced(SaveA())]);
    FirstSaveSynced(reg);
    var s1 := Run(s, first);
    RunAppend(s1, second, [Synced(SaveA())]);
    SecondSaveSynced(s1);
    var s2 := Run(s1, second);
    RunOne(s2, Synced(SaveA()));
    HoldsAt(s2.ws.records, 0);
    TwoSavesUnqueued();
    TwoSavesQueue();
  }

  /** With two uploaders the slower one can mark an older save last: the base then falls back
      behind the registry, and whatever is saved next expects a generation the registry has
      already passed. */
  lemma LateMarkRegresses(tree: TreeId, op: OperationId)
    requires tree != 102
    ensures var s := TwoSaves(Registry(7, Base(), 1, [Base()], {Base()}, map[], None));
            var f := Run(s, LateMarkEvents());
            && Chained(s)
            && f.ws.status == Clean && Save(f.ws, tree, 7, op).Some?
            && Admission(f.reg, RequestOf(Save(f.ws, tree, 7, op).value)) == Some(GenerationConflict)
  {
    var reg := Registry(7, Base(), 1, [Base()], {Base()}, map[], None);
    TwoSavesChained(reg);
    LateMarkRun(reg);
    TwoSavesQueue();
  }
}
