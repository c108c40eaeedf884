/** Uploading queued saves as it runs on one device: one upload with everything that can go
    wrong in it, and the drain over the queues of all skills. */
module WorkspaceSync {
  import opened Basics
  import opened WorkspaceModel
  import opened QueueChain

  type ResourceId = nat

  datatype Code =
    | QuotaExceeded | ContentVerification | LocalState
    | InvalidArguments | MissingResource | CredentialUnavailable | RegistryUnavailable

  /** `is_workspace_blocker`. */
  predicate Blocks(code: Code) {
    code in {Code.QuotaExceeded, ContentVerification, LocalState}
  }

  /** What a refusal becomes when it is reported. */
  function CodeOf(why: Refusal): Code {
    match why
    case GenerationConflict => LocalState
    case OperationConflict => InvalidArguments
    case QuotaExceeded => Code.QuotaExceeded
    case InvalidRequest => InvalidArguments
    case NotFound => MissingResource
  }

  /** How one call goes: it may fail before taking effect, or take effect and lose its reply,
      and the process may be killed on either side of it. */
  datatype Weather = Fine | Unreached(code: Code) | ReplyLost(code: Code) | KilledBefore | KilledAfter

  /** The surroundings of one call: what other devices have done to the registry by then, and
      whether the account has room. */
  datatype Moment = Moment(weather: Weather, others: Option<Registry>, quota: bool, newId: OperationId)

  datatype Answer<+T> = Got(value: T) | Lost(code: Code) | Gone

  /** A reply that was sent may still not arrive. */
  function Arrival<T>(weather: Weather, value: T): Answer<T> {
    match weather
    case ReplyLost(code) => Lost(code)
    case KilledAfter => Gone
    case _ => Got(value)
  }

  datatype Upload = Uploaded | Failed(code: Code) | Killed

  datatype Row = Row(id: ResourceId, rec: Record)

  datatype Drain = Drained(uploaded: nat, blockers: seq<Code>) | Aborted(code: Code) | DrainKilled

  // ----- the queue query ------------------------------------------------------------------

  function InsertByGeneration(q: seq<Record>, rec: Record): seq<Record> {
    if q == [] || q[|q| - 1].generation <= rec.generation then q + [rec]
    else InsertByGeneration(q[..|q| - 1], rec) + [q[|q| - 1]]
  }

  /** The query's order within one skill: by expected generation, ties by creation. */
  function ByGeneration(q: seq<Record>): seq<Record> {
    if q == [] then [] else InsertByGeneration(ByGeneration(q[..|q| - 1]), q[|q| - 1])
  }

  function Tagged(id: ResourceId, q: seq<Record>): seq<Row> {
    seq(|q|, i requires 0 <= i < |q| => Row(id, q[i]))
  }

  function QueuedRows(ids: seq<ResourceId>, rows: map<ResourceId, Workspace>): seq<Row>
    requires forall id :: id in ids ==> id in rows
  {
    if ids == [] then [] else
      Tagged(ids[0], ByGeneration(Queue(rows[ids[0]].records))) + QueuedRows(ids[1..], rows)
  }

  /** The part of a list of queue rows that belongs to one skill. */
  function Of(list: seq<Row>, id: ResourceId): seq<Record> {
    if list == [] then [] else
      var n := |list| - 1;
      Of(list[..n], id) + if list[n].id == id then [list[n].rec] else []
  }

  lemma OfSnoc(list: seq<Row>, row: Row, id: ResourceId)
    ensures Of(list + [row], id) == if row.id == id then Of(list, id) + [row.rec] else Of(list, id)
  {
    assert (list + [row])[..|list|] == list;
  }

  lemma {:induction false} OfAppend(a: seq<Row>, b: seq<Row>, id: ResourceId)
    ensures Of(a + b, id) == Of(a, id) + Of(b, id)
    decreases |b|
  {
    if b == [] {
      assert a + b == a;
    } else {
      var n := |b| - 1;
      assert a + b == (a + b[..n]) + [b[n]];
      OfSnoc(a + b[..n], b[n], id);
      OfAppend(a, b[..n], id);
    }
  }

  lemma {:induction false} OfTagged(id: ResourceId, q: seq<Record>, other: ResourceId)
    ensures Of(Tagged(id, q), other) == if other == id then q else []
    decreases |q|
  {
    if q != [] {
      var n := |q| - 1;
      assert Tagged(id, q)[..n] == Tagged(id, q[..n]);
      OfTagged(id, q[..n], other);
    }
  }

  /** The query lists each skill's own queue, whatever the others hold. */
  lemma {:induction false} QueryListsEachQueue(ids: seq<ResourceId>, rows: map<ResourceId, Workspace>, id: ResourceId)
    requires forall i :: i in ids ==> i in rows
    requires forall i, j :: 0 <= i < j < |ids| ==> ids[i] != ids[j]
    ensures Of(QueuedRows(ids, rows), id) == if id in ids then ByGeneration(Queue(rows[id].records)) else []
    decreases |ids|
  {
    if ids != [] {
      var q := ByGeneration(Queue(rows[ids[0]].records));
      OfAppend(Tagged(ids[0], q), QueuedRows(ids[1..], rows), id);
      OfTagged(ids[0], q, id);
      QueryListsEachQueue(ids[1..], rows, id);
      assert ids == [ids[0]] + ids[1..];
    }
  }

  lemma StraightFront(q: seq<Record>)
    requires q != [] && Straight(q)
    ensures Straight(q[..|q| - 1])
  {
  }

  lemma InsertLast(q: seq<Record>, rec: Record)
    requires q != [] ==> q[|q| - 1].generation < rec.generation
    ensures InsertByGeneration(q, rec) == q + [rec]
  {
  }

  lemma LastIsNewest(q: seq<Record>)
    requires Straight(q) && |q| > 1
    ensures q[|q| - 2].generation < q[|q| - 1].generation
  {
    var n := |q| - 1;
    assert q[n].generation == q[n - 1].generation + 1;
  }

  lemma {:induction false} ChainIsInQueryOrder(q: seq<Record>)
    requires Straight(q)
    ensures ByGeneration(q) == q
    decreases |q|
  {
    hide Straight, InsertByGeneration;
    if q != [] {
      var n := |q| - 1;
      StraightFront(q);
      ChainIsInQueryOrder(q[..n]);
      if n > 0 { LastIsNewest(q); }
      InsertLast(q[..n], q[n]);
      assert q == q[..n] + [q[n]];
    }
  }

  /** The query neither drops nor invents a save. */
  lemma {:induction false} QueryKeepsSaves(q: seq<Record>)
    ensures multiset(ByGeneration(q)) == multiset(q)
    decreases |q|
  {
    if q != [] {
      var n := |q| - 1;
      QueryKeepsSaves(q[..n]);
      InsertKeepsSaves(ByGeneration(q[..n]), q[n]);
      FrontAndLast(q);
    }
    hide InsertByGeneration;
  }

  lemma FrontAndLast(q: seq<Record>)
    requires q != []
    ensures multiset(q) == multiset(q[..|q| - 1]) + multiset{q[|q| - 1]}
  {
    assert q == q[..|q| - 1] + [q[|q| - 1]];
  }

  lemma {:induction false} InsertKeepsSaves(q: seq<Record>, rec: Record)
    ensures multiset(InsertByGeneration(q, rec)) == multiset(q) + multiset{rec}
    decreases |q|
  {
    if q != [] && !(q[|q| - 1].generation <= rec.generation) {
      InsertKeepsSaves(q[..|q| - 1], rec);
      assert q == q[..|q| - 1] + [q[|q| - 1]];
    }
  }

  /** By expected generation, and saves of one generation in the order they were made. */
  ghost predicate InQueryOrder(list: seq<Record>, made: seq<Record>) {
    forall i, j :: 0 <= i < j < |list| ==>
      list[i].generation < list[j].generation
      || (list[i].generation == list[j].generation && Before(made, list[i], list[j]))
  }

  ghost predicate Before(made: seq<Record>, a: Record, b: Record) {
    exists i, j :: 0 <= i < j < |made| && made[i] == a && made[j] == b
  }

  lemma {:induction false} QueryIsInOrder(q: seq<Record>)
    ensures InQueryOrder(ByGeneration(q), q)
    decreases |q|
  {
    if q != [] {
      var n := |q| - 1;
      QueryIsInOrder(q[..n]);
      SameSaves(q[..n]);
      InsertInOrder(ByGeneration(q[..n]), q[n], q[..n]);
      assert q == q[..n] + [q[n]];
    }
    hide InQueryOrder, InsertByGeneration;
  }

  lemma SameSaves(q: seq<Record>)
    ensures forall rec :: rec in ByGeneration(q) ==> rec in q
  {
    QueryKeepsSaves(q);
    hide ByGeneration;
    forall rec | rec in ByGeneration(q) ensures rec in q {
      assert rec in multiset(ByGeneration(q));
      assert rec in multiset(q);
    }
  }

  lemma {:induction false} InsertInOrder(list: seq<Record>, rec: Record, made: seq<Record>)
    requires InQueryOrder(list, made) && forall r :: r in list ==> r in made
    ensures InQueryOrder(InsertByGeneration(list, rec), made + [rec])
    ensures forall r :: r in InsertByGeneration(list, rec) <==> r in list || r == rec
    decreases |list|
  {
    if list == [] || list[|list| - 1].generation <= rec.generation {
      AppendInOrder(list, rec, made);
    } else {
      var n := |list| - 1;
      OrderFront(list, made);
      InsertInOrder(list[..n], rec, made);
      KeepLast(list, InsertByGeneration(list[..n], rec), rec, made);
      assert list == list[..n] + [list[n]];
    }
    hide InQueryOrder;
  }

  lemma OrderFront(list: seq<Record>, made: seq<Record>)
    requires list != [] && InQueryOrder(list, made)
    ensures InQueryOrder(list[..|list| - 1], made)
  {
    hide Before;
  }

  lemma AppendInOrder(list: seq<Record>, rec: Record, made: seq<Record>)
    requires InQueryOrder(list, made) && forall r :: r in list ==> r in made
    requires list != [] ==> list[|list| - 1].generation <= rec.generation
    ensures InQueryOrder(list + [rec], made + [rec])
  {
    var longer := list + [rec];
    hide Before;
    forall i, j | 0 <= i < j < |longer|
      ensures longer[i].generation < longer[j].generation
              || (longer[i].generation == longer[j].generation && Before(made + [rec], longer[i], longer[j]))
    {
      if j < |list| {
        StillBefore(made, rec, list[i], list[j]);
      } else {
        BeforeLast(made, rec, list[i]);
        assert i < |list| - 1 ==> list[i].generation <= list[|list| - 1].generation;
      }
    }
  }

  lemma KeepLast(list: seq<Record>, front: seq<Record>, rec: Record, made: seq<Record>)
    requires list != [] && InQueryOrder(list, made) && InQueryOrder(front, made + [rec])
    requires rec.generation < list[|list| - 1].generation
    requires forall r :: r in front ==> r in list[..|list| - 1] || r == rec
    ensures InQueryOrder(front + [list[|list| - 1]], made + [rec])
  {
    var n := |list| - 1;
    hide Before;
    forall i | 0 <= i < |front|
      ensures front[i].generation < list[n].generation
              || (front[i].generation == list[n].generation && Before(made + [rec], front[i], list[n]))
    {
      assert front[i] in front;
      if front[i] != rec {
        var k :| 0 <= k < n && list[k] == front[i];
        StillBefore(made, rec, list[k], list[n]);
      }
    }
  }

  lemma StillBefore(made: seq<Record>, rec: Record, a: Record, b: Record)
    ensures Before(made, a, b) ==> Before(made + [rec], a, b)
  {
    if Before(made, a, b) {
      var i, j :| 0 <= i < j < |made| && made[i] == a && made[j] == b;
      assert (made + [rec])[i] == a && (made + [rec])[j] == b;
    }
  }

  lemma BeforeLast(made: seq<Record>, rec: Record, a: Record)
    requires a in made
    ensures Before(made + [rec], a, rec)
  {
    var i :| 0 <= i < |made| && made[i] == a;
    assert (made + [rec])[i] == a && (made + [rec])[|made|] == rec;
  }

  // ----- events of one upload --------------------------------------------------------------

  /** Registry traffic and pauses: nothing here touches the queue or asks the user. */
  ghost predicate Traffic(e: Event) {
    e.OthersActed? || e.Asked? || e.Sent? || e.Paused? || (e.ConflictSaved? && !e.saved.resolutionRequired)
  }

  ghost predicate AllTraffic(events: seq<Event>) {
    forall i :: 0 <= i < |events| ==> Traffic(events[i])
  }

  ghost predicate Quiet(s: System, events: seq<Event>) {
    AllTraffic(events) && SoundRun(s, events)
  }

  /** Nothing an upload does queues a revision or moves the baseline but through the registry's reply. */
  ghost predicate UploadSteps(events: seq<Event>) {
    forall i :: 0 <= i < |events| ==> Traffic(events[i]) || events[i].Synced? || events[i].Detached?
  }

  lemma {:induction false} OrderlyAppend(s: System, a: seq<Event>, b: seq<Event>)
    requires OrderlyRun(s, a) && OrderlyRun(Run(s, a), b)
    ensures OrderlyRun(s, a + b)
    decreases |a|
  {
    if a == [] {
      assert a + b == b;
    } else {
      OrderlyAppend(Step(s, a[0]), a[1..], b);
      assert (a + b)[1..] == a[1..] + b;
    }
  }

  lemma {:induction false} TrafficIsOrderly(s: System, events: seq<Event>)
    requires AllTraffic(events)
    ensures OrderlyRun(s, events) && Run(s, events).ws.records == s.ws.records
    decreases |events|
  {
    if events != [] {
      assert Traffic(events[0]);
      TrafficIsOrderly(Step(s, events[0]), events[1..]);
    }
  }

  ghost predicate PreparedAs(reg: Registry, rec: Record, revision: RevisionId) {
    rec.op in reg.operations && reg.operations[rec.op].request == RequestOf(rec)
        && reg.operations[rec.op].revision == revision
  }

  /** A save the registry has not finished: it may have been prepared before, else its operation is
      new and its revision is the one the registry will compute. */
  ghost predicate Unfinished(reg: Registry, rec: Record) {
    && |rec.parents| in {1, 2} && rec.head in rec.parents
    && (OutcomeOf(reg, rec) == Some(Prepared)
        || (rec.op !in reg.operations && rec.revision == Hashed(rec.root, rec.parents, reg.author, rec.op)))
  }

  /** Nothing stands between this save and the head of the registry: it continues the head, or it is
      the merge of the two heads of the registry's conflict. */
  ghost predicate Ready(reg: Registry, rec: Record) {
    && Unfinished(reg, rec) && reg.head == rec.head && reg.generation == rec.generation
    && if reg.conflict.None? then |rec.parents| == 1
       else |rec.parents| == 2 && rec.op == reg.conflict.value.id && rec.parents == reg.conflict.value.heads
  }

  /** Another device has moved the head on since this save was made. */
  ghost predicate Behind(reg: Registry, rec: Record) {
    && Unfinished(reg, rec) && reg.conflict.None? && reg.head != rec.head && |rec.parents| == 1
    && (rec.op in reg.operations || rec.head in reg.stored)
  }

  /** The registry has answered this save before. */
  ghost predicate Finished(reg: Registry, rec: Record) {
    && |rec.parents| in {1, 2} && rec.head in rec.parents
    && OutcomeOf(reg, rec).Some? && !OutcomeOf(reg, rec).value.Prepared?
  }

  /** The registry's two answers to a call that nothing disturbs. */
  ghost function Answers(reg: Registry, rec: Record): (Registry, Reply<RevisionId>, Registry, Reply<Outcome>) {
    var asked := Prepare(reg, RequestOf(rec));
    var sent := Commit(asked.0, RequestOf(rec), true, 0);
    (asked.0, asked.1, sent.0, sent.1)
  }

  lemma ReadyAdvances(reg: Registry, rec: Record)
    requires Ready(reg, rec)
    ensures var a := Answers(reg, rec);
            && a.1 == Accepted(rec.revision) && a.3 == Accepted(Advanced(rec.generation + 1))
            && a.2.head == rec.revision && a.2.generation == rec.generation + 1 && a.2.conflict.None?
            && a.2.stored == reg.stored + {rec.revision} && a.2.chain == reg.chain + [rec.revision]
            && a.2.author == reg.author && a.2.operations.Keys == reg.operations.Keys + {rec.op}
  {
  }

  lemma BehindDiverges(reg: Registry, rec: Record)
    requires Behind(reg, rec)
    ensures var a, c := Answers(reg, rec), Conflict(0, rec.head, {rec.revision, reg.head}, reg.head, reg.generation);
            && a.1 == Accepted(rec.revision) && a.3 == Accepted(Diverged(c))
            && a.2.head == reg.head && a.2.generation == reg.generation && a.2.conflict == Some(c)
            && a.2.stored == reg.stored + {rec.revision} && a.2.chain == reg.chain
            && a.2.author == reg.author && a.2.operations.Keys == reg.operations.Keys + {rec.op}
  {
  }

  lemma FinishedReplays(reg: Registry, rec: Record)
    requires Finished(reg, rec)
    ensures var a := Answers(reg, rec);
            a.0 == a.2 == reg && a.1 == Accepted(rec.revision) && a.3 == Accepted(OutcomeOf(reg, rec).value)
  {
  }

  /** Nothing else is accepted. */
  lemma OthersAreRefused(reg: Registry, rec: Record)
    requires !Ready(reg, rec) && !Behind(reg, rec) && !Finished(reg, rec) && RegistryOk(reg)
    ensures var a := Answers(reg, rec); a.1 != Accepted(rec.revision) || a.3.Refused?
  {
    if rec.op in reg.operations { assert OperationOk(reg, rec.op); }
  }

  /** The skill once a save is taken off the queue for good: synced onto the registry's chain, or
      paused with the conflict the registry found, recorded for the tree of the save. */
  ghost predicate Landed(was: Workspace, rec: Record, now: Workspace, reg: Registry) {
    match OutcomeOf(reg, rec)
    case Some(Advanced(generation)) =>
      now == was.(records := Unqueue(was.records, rec.op), baseGeneration := generation, baseRevision := rec.revision,
                  status := if Queue(Unqueue(was.records, rec.op)) == [] then Clean else was.status)
    case Some(Diverged(conflict)) =>
      now == was.(records := Unqueue(was.records, rec.op), status := InConflict,
                  conflict := Some(ContentConflict(conflict, rec.root, false)))
    case _ => false
  }

  /** What an undisturbed upload does at the registry, and exactly when it succeeds. */
  ghost predicate CalmUpload(was: Registry, rec: Record, now: Registry, result: Upload) {
    && (Ready(was, rec) ==>
          && result.Uploaded? && OutcomeOf(now, rec) == Some(Advanced(rec.generation + 1))
          && now.head == rec.revision && now.generation == rec.generation + 1 && now.conflict.None?
          && now.author == was.author && now.operations.Keys == was.operations.Keys + {rec.op})
    && (Behind(was, rec) ==>
          && now.head == was.head && now.generation == was.generation && now.chain == was.chain
          && now.stored == was.stored + {rec.revision}
          && now.conflict == Some(Conflict(0, rec.head, {rec.revision, was.head}, was.head, was.generation))
          && OutcomeOf(now, rec) == Some(Diverged(now.conflict.value))
          && now.author == was.author && now.operations.Keys == was.operations.Keys + {rec.op})
    && (Finished(was, rec) ==> now == was)
    && (result.Uploaded? <==>
          || Ready(was, rec)
          || (Behind(was, rec) && rec.revision != was.head)
          || (Finished(was, rec)
              && (OutcomeOf(was, rec).value.Diverged? ==> |OutcomeOf(was, rec).value.conflict.heads| == 2)))
  }

  lemma AnswersAreCalm(was: Registry, rec: Record, now: Registry, result: Upload)
    requires RegistryOk(was)
    requires var a := Answers(was, rec);
             && (result.Uploaded? <==>
                   && a.1 == Accepted(rec.revision) && a.3.Accepted?
                   && (a.3.value.Diverged? ==> |a.3.value.conflict.heads| == 2))
             && (a.1 == Accepted(rec.revision) ==> now == a.2)
             && (a.1 == Accepted(rec.revision) && a.3.Accepted? ==> OutcomeOf(now, rec) == Some(a.3.value))
    ensures CalmUpload(was, rec, now, result)
  {
    hide RegistryOk, Answers, Ready, Behind, Finished, OutcomeOf;
    if Ready(was, rec) {
      ReadyAdvances(was, rec);
    } else if Behind(was, rec) {
      BehindDiverges(was, rec);
      assert |{rec.revision, was.head}| == if rec.revision == was.head then 1 else 2;
    } else if Finished(was, rec) {
      FinishedReplays(was, rec);
    } else {
      OthersAreRefused(was, rec);
    }
    OneStanding(was, rec);
  }

  /** The queue continues the registry's head, save by save, and the registry knows none of it. */
  ghost predicate InLine(reg: Registry, q: seq<Record>) {
    && Straight(q)
    && (q != [] ==> reg.conflict.None? && reg.head == q[0].head && reg.generation == q[0].generation
                    && q[0].parents == {q[0].head})
    && (forall i :: 0 <= i < |q| ==>
          q[i].op !in reg.operations && q[i].revision == Hashed(q[i].root, q[i].parents, reg.author, q[i].op))
    && forall i, j :: 0 <= i < j < |q| ==> q[i].op != q[j].op
  }

  lemma InLineIsReady(reg: Registry, q: seq<Record>)
    requires InLine(reg, q) && q != []
    ensures Ready(reg, q[0])
  {
    assert |{q[0].head}| == 1;
  }

  /** The next save goes up, and the rest is in line behind it. */
  lemma InLineGoesOn(was: System, now: System, result: Upload)
    requires var q := Queue(was.ws.records);
             && q != [] && InLine(was.reg, q) && OperationsDistinct(was.ws.records)
             && CalmUpload(was.reg, q[0], now.reg, result)
             && (result.Uploaded? ==> Landed(was.ws, q[0], now.ws, now.reg))
    ensures result.Uploaded? && Queue(now.ws.records) == Queue(was.ws.records)[1..]
    ensures InLine(now.reg, Queue(was.ws.records)[1..])
  {
    InLineIsReady(was.reg, Queue(was.ws.records));
    UnqueueFirst(was.ws.records);
    hide Queue, Unqueue, Ready, Behind, Finished;
  }

  /** What an undisturbed upload leaves of the skill when the registry does not take the save. */
  ghost predicate CalmRefusal(reg: Registry, rec: Record, was: Workspace, now: Workspace, result: Upload) {
    var a := Answers(reg, rec);
    match a.1
    case Refused(why) => Refuses(was, why, now, result)
    case Accepted(revision) =>
      if revision != rec.revision then result == Failed(LocalState) && now == was
      else a.3.Refused? ==> Refuses(was, a.3.why, now, result)
  }

  lemma RefusalsAreCalm(reg: Registry, rec: Record, was: Workspace, now: Workspace, result: Upload)
    requires var a := Answers(reg, rec);
             && (a.1.Refused? ==> Refuses(was, a.1.why, now, result))
             && (a.1.Accepted? && a.1.value != rec.revision ==> result == Failed(LocalState) && now == was)
             && (a.1 == Accepted(rec.revision) && a.3.Refused? ==> Refuses(was, a.3.why, now, result))
    ensures CalmRefusal(reg, rec, was, now, result)
  {
  }

  /** Prepare, upload and commit go through undisturbed, but the account has no room. */
  ghost predicate NoRoom(agenda: seq<Moment>) {
    |agenda| == 3 && (forall i :: 0 <= i < 3 ==> Still(agenda[i])) && !agenda[2].quota
  }

  lemma WithoutRoom(reg: Registry, rec: Record, agenda: seq<Moment>)
    requires NoRoom(agenda)
    ensures Still(First(agenda)) && Still(First(Rest(agenda))) && Still(First(Rest(Rest(agenda))))
    ensures Rest(Rest(Rest(agenda))) == [] && !First(Rest(Rest(agenda))).quota
    ensures Ready(reg, rec) || Behind(reg, rec) ==>
              var asked := Prepare(reg, RequestOf(rec));
              asked.1 == Accepted(rec.revision)
              && forall newId ::
                  Commit(asked.0, RequestOf(rec), false, newId) == (asked.0, Refused(Refusal.QuotaExceeded))
  {
  }

  lemma OneStanding(reg: Registry, rec: Record)
    ensures !(Ready(reg, rec) && (Behind(reg, rec) || Finished(reg, rec))) && !(Behind(reg, rec) && Finished(reg, rec))
  {
  }

  lemma AskedStep(now: System, rec: Record)
    requires RegistryOk(now.reg)
    ensures var (next, reply) := Prepare(now.reg, RequestOf(rec));
            && RegistryOk(next) && Run(now, [Asked(rec)]) == now.(reg := next)
            && (reply.Accepted? ==> PreparedAs(next, rec, reply.value))
  {
    PrepareEvolves(now.reg, RequestOf(rec));
    RunOne(now, Asked(rec));
  }

  lemma SentStep(now: System, rec: Record, quota: bool, newId: OperationId)
    requires RegistryOk(now.reg) && PreparedAs(now.reg, rec, rec.revision)
    ensures var (next, reply) := Commit(now.reg, RequestOf(rec), quota, newId);
            && RegistryOk(next) && Run(now, [Sent(rec, quota, newId)]) == now.(reg := next)
            && (reply.Accepted? ==> OutcomeOf(next, rec) == Some(reply.value) && !reply.value.Prepared?)
  {
    CommitEvolves(now.reg, RequestOf(rec), quota, newId);
    RunOne(now, Sent(rec, quota, newId));
  }

  lemma RunBoth(a: System, first: seq<Event>, second: seq<Event>, b: System)
    requires Run(Run(a, first), second) == b
    ensures Run(a, first + second) == b
    ensures Quiet(a, first) && Quiet(Run(a, first), second) ==> Quiet(a, first + second)
  {
    RunAppend(a, first, second);
    if Quiet(a, first) && Quiet(Run(a, first), second) { SoundAppend(a, first, second); }
  }

  /** How the upload of one queued save may leave its skill: run from the state before by
      steps that keep to the front of the queue, and the save still queued, or off the queue
      and kept by the registry. */
  ghost predicate UploadLeaves(before: System, rec: Record, events: seq<Event>, after: System, result: Upload) {
    && after == Run(before, events) && UploadSteps(events) && SoundRun(before, events)
    && OperationsDistinct(after.ws.records)
    && (Queue(before.ws.records) != [] && rec == Queue(before.ws.records)[0] ==> OrderlyRun(before, events))
    && (after.ws.records == before.ws.records
        || (after.ws.records == Unqueue(before.ws.records, rec.op) && Kept(rec, after.reg)))
    && (result.Uploaded? ==> after.ws.records == Unqueue(before.ws.records, rec.op) && Kept(rec, after.reg))
  }

  lemma TrafficLeaves(before: System, rec: Record, events: seq<Event>, result: Upload)
    requires Quiet(before, events) && OperationsDistinct(before.ws.records) && !result.Uploaded?
    ensures UploadLeaves(before, rec, events, Run(before, events), result)
  {
    TrafficIsOrderly(before, events);
  }

  lemma TrafficThenLeaves(before: System, first: seq<Event>, rec: Record, events: seq<Event>, after: System,
                          result: Upload)
    requires Quiet(before, first) && UploadLeaves(Run(before, first), rec, events, after, result)
    ensures UploadLeaves(before, rec, first + events, after, result)
  {
    TrafficIsOrderly(before, first);
    RunAppend(before, first, events);
    SoundAppend(before, first, events);
    if Queue(before.ws.records) != [] && rec == Queue(before.ws.records)[0] {
      OrderlyAppend(before, first, events);
    }
  }

  /** The tree of a save that diverged is on the registry. */
  lemma DivergedTreeIsPreserved(rec: Record, reg: Registry)
    requires RegistryOk(reg) && OutcomeOf(reg, rec).Some? && OutcomeOf(reg, rec).value.Diverged?
    ensures Preserved(rec.root, reg)
  {
    assert OperationOk(reg, rec.op);
    assert rec.revision in reg.stored && RootOf(rec.revision) == rec.root;
  }

  /** After the registry's reply the save leaves the queue, and the registry keeps it. */
  lemma SyncedLeaves(now: System, rec: Record, generation: nat, result: Upload)
    requires RegistryOk(now.reg) && OperationsDistinct(now.ws.records) && rec in now.ws.records
    requires OutcomeOf(now.reg, rec) == Some(Advanced(generation))
    ensures var after := now.(ws := MarkSynced(now.ws, rec.op, generation, rec.revision));
            UploadLeaves(now, rec, [Synced(rec)], after, result)
  {
    RunOne(now, Synced(rec));
    var k :| 0 <= k < |now.ws.records| && now.ws.records[k] == rec;
    HoldsAt(now.ws.records, k);
    assert OperationOk(now.reg, rec.op);
    assert [Synced(rec)][1..] == [];
  }

  lemma RecordIsHeld(records: seq<Record>, rec: Record)
    requires rec in records
    ensures Holds(records, rec.op, rec.revision)
  {
    var k :| 0 <= k < |records| && records[k] == rec;
    HoldsAt(records, k);
  }

  lemma DetachedLeaves(now: System, rec: Record, result: Upload)
    requires RegistryOk(now.reg) && OperationsDistinct(now.ws.records) && rec in now.ws.records
    requires OutcomeOf(now.reg, rec).Some? && OutcomeOf(now.reg, rec).value.Diverged?
    ensures UploadLeaves(now, rec, [Detached(rec)], now.(ws := MarkDetached(now.ws, rec.op)), result)
  {
    RunOne(now, Detached(rec));
    assert OperationOk(now.reg, rec.op);
    assert [Detached(rec)][1..] == [];
  }

  lemma LeavesThenTraffic(before: System, rec: Record, events: seq<Event>, now: System, last: seq<Event>,
                          result: Upload)
    requires UploadLeaves(before, rec, events, now, Uploaded) && Quiet(now, last) && RegistryOk(now.reg)
    requires Run(now, last).reg == now.reg
    ensures UploadLeaves(before, rec, events + last, Run(now, last), result)
  {
    TrafficIsOrderly(now, last);
    RunAppend(before, events, last);
    SoundAppend(before, events, last);
    if Queue(before.ws.records) != [] && rec == Queue(before.ws.records)[0] {
      OrderlyAppend(before, events, last);
    }
  }

  /** Past the end of the agenda nothing unusual happens. */
  function First(agenda: seq<Moment>): Moment {
    if agenda == [] then Moment(Fine, None, true, 0) else agenda[0]
  }

  function Rest(agenda: seq<Moment>): seq<Moment> {
    if agenda == [] then [] else agenda[1..]
  }

  /** The call goes through, and nobody else has done anything. */
  predicate Still(m: Moment) {
    m.weather.Fine? && m.others.None?
  }

  /** What a refusal leaves: quota and an overtaken head pause the skill, the rest is only reported. */
  ghost predicate Refuses(was: Workspace, why: Refusal, now: Workspace, result: Upload) {
    match why
    case QuotaExceeded => result == Failed(Code.QuotaExceeded) && now == was.(status := Quota)
    case GenerationConflict => result == Failed(LocalState) && now == was.(status := InConflict)
    case NotFound => result == Failed(MissingResource) && now == was
    case OperationConflict => result == Failed(InvalidArguments) && now == was
    case InvalidRequest => result == Failed(InvalidArguments) && now == was
  }

  /** No record has the operation, or a revision made with it. */
  ghost predicate NewOperation(records: seq<Record>, op: OperationId) {
    forall i :: 0 <= i < |records| ==>
      records[i].op != op && (records[i].revision.Hashed? ==> records[i].revision.op != op)
  }

  /** The tree is saved on top of the newest queued save, or else of the local head. */
  ghost predicate Continued(was: Workspace, now: Workspace, tree: TreeId, author: AuthorId, op: OperationId) {
    var q := Queue(was.records);
    var head := if q == [] then was.localHead else Latest(q).revision;
    var revision := Hashed(tree, {head}, author, op);
    var generation := if q == [] then was.baseGeneration else Latest(q).generation + 1;
    now == was.(records := was.records + [Record(op, revision, head, {head}, generation, tree, true)],
                localHead := revision, validRoot := tree, status := Waiting)
  }

  /** The conflict has its two heads, and no save under its id yet. */
  ghost predicate CanMerge(records: seq<Record>, c: Conflict) {
    |c.heads| == 2 && c.active in c.heads && NewOperation(records, c.id)
  }

  /** The tree is saved as the merge of the conflict's heads. */
  ghost predicate Resolved(was: Workspace, now: Workspace, tree: TreeId, author: AuthorId, c: Conflict) {
    var revision := Hashed(tree, c.heads, author, c.id);
    now == was.(records := was.records + [Record(c.id, revision, c.active, c.heads, c.generation, tree, true)],
                localHead := revision, validRoot := tree, status := Waiting)
  }

  /** What a valid scan does. Nothing new: a pause for validation or a rename ends. Something new: it
      is saved, on the queue or the local head; in a recorded conflict it is saved as the merge of
      the heads, if the user was asked, nothing is queued, and it is not the tree of the record. */
  ghost predicate CaptureSays(was: Workspace, now: Workspace, tree: TreeId, author: AuthorId, op: OperationId) {
    if was.validRoot == tree then
      now == was.(status :=
        if was.status !in {PausedValidation, PendingRename} then was.status
        else if Queue(was.records) == [] then Clean else Waiting)
    else if was.status.InConflict? && was.conflict.Some? then
      var c := was.conflict.value;
      var asked := Queue(was.records) == [] && c.resolutionRequired && tree != c.workingRoot;
      && (now == was || (asked && Resolved(was, now, tree, author, c.conflict)))
      && (asked && CanMerge(was.records, c.conflict) ==> now != was)
    else
      && (now == was || Continued(was, now, tree, author, op))
      && (NewOperation(was.records, op) ==> now != was)
  }

  lemma CaptureCases(ws: Workspace, tree: TreeId, author: AuthorId, op: OperationId)
    ensures CaptureSays(ws, Capture(ws, tree, author, op), tree, author, op)
  {
    hide Queue, Latest, NewOperation;
    if ws.validRoot != tree {
      var save := Save(ws, tree, author, op);
      if save.Some? {
        assert |{save.value.head}| == 1;
        assert save.value.(queued := true) == save.value;
        if ws.status.InConflict? && ws.conflict.Some? {
          NewIsFresh(ws.records, ws.conflict.value.conflict.id, save.value.revision);
        } else {
          NewIsFresh(ws.records, op, save.value.revision);
        }
      }
    }
  }

  lemma NewIsFresh(records: seq<Record>, op: OperationId, revision: RevisionId)
    requires revision.Hashed? && revision.op == op
    ensures NewOperation(records, op) ==> Fresh(records, op, revision)
  {
  }

  lemma CaptureKeepsDistinct(ws: Workspace, tree: TreeId, author: AuthorId, op: OperationId)
    requires OperationsDistinct(ws.records)
    ensures OperationsDistinct(Capture(ws, tree, author, op).records)
  {
    CaptureOutcome(ws, tree, author, op);
    var save := Save(ws, tree, author, op);
    if save.Some? && Enqueue(ws, save.value).Some? { EnqueueKeepsDistinct(ws, save.value); }
    hide Capture, Enqueue, OperationsDistinct, Save;
  }

  /** One owned skill as this device and the registry hold it, with what will happen around
      its next calls; past the end of the agenda nothing unusual does. */
  class Skill {
    var row: Workspace
    var tree: TreeId
    var registry: Registry
    var agenda: seq<Moment>

    ghost predicate Valid()
      reads this
    {
      RegistryOk(registry) && OperationsDistinct(row.records)
    }

    ghost function Space(): System
      reads this
    {
      System(row, tree, registry)
    }

    constructor (row: Workspace, tree: TreeId, registry: Registry, agenda: seq<Moment>)
      requires RegistryOk(registry) && OperationsDistinct(row.records)
      ensures Valid() && Space() == System(row, tree, registry) && this.agenda == agenda
    {
      this.row, this.tree, this.registry, this.agenda := row, tree, registry, agenda;
    }

    method NextMoment() returns (m: Moment)
      modifies this`agenda
      ensures m == First(old(agenda)) && agenda == Rest(old(agenda))
    {
      m := Moment(Fine, None, true, 0);
      if agenda != [] {
        m, agenda := agenda[0], agenda[1..];
      }
    }

    /** Whatever other devices did before this call. */
    method OthersAct(m: Moment) returns (ghost events: seq<Event>)
      requires Valid()
      modifies this`registry
      ensures Valid() && Space() == Run(old(Space()), events) && Quiet(old(Space()), events)
      ensures Evolves(old(registry), registry) || registry == old(registry)
      ensures m.others.None? ==> registry == old(registry)
    {
      events := [];
      if m.others.Some? && Evolves(registry, m.others.value) {
        RunOne(Space(), OthersActed(m.others.value));
        registry, events := m.others.value, [OthersActed(m.others.value)];
      }
    }

    method AskRegistry(rec: Record, m: Moment) returns (answer: Answer<Reply<RevisionId>>, ghost events: seq<Event>)
      requires Valid()
      modifies this`registry
      ensures Valid() && Space() == Run(old(Space()), events) && Quiet(old(Space()), events)
      ensures answer.Got? && answer.value.Accepted? ==> PreparedAs(registry, rec, answer.value.value)
      ensures m.weather.Fine? ==>
                (registry, answer)
                    == (Prepare(old(registry), RequestOf(rec)).0, Got(Prepare(old(registry), RequestOf(rec)).1))
    {
      if m.weather.KilledBefore? { return Gone, []; }
      if m.weather.Unreached? { return Lost(m.weather.code), []; }
      AskedStep(Space(), rec);
      var (next, reply) := Prepare(registry, RequestOf(rec));
      registry, events := next, [Asked(rec)];
      answer := Arrival(m.weather, reply);
    }

    method SendRegistry(rec: Record, m: Moment) returns (answer: Answer<Reply<Outcome>>, ghost events: seq<Event>)
      requires Valid() && PreparedAs(registry, rec, rec.revision)
      modifies this`registry
      ensures Valid() && Space() == Run(old(Space()), events) && Quiet(old(Space()), events)
      ensures answer.Got? && answer.value.Accepted? ==>
                OutcomeOf(registry, rec) == Some(answer.value.value) && !answer.value.value.Prepared?
      ensures m.weather.Fine? ==>
                var done := Commit(old(registry), RequestOf(rec), m.quota, m.newId);
                registry == done.0 && answer == Got(done.1)
    {
      if m.weather.KilledBefore? { return Gone, []; }
      if m.weather.Unreached? { return Lost(m.weather.code), []; }
      SentStep(Space(), rec, m.quota, m.newId);
      var (next, reply) := Commit(registry, RequestOf(rec), m.quota, m.newId);
      registry, events := next, [Sent(rec, m.quota, m.newId)];
      answer := Arrival(m.weather, reply);
    }

    /** One local database transaction. */
    method LandRow(next: Workspace) returns (result: Upload)
      requires Valid() && OperationsDistinct(next.records)
      modifies this`row, this`agenda
      ensures Valid() && row in {old(row), next}
      ensures result.Uploaded? ==> row == next
      ensures result.Failed? ==> result.code == LocalState
      ensures old(agenda) == [] ==> result.Uploaded? && agenda == []
    {
      var m := NextMoment();
      if m.weather.KilledBefore? { return Killed; }
      if m.weather.Unreached? { return Failed(LocalState); }
      row := next;
      match m.weather {
        case ReplyLost(_) => result := Failed(LocalState);
        case KilledAfter => result := Killed;
        case _ => result := Uploaded;
      }
    }

    method Pause(status: Status) returns (result: Upload, ghost events: seq<Event>)
      requires Valid() && status !in {Clean, Waiting}
      modifies this`row, this`agenda
      ensures Valid() && Space() == Run(old(Space()), events) && Quiet(old(Space()), events)
      ensures row in {old(row), old(row).(status := status)}
      ensures result.Uploaded? ==> row == old(row).(status := status)
      ensures result.Failed? ==> result.code == LocalState
      ensures old(agenda) == [] ==> result.Uploaded? && agenda == []
    {
      events := [];
      result := LandRow(row.(status := status));
      if row != old(row) {
        events := [Paused(status)];
        RunOne(old(Space()), Paused(status));
      }
    }

    /** Quota and generation refusals pause the skill; every other one is only reported. */
    method PauseRemoteBlocker(why: Refusal) returns (result: Upload, ghost events: seq<Event>)
      requires Valid()
      modifies this`row, this`agenda
      ensures Valid() && Space() == Run(old(Space()), events) && Quiet(old(Space()), events)
      ensures result in {Killed, Failed(LocalState), Failed(CodeOf(why))}
      ensures result == Failed(Code.QuotaExceeded) ==> why == Refusal.QuotaExceeded && row == old(row).(status := Quota)
      ensures old(agenda) == [] ==> Refuses(old(row), why, row, result)
      ensures why !in {Refusal.QuotaExceeded, GenerationConflict} ==> result == Failed(CodeOf(why)) && row == old(row)
    {
      match why {
        case QuotaExceeded =>
          result, events := Pause(Quota);
          if result.Uploaded? { result := Failed(Code.QuotaExceeded); }
        case GenerationConflict =>
          result, events := Pause(InConflict);
          if result.Uploaded? { result := Failed(LocalState); }
        case _ =>
          result, events := Failed(CodeOf(why)), [];
      }
    }

    method PersistWorkspaceConflict(saved: ContentConflict) returns (result: Upload, ghost events: seq<Event>)
      requires Valid()
      modifies this`row, this`agenda
      ensures Valid() && Space() == Run(old(Space()), events) && OrderlyRun(old(Space()), events)
      ensures Sound(old(Space()), ConflictSaved(saved)) ==> SoundRun(old(Space()), events)
      ensures !saved.resolutionRequired ==> AllTraffic(events)
      ensures result.Uploaded? ==>
                |saved.conflict.heads| == 2 && row == old(row).(conflict := Some(saved), status := InConflict)
      ensures result.Failed? ==> result.code == LocalState
      ensures old(agenda) == [] ==> agenda == [] && (result.Uploaded? <==> |saved.conflict.heads| == 2)
    {
      if |saved.conflict.heads| != 2 { return Failed(LocalState), []; }
      events := [];
      result := LandRow(row.(conflict := Some(saved)));
      if row != old(row) {
        events := [ConflictSaved(saved)];
        RunOne(old(Space()), ConflictSaved(saved));
        assert events[1..] == [];
      }
      if result.Uploaded? {
        ghost var last;
        ghost var now := Space();
        result, last := Pause(InConflict);
        TrafficIsOrderly(now, last);
        OrderlyAppend(old(Space()), events, last);
        RunAppend(old(Space()), events, last);
        if Sound(old(Space()), ConflictSaved(saved)) { SoundAppend(old(Space()), events, last); }
        events := events + last;
      }
    }

    /** One scan of this skill, found valid: settles a pause, or queues what the user saved. In
        a conflict that waits for the user it queues the resolution of the two heads; in one
        that is being merged it queues nothing. */
    method CaptureOne(author: AuthorId, op: OperationId) returns (queued: bool)
      requires Valid()
      modifies this`row
      ensures Valid() && Space() == Step(old(Space()), Captured(author, op))
      ensures queued <==> |row.records| > |old(row).records|
      ensures queued ==>
                row.validRoot == tree != old(row).validRoot && row.localHead == row.records[|row.records| - 1].revision
      ensures CaptureSays(old(row), row, tree, author, op)
    {
      hide CaptureSays, OperationsDistinct, Queue, Latest;
      ghost var captured := Capture(row, tree, author, op);
      CaptureCases(row, tree, author, op);
      CaptureKeepsDistinct(row, tree, author, op);
      if row.validRoot == tree {
        if row.status.PausedValidation? || row.status.PendingRename? { row := Resume(row); }
        return false;
      }
      var q := Queue(row.records);
      var rec;
      if row.status.InConflict? && row.conflict.Some? {
        var c := row.conflict.value;
        if q != [] || !c.resolutionRequired || tree == c.workingRoot { return false; }
        rec := Record(c.conflict.id, Hashed(tree, c.conflict.heads, author, c.conflict.id),
                      c.conflict.active, c.conflict.heads, c.conflict.generation, tree, true);
      } else {
        var generation, parent := row.baseGeneration, row.localHead;
        if q != [] {
          generation, parent := Latest(q).generation + 1, Latest(q).revision;
        }
        rec := Record(op, Hashed(tree, {parent}, author, op), parent, {parent}, generation, tree, true);
      }
      var next := Enqueue(row, rec);
      queued := next.Some?;
      if queued { row := next.value; }
    }

    method PrepareUpload(rec: Record) returns (stop: Option<Upload>, ghost events: seq<Event>)
      requires Valid()
      modifies this`row, this`registry, this`agenda
      ensures Valid() && Space() == Run(old(Space()), events) && Quiet(old(Space()), events)
      ensures stop.Some? ==> !stop.value.Uploaded?
      ensures stop.None? ==> PreparedAs(registry, rec, rec.revision) && row == old(row)
      ensures Still(First(old(agenda))) ==>
                var asked := Prepare(old(registry), RequestOf(rec));
                && registry == asked.0
                && (stop.None? <==> asked.1 == Accepted(rec.revision))
                && (stop.None? ==> agenda == Rest(old(agenda)))
                && (asked.1.Accepted? && asked.1.value != rec.revision ==>
                      stop == Some(Failed(LocalState)) && row == old(row))
                && (asked.1.Refused? && Rest(old(agenda)) == [] ==>
                      stop.Some? && Refuses(old(row), asked.1.why, row, stop.value))
    {
      var m := NextMoment();
      events := OthersAct(m);
      var asked, more := AskRegistry(rec, m);
      RunBoth(old(Space()), events, more, Space());
      events := events + more;
      match asked {
        case Lost(code) => stop := Some(Failed(code));
        case Gone => stop := Some(Killed);
        case Got(Refused(why)) =>
          var result, last := PauseRemoteBlocker(why);
          RunBoth(old(Space()), events, last, Space());
          stop, events := Some(result), events + last;
        case Got(Accepted(revision)) =>
          stop := if revision != rec.revision then Some(Failed(LocalState)) else None;
      }
    }

    /** The blobs the registry asked for; they leave no trace in its revision state. */
    method UploadBlobs() returns (stop: Option<Upload>)
      modifies this`agenda
      ensures stop.Some? ==> !stop.value.Uploaded?
      ensures Still(First(old(agenda))) ==> stop.None? && agenda == Rest(old(agenda))
    {
      var m := NextMoment();
      match m.weather {
        case Fine => stop := None;
        case Unreached(code) => stop := Some(Failed(code));
        case ReplyLost(code) => stop := Some(Failed(code));
        case _ => stop := Some(Killed);
      }
    }

    method FinishSynced(rec: Record, generation: nat) returns (result: Upload, ghost events: seq<Event>)
      requires Valid() && rec in row.records && OutcomeOf(registry, rec) == Some(Advanced(generation))
      modifies this`row, this`agenda
      ensures Valid() && UploadLeaves(old(Space()), rec, events, Space(), result)
      ensures result.Uploaded? ==> Landed(old(row), rec, row, registry)
      ensures old(agenda) == [] ==> result.Uploaded? && agenda == []
    {
      RecordIsHeld(row.records, rec);
      SyncedLeaves(Space(), rec, generation, Uploaded);
      var next := MarkSynced(row, rec.op, generation, rec.revision);
      result := LandRow(next);
      events := if row == next then [Synced(rec)] else [];
    }

    /** The save leaves the queue first; a failure after that leaves the conflict unrecorded. */
    method FinishDetached(rec: Record, conflict: Conflict) returns (result: Upload, ghost events: seq<Event>)
      requires Valid() && rec in row.records && OutcomeOf(registry, rec) == Some(Diverged(conflict))
      modifies this`row, this`agenda
      ensures Valid() && UploadLeaves(old(Space()), rec, events, Space(), result)
      ensures result.Uploaded? ==> Landed(old(row), rec, row, registry)
      ensures old(agenda) == [] ==> agenda == [] && (result.Uploaded? <==> |conflict.heads| == 2)
    {
      DetachedLeaves(Space(), rec, Uploaded);
      DivergedTreeIsPreserved(rec, registry);
      var next := MarkDetached(row, rec.op);
      result := LandRow(next);
      events := if row == next then [Detached(rec)] else [];
      if result.Uploaded? {
        ghost var last;
        ghost var now := Space();
        result, last := PersistWorkspaceConflict(ContentConflict(conflict, rec.root, false));
        LeavesThenTraffic(old(Space()), rec, events, now, last, result);
        events := events + last;
      }
    }

    method CommitUpload(rec: Record) returns (result: Upload, ghost events: seq<Event>)
      requires Valid() && rec in row.records && PreparedAs(registry, rec, rec.revision)
      modifies this`row, this`registry, this`agenda
      ensures Valid() && UploadLeaves(old(Space()), rec, events, Space(), result)
      ensures result.Uploaded? ==> Landed(old(row), rec, row, registry)
      ensures Still(First(old(agenda))) && Rest(old(agenda)) == [] ==>
                var sent := Commit(old(registry), RequestOf(rec), First(old(agenda)).quota, First(old(agenda)).newId);
                && registry == sent.0
                && (sent.1.Refused? ==> Refuses(old(row), sent.1.why, row, result))
                && (result.Uploaded? <==>
                      sent.1.Accepted? && (sent.1.value.Diverged? ==> |sent.1.value.conflict.heads| == 2))
                && (sent.1.Accepted? ==> OutcomeOf(registry, rec) == Some(sent.1.value))
                && (result.Uploaded? ==> agenda == [])
    {
      var m := NextMoment();
      events := OthersAct(m);
      var sent, more := SendRegistry(rec, m);
      RunBoth(old(Space()), events, more, Space());
      events := events + more;
      ghost var now := Space();
      ghost var last: seq<Event> := [];
      match sent {
        case Lost(code) =>
          result := Failed(code);
          TrafficLeaves(now, rec, last, result);
        case Gone =>
          result := Killed;
          TrafficLeaves(now, rec, last, result);
        case Got(Refused(why)) =>
          result, last := PauseRemoteBlocker(why);
          TrafficLeaves(now, rec, last, result);
        case Got(Accepted(Advanced(generation))) =>
          result, last := FinishSynced(rec, generation);
        case Got(Accepted(Diverged(conflict))) =>
          result, last := FinishDetached(rec, conflict);
      }
      TrafficThenLeaves(old(Space()), events, rec, last, Space(), result);
      events := events + last;
    }

    /** Uploads one save. Taken off the queue for good it leaves the skill synced, or paused with the
        conflict recorded. Undisturbed, a save whose head and generation are the registry's becomes
        the registry's head, as does the merge of its two heads; one behind the head is kept
        detached with a conflict of the two; one answered before is answered the same. */
    method UploadOne(rec: Record) returns (result: Upload, ghost events: seq<Event>)
      requires Valid() && rec in row.records
      modifies this`row, this`registry, this`agenda
      ensures Valid() && UploadLeaves(old(Space()), rec, events, Space(), result)
      ensures result.Uploaded? ==> Landed(old(row), rec, row, registry)
      ensures old(agenda) == [] ==>
                && CalmUpload(old(registry), rec, registry, result) && (result.Uploaded? ==> agenda == [])
                && CalmRefusal(old(registry), rec, old(row), row, result)
      ensures NoRoom(old(agenda)) && (Ready(old(registry), rec) || Behind(old(registry), rec)) ==>
                result == Failed(Code.QuotaExceeded) && row == old(row).(status := Quota)
    {
      hide Landed, CalmUpload, CalmRefusal, Ready, Behind, NoRoom;
      if NoRoom(agenda) { WithoutRoom(registry, rec, agenda); }
      ghost var calm := agenda == [];
      var stop;
      stop, events := PrepareUpload(rec);
      TrafficIsOrderly(old(Space()), events);
      if stop.None? {
        stop := UploadBlobs();
      }
      ghost var now := Space();
      if stop.Some? {
        result := stop.value;
        TrafficLeaves(old(Space()), rec, events, result);
      } else {
        ghost var last;
        result, last := CommitUpload(rec);
        TrafficThenLeaves(old(Space()), events, rec, last, Space(), result);
        events := events + last;
      }
      if calm {
        AnswersAreCalm(old(registry), rec, registry, result);
        RefusalsAreCalm(old(registry), rec, old(row), row, result);
      }
    }
  }

  // ----- the drain ---------------------------------------------------------------------------

  lemma {:induction false} RunEvolves(s: System, events: seq<Event>)
    requires RegistryOk(s.reg)
    ensures Evolves(s.reg, Run(s, events).reg)
    decreases |events|
  {
    if events != [] {
      StepKeepsRegistry(s, events[0]);
      RunEvolves(Step(s, events[0]), events[1..]);
    }
  }

  /** How far a drain has come with one skill. Of the queue rows it has `seen`, it uploaded
      `landed`, a front of them, all unless the skill is `stopped`; all of `landed` is kept by the
      registry; a chain stays a chain and has lost exactly the uploaded front, or one more
      entry whose conflict could not be recorded. */
  ghost predicate Progress(before: System, trail: seq<Event>, seen: seq<Record>, landed: seq<Record>, stopped: bool,
                           now: System) {
    && now == Run(before, trail)
    && landed <= seen && (!stopped ==> landed == seen)
    && (forall rec :: rec in landed ==> Kept(rec, now.reg))
    && (forall rec :: rec in before.ws.records && (forall other: Record :: other in seen ==> other.op != rec.op) ==>
        rec in now.ws.records)
    && (Chained(before) && seen <= Queue(before.ws.records) ==> Chained(now) && QueueLost(before, landed, stopped, now))
  }

  ghost predicate QueueLost(before: System, landed: seq<Record>, stopped: bool, now: System) {
    var q, left := Queue(before.ws.records), Queue(now.ws.records);
    && landed <= q
    && (left == q[|landed|..] || (stopped && |landed| < |q| && left == q[|landed| + 1..]))
  }

  lemma ProgressStarts(before: System)
    ensures Progress(before, [], [], [], false, before)
  {
  }

  /** A row of a stopped skill is passed over. */
  lemma ProgressSkips(before: System, trail: seq<Event>, seen: seq<Record>, landed: seq<Record>, now: System,
                      rec: Record)
    requires Progress(before, trail, seen, landed, true, now)
    ensures Progress(before, trail, seen + [rec], landed, true, now)
  {
    assert seen <= seen + [rec];
    forall r | r in before.ws.records && (forall other: Record :: other in seen + [rec] ==> other.op != r.op)
      ensures r in now.ws.records
    {
      forall other: Record | other in seen ensures other.op != r.op {
        assert other in seen + [rec];
      }
    }
    if seen + [rec] <= Queue(before.ws.records) {
      assert seen <= Queue(before.ws.records);
    }
  }

  lemma UploadKeepsOtherRows(before: System, seen: seq<Record>, now: System, rec: Record, events: seq<Event>,
                             after: System, result: Upload)
    requires UploadLeaves(now, rec, events, after, result)
    requires forall r :: r in before.ws.records && (forall other: Record :: other in seen ==> other.op != r.op) ==>
               r in now.ws.records
    ensures forall r ::
              r in before.ws.records && (forall other: Record :: other in seen + [rec] ==> other.op != r.op) ==>
                r in after.ws.records
  {
    forall r | r in before.ws.records && (forall other: Record :: other in seen + [rec] ==> other.op != r.op)
      ensures r in after.ws.records
    {
      forall other: Record | other in seen ensures other.op != r.op {
        assert other in seen + [rec];
      }
      assert rec in seen + [rec];
      var k :| 0 <= k < |now.ws.records| && now.ws.records[k] == r;
      assert after.ws.records[k] == r;
    }
  }

  /** An upload of the next row moves the skill on, or stops it. */
  lemma UploadKeepsChain(before: System, landed: seq<Record>, now: System, rec: Record, events: seq<Event>,
                         after: System, result: Upload)
    requires Chained(now) && QueueLost(before, landed, false, now)
    requires landed + [rec] <= Queue(before.ws.records)
    requires UploadLeaves(now, rec, events, after, result)
    ensures Chained(after)
    ensures QueueLost(before, if result.Uploaded? then landed + [rec] else landed, !result.Uploaded?, after)
  {
    var q, left := Queue(before.ws.records), Queue(now.ws.records);
    assert q[|landed|] == (landed + [rec])[|landed|];
    assert left[0] == rec;
    QueueStaysChained(now, events);
    UnqueueFirst(now.ws.records);
    assert q[|landed|..][1..] == q[|landed| + 1..];
  }

  lemma ProgressUploads(before: System, trail: seq<Event>, seen: seq<Record>, landed: seq<Record>, now: System,
                        rec: Record,
                        events: seq<Event>, after: System, result: Upload)
    requires Progress(before, trail, seen, landed, false, now) && RegistryOk(now.reg)
    requires UploadLeaves(now, rec, events, after, result)
    ensures Progress(before, trail + events, seen + [rec], if result.Uploaded? then landed + [rec] else landed,
                     !result.Uploaded?, after)
  {
    RunAppend(before, trail, events);
    RunEvolves(now, events);
    forall r | r in seen ensures Kept(r, after.reg) {
      KeptForGood(r, now.reg, after.reg);
    }
    UploadKeepsOtherRows(before, seen, now, rec, events, after, result);
    if Chained(before) && seen + [rec] <= Queue(before.ws.records) {
      assert seen <= Queue(before.ws.records);
      UploadKeepsChain(before, seen, now, rec, events, after, result);
    }
  }

  /** What the query lists for one skill. */
  function Snapshot(row: Workspace): seq<Record> {
    ByGeneration(Queue(row.records))
  }

  lemma SnapshotRows(row: Workspace, rec: Record)
    requires rec in Snapshot(row)
    ensures rec in row.records
  {
    QueryKeepsSaves(Queue(row.records));
    assert rec in multiset(Snapshot(row));
    assert rec in multiset(Queue(row.records));
    QueueMembers(row.records, rec);
  }

  lemma {:induction false} InsertDistinct(q: seq<Record>, rec: Record)
    requires OperationsDistinct(q)
    requires forall r :: r in q ==> r.op != rec.op && r.revision != rec.revision
    ensures OperationsDistinct(InsertByGeneration(q, rec))
    ensures forall r :: r in InsertByGeneration(q, rec) <==> r in q || r == rec
    decreases |q|
  {
    if q == [] || q[|q| - 1].generation <= rec.generation {
      DistinctSnoc(q, rec);
    } else {
      var n := |q| - 1;
      DistinctFront(q);
      InsertDistinct(q[..n], rec);
      DistinctSnoc(InsertByGeneration(q[..n], rec), q[n]);
      assert q == q[..n] + [q[n]];
    }
  }

  lemma {:induction false} SortDistinct(q: seq<Record>)
    requires OperationsDistinct(q)
    ensures OperationsDistinct(ByGeneration(q))
    ensures forall r :: r in ByGeneration(q) <==> r in q
    decreases |q|
  {
    if q != [] {
      var n := |q| - 1;
      DistinctFront(q);
      SortDistinct(q[..n]);
      InsertDistinct(ByGeneration(q[..n]), q[n]);
      assert q == q[..n] + [q[n]];
    }
  }

  /** The query lists every queued save once. */
  lemma SnapshotDistinct(row: Workspace)
    requires OperationsDistinct(row.records)
    ensures OperationsDistinct(Snapshot(row))
  {
    QueueDistinct(row.records);
    SortDistinct(Queue(row.records));
  }

  /** The next row of a skill is still recorded: the rows before it are other saves. */
  lemma NextRowRecorded(before: System, trail: seq<Event>, seen: seq<Record>, landed: seq<Record>, rest: seq<Record>,
                        rec: Record, now: System)
    requires OperationsDistinct(before.ws.records) && Snapshot(before.ws) == seen + [rec] + rest
    requires Progress(before, trail, seen, landed, false, now)
    ensures rec in now.ws.records
  {
    var list := seen + [rec] + rest;
    assert list[|seen|] == rec;
    SnapshotRows(before.ws, rec);
    SnapshotDistinct(before.ws);
    forall other: Record | other in seen ensures other.op != rec.op {
      var k :| 0 <= k < |seen| && seen[k] == other;
      assert list[k] == other;
    }
  }

  /** Codes that stop the skill they come from and no other. */
  ghost predicate StopOneSkill(codes: seq<Code>) {
    forall code :: code in codes ==> code in {Code.QuotaExceeded, ContentVerification, LocalState}
  }

  lemma NoCodes()
    ensures StopOneSkill([])
  {
  }

  lemma OneMore(codes: seq<Code>, code: Code)
    ensures StopOneSkill(codes) && Blocks(code) ==> StopOneSkill(codes + [code])
    ensures StopOneSkill([code]) <==> Blocks(code)
  {
    assert code in [code];
  }

  /** The account of one drain: the steps taken for each skill, the rows reached, those
      uploaded, and the skills that stopped. */
  datatype Ledger = Ledger(trails: map<ResourceId, seq<Event>>, seen: seq<Row>, landed: seq<Row>,
                           stopped: set<ResourceId>)

  ghost function Book(ledger: Ledger, row: Row, events: seq<Event>, result: Upload): Ledger
    requires row.id in ledger.trails
  {
    Ledger(ledger.trails[row.id := ledger.trails[row.id] + events], ledger.seen + [row],
           if result.Uploaded? then ledger.landed + [row] else ledger.landed,
           if result.Uploaded? then ledger.stopped else ledger.stopped + {row.id})
  }

  /** The progress of every skill of the account. */
  ghost predicate AllProgress(before: map<ResourceId, System>, ledger: Ledger, now: map<ResourceId, System>) {
    && before.Keys == ledger.trails.Keys == now.Keys
    && forall id :: id in before ==>
         Progress(before[id], ledger.trails[id], Of(ledger.seen, id), Of(ledger.landed, id), id in ledger.stopped,
                  now[id])
  }

  lemma AllStart(before: map<ResourceId, System>)
    ensures AllProgress(before, Ledger(map id | id in before :: [], [], [], {}), before)
  {
    forall id | id in before ensures Progress(before[id], [], [], [], false, before[id]) {
      ProgressStarts(before[id]);
    }
  }

  lemma AllSkip(before: map<ResourceId, System>, ledger: Ledger, now: map<ResourceId, System>, row: Row)
    requires AllProgress(before, ledger, now) && row.id in ledger.stopped
    ensures AllProgress(before, ledger.(seen := ledger.seen + [row]), now)
    ensures ledger.stopped == ledger.stopped + {row.id}
  {
    forall id | id in before
      ensures Progress(before[id], ledger.trails[id], Of(ledger.seen + [row], id), Of(ledger.landed, id),
                       id in ledger.stopped, now[id])
    {
      OfSnoc(ledger.seen, row, id);
      if id == row.id {
        ProgressSkips(before[id], ledger.trails[id], Of(ledger.seen, id), Of(ledger.landed, id), now[id], row.rec);
      }
    }
  }

  lemma AllUpload(before: map<ResourceId, System>, ledger: Ledger, now: map<ResourceId, System>, row: Row,
                  events: seq<Event>, after: System, result: Upload)
    requires AllProgress(before, ledger, now) && row.id in before && row.id in ledger.trails && row.id in now
    requires row.id !in ledger.stopped && RegistryOk(now[row.id].reg)
    requires UploadLeaves(now[row.id], row.rec, events, after, result)
    ensures AllProgress(before, Book(ledger, row, events, result), now[row.id := after])
  {
    hide Progress, UploadLeaves, Of, Run, RegistryOk;
    var ledger1, now1 := Book(ledger, row, events, result), now[row.id := after];
    forall id | id in before
      ensures Progress(before[id], ledger1.trails[id], Of(ledger1.seen, id), Of(ledger1.landed, id),
                       id in ledger1.stopped, now1[id])
    {
      OfSnoc(ledger.seen, row, id);
      OfSnoc(ledger.landed, row, id);
      if id == row.id {
        ProgressUploads(before[id], ledger.trails[id], Of(ledger.seen, id), Of(ledger.landed, id), now[id], row.rec,
                        events, after, result);
      }
    }
  }

  lemma RowIsNext(queued: seq<Row>, i: nat)
    requires i < |queued|
    ensures var id := queued[i].id;
            Of(queued, id) == Of(queued[..i], id) + [queued[i].rec] + Of(queued[i + 1..], id)
  {
    SplitAt(queued, i);
    OfSplit(queued[..i], queued[i], queued[i + 1..]);
  }

  lemma SplitAt(queued: seq<Row>, i: nat)
    requires i < |queued|
    ensures queued == (queued[..i] + [queued[i]]) + queued[i + 1..]
  {
  }

  lemma OfSplit(front: seq<Row>, row: Row, rest: seq<Row>)
    ensures Of((front + [row]) + rest, row.id) == Of(front, row.id) + [row.rec] + Of(rest, row.id)
  {
    hide Of;
    OfAppend(front + [row], rest, row.id);
    OfSnoc(front, row, row.id);
  }

  /** Every queue as the query lists it, skill by skill. */
  ghost predicate Lists(queued: seq<Row>, before: map<ResourceId, System>) {
    forall id :: Of(queued, id) == if id in before then Snapshot(before[id].ws) else []
  }

  ghost predicate RecordedOnce(spaces: map<ResourceId, System>) {
    forall id :: id in spaces ==> OperationsDistinct(spaces[id].ws.records)
  }

  /** Of every queue, a front. */
  ghost predicate ListsFronts(seen: seq<Row>, before: map<ResourceId, System>) {
    forall id :: id in before ==> Of(seen, id) <= Snapshot(before[id].ws)
  }

  /** The next row of a skill that has not stopped is still recorded. */
  lemma RowRecorded(queued: seq<Row>, i: nat, before: map<ResourceId, System>, ledger: Ledger,
                    now: map<ResourceId, System>)
    requires i < |queued| && ledger.seen == queued[..i] && AllProgress(before, ledger, now)
    requires Lists(queued, before)
    requires RecordedOnce(before)
    ensures queued[i].id in before && queued[i].id in ledger.trails && queued[i].id in now
    ensures queued[i].id !in ledger.stopped ==> queued[i].rec in now[queued[i].id].ws.records
  {
    hide Progress, Of, Snapshot, OperationsDistinct;
    var id, rec := queued[i].id, queued[i].rec;
    RowIsNext(queued, i);
    assert id in before;
    if id !in ledger.stopped {
      NextRowRecorded(before[id], ledger.trails[id], Of(queued[..i], id), Of(ledger.landed, id),
                      Of(queued[i + 1..], id), rec, now[id]);
    }
  }

  /** A skill that did not stop, when the pass has been over its whole queue, has nothing left
      to upload, and the registry keeps every save that was queued. */
  lemma UnstoppedIsDrained(before: System, trail: seq<Event>, landed: seq<Record>, now: System)
    requires Chained(before) && Progress(before, trail, Snapshot(before.ws), landed, false, now)
    ensures Queue(now.ws.records) == [] && Chained(now)
    ensures forall rec :: rec in Queue(before.ws.records) ==> Kept(rec, now.reg)
  {
    ChainIsInQueryOrder(Queue(before.ws.records));
  }

  /** A skill that stopped keeps the rest of its chain, in order, behind what was uploaded. */
  lemma StoppedKeepsTheRest(before: System, trail: seq<Event>, seen: seq<Record>, landed: seq<Record>, now: System)
    requires Chained(before) && seen <= Snapshot(before.ws) && Progress(before, trail, seen, landed, true, now)
    ensures Chained(now)
    ensures exists k :: |landed| <= k <= |landed| + 1 && k <= |Queue(before.ws.records)|
                        && Queue(now.ws.records) == Queue(before.ws.records)[k..]
  {
    ChainIsInQueryOrder(Queue(before.ws.records));
    hide Chained, Queue, Run, Straight;
    assert QueueLost(before, landed, true, now);
    var q, left := Queue(before.ws.records), Queue(now.ws.records);
    var k := if left == q[|landed|..] then |landed| else |landed| + 1;
    assert left == q[k..];
  }

  class Device {
    var skills: map<ResourceId, Skill>

    ghost predicate Valid()
      reads this, skills.Values
    {
      && (forall id :: id in skills ==> skills[id].Valid())
      && forall i, j :: i in skills && j in skills && i != j ==> skills[i] != skills[j]
    }

    /** Nothing unusual will happen around any skill. */
    ghost predicate AllCalm()
      reads this, skills.Values
    {
      forall id :: id in skills ==> skills[id].agenda == []
    }

    ghost function Spaces(): map<ResourceId, System>
      reads this, skills.Values
    {
      map id | id in skills :: skills[id].Space()
    }

    constructor (skills: map<ResourceId, Skill>)
      requires forall id :: id in skills ==> skills[id].Valid()
      requires forall i, j :: i in skills && j in skills && i != j ==> skills[i] != skills[j]
      ensures Valid() && this.skills == skills
    {
      this.skills := skills;
    }

    method QueuedLocalRevisions() returns (queued: seq<Row>)
      requires Valid()
      ensures Lists(queued, Spaces()) && RecordedOnce(Spaces())
    {
      var rows := map id | id in skills :: skills[id].row;
      var ids := Ascending(skills.Keys);
      queued := QueuedRows(ids, rows);
      forall id ensures Of(queued, id) == if id in Spaces() then Snapshot(Spaces()[id].ws) else [] {
        QueryListsEachQueue(ids, rows, id);
      }
    }

    method UploadRow(row: Row) returns (result: Upload, ghost events: seq<Event>)
      requires Valid() && row.id in skills && row.rec in skills[row.id].row.records
      modifies skills[row.id]
      ensures Valid() && Spaces() == old(Spaces())[row.id := skills[row.id].Space()]
      ensures UploadLeaves(old(skills[row.id].Space()), row.rec, events, skills[row.id].Space(), result)
      ensures old(skills[row.id].agenda) == [] && NextInLine(old(skills[row.id].Space()), row.rec) ==>
                && result.Uploaded? && skills[row.id].agenda == []
                && GoesOn(old(skills[row.id].Space()), skills[row.id].Space())
    {
      hide UploadLeaves, RegistryOk, OperationsDistinct, Landed, CalmUpload, NextInLine, GoesOn;
      ghost var was := skills[row.id].Space();
      result, events := skills[row.id].UploadOne(row.rec);
      if old(skills[row.id].agenda) == [] && NextInLine(was, row.rec) {
        NextGoesOn(was, row.rec, skills[row.id].Space(), result);
      }
    }

    /** The next row: passed over if its skill has stopped, else uploaded. */
    method DrainRow(row: Row, blocked: bool, ghost before: map<ResourceId, System>, ghost ledger: Ledger)
      returns (result: Option<Upload>, ghost next: Ledger)
      requires Valid() && AllProgress(before, ledger, Spaces()) && row.id in skills && row.id in ledger.trails
      requires blocked == (row.id in ledger.stopped)
      requires !blocked ==> row.rec in skills[row.id].row.records
      modifies skills[row.id]
      ensures Valid() && AllProgress(before, next, Spaces())
      ensures next.seen == ledger.seen + [row] && (result.None? <==> blocked)
      ensures next.landed == if result == Some(Uploaded) then ledger.landed + [row] else ledger.landed
      ensures next.stopped == if result == Some(Uploaded) then ledger.stopped else ledger.stopped + {row.id}
      ensures !blocked && old(AllCalm()) && NextInLine(old(Spaces())[row.id], row.rec) ==>
                && result == Some(Uploaded) && AllCalm() && Spaces() == old(Spaces())[row.id := Spaces()[row.id]]
                && GoesOn(old(Spaces())[row.id], Spaces()[row.id])
    {
      hide NextInLine, GoesOn, Progress, UploadLeaves, Of, Run, RegistryOk, OperationsDistinct, AllProgress;
      ghost var now := Spaces();
      if blocked {
        AllSkip(before, ledger, now, row);
        return None, ledger.(seen := ledger.seen + [row]);
      }
      assert RegistryOk(now[row.id].reg);
      var upload, events := UploadRow(row);
      assert row.id in before by { AllKeys(before, ledger, now); }
      AllUpload(before, ledger, now, row, events, Spaces()[row.id], upload);
      result, next := Some(upload), Book(ledger, row, events, upload);
    }

    /** Row `i` of the query. */
    method DrainNext(queued: seq<Row>, i: nat, blocked: set<ResourceId>, ghost before: map<ResourceId, System>,
                     ghost ledger: Ledger)
      returns (result: Option<Upload>, ghost next: Ledger)
      requires Valid() && AllProgress(before, ledger, Spaces()) && i < |queued| && Lists(queued, before)
      requires ledger.seen == queued[..i] && ledger.stopped == blocked
      requires RecordedOnce(before)
      modifies skills.Values
      ensures Valid() && AllProgress(before, next, Spaces())
      ensures next.seen == queued[..i + 1] && (result.None? <==> queued[i].id in blocked)
      ensures next.landed == if result == Some(Uploaded) then ledger.landed + [queued[i]] else ledger.landed
      ensures next.stopped == if result == Some(Uploaded) then blocked else blocked + {queued[i].id}
      ensures blocked == {} && old(AllCalm()) && AllInLine(queued[i..], old(Spaces())) ==>
                result == Some(Uploaded) && AllCalm() && AllInLine(queued[i + 1..], Spaces())
    {
      hide AllInLine, GoesOn, NextInLine, Progress, UploadLeaves, Of, Snapshot, Run, RegistryOk, AllProgress, Lists,
          OperationsDistinct;
      RowRecorded(queued, i, before, ledger, Spaces());
      assert queued[..i + 1] == queued[..i] + [queued[i]];
      ghost var now := Spaces();
      ghost var calm := blocked == {} && AllCalm() && AllInLine(queued[i..], now);
      if calm { RowIsInLine(queued, i, now); }
      result, next := DrainRow(queued[i], queued[i].id in blocked, before, ledger);
      if calm { AllGoOn(queued, i, now, Spaces()[queued[i].id]); }
    }

    /** Uploads every queue in the query's order. A skill stops at its first blocker, without
        holding up any other; any other error ends the whole pass. */
    method DrainQueuedRevisions() returns (result: Drain, ghost ledger: Ledger)
      requires Valid()
      modifies skills.Values
      ensures Valid() && AllProgress(old(Spaces()), ledger, Spaces())
      ensures ListsFronts(ledger.seen, old(Spaces()))
      ensures result.Drained? ==>
                && Lists(ledger.seen, old(Spaces()))
                && result.uploaded == |ledger.landed| && |result.blockers| == |ledger.stopped|
                && StopOneSkill(result.blockers)
      ensures old(AllCalm()) && EachInLine(old(Spaces())) ==>
                result == Drained(|ledger.seen|, []) && NothingQueued(Spaces())
      ensures result.Aborted? ==> !StopOneSkill([result.code])
    {
      hide Progress, UploadLeaves, Of, Snapshot, Run, RegistryOk, OperationsDistinct, AllProgress, Lists, ListsFronts,
        AllInLine, EachInLine, NothingQueued, InLine, Queue, AllCalm, StopOneSkill, Blocks,
        RecordedOnce, Valid, Spaces;
      NoCodes();
      ghost var before := Spaces();
      var queued := QueuedLocalRevisions();
      AllStartInLine(queued, before);
      ghost var calm := AllCalm() && AllInLine(queued, before);
      assert queued[0..] == queued;
      var uploaded, blockers, blocked := 0, [], {};
      ledger := Ledger(map id | id in before :: [], [], [], {});
      AllStart(before);
      FrontsOf(queued, before);
      for i := 0 to |queued|
        invariant Valid() && AllProgress(before, ledger, Spaces())
        invariant ledger.seen == queued[..i] && ledger.stopped == blocked
        invariant uploaded == |ledger.landed| && |blockers| == |blocked|
        invariant StopOneSkill(blockers)
        invariant calm ==> blocked == {} && |ledger.landed| == i && AllCalm() && AllInLine(queued[i..], Spaces())
      {
        var row := queued[i];
        var upload;
        upload, ledger := DrainNext(queued, i, blocked, before, ledger);
        match upload {
          case None =>
            assert blocked + {row.id} == blocked;
          case Some(Uploaded) =>
            uploaded := uploaded + 1;
          case Some(Failed(code)) =>
            OneMore(blockers, code);
            if !Blocks(code) { return Aborted(code), ledger; }
            blocked := blocked + {row.id};
            blockers := blockers + [code];
          case Some(Killed) =>
            return DrainKilled, ledger;
        }
      }
      assert queued[..|queued|] == queued && queued[|queued|..] == [];
      if calm { NothingInLine(Spaces()); }
      result := Drained(uploaded, blockers);
    }
  }

  ghost predicate NextInLine(s: System, rec: Record) {
    Queue(s.ws.records) != [] && rec == Queue(s.ws.records)[0] && InLine(s.reg, Queue(s.ws.records))
  }

  ghost predicate GoesOn(was: System, now: System) {
    var q := Queue(was.ws.records);
    q != [] && Queue(now.ws.records) == q[1..] && InLine(now.reg, q[1..])
  }

  lemma NextGoesOn(was: System, rec: Record, now: System, result: Upload)
    requires NextInLine(was, rec) && OperationsDistinct(was.ws.records) && CalmUpload(was.reg, rec, now.reg, result)
    requires result.Uploaded? ==> Landed(was.ws, rec, now.ws, now.reg)
    ensures result.Uploaded? && GoesOn(was, now)
  {
    InLineGoesOn(was, now, result);
  }

  ghost predicate EachInLine(spaces: map<ResourceId, System>) {
    forall id :: id in spaces ==> InLine(spaces[id].reg, Queue(spaces[id].ws.records))
  }

  ghost predicate NothingQueued(spaces: map<ResourceId, System>) {
    forall id :: id in spaces ==> Queue(spaces[id].ws.records) == []
  }

  /** What is left of the list is every skill's queue, in line at its registry. */
  ghost predicate AllInLine(rest: seq<Row>, now: map<ResourceId, System>) {
    forall id :: id in now ==> Queue(now[id].ws.records) == Of(rest, id) && InLine(now[id].reg, Of(rest, id))
  }

  lemma RowIsInLine(queued: seq<Row>, i: nat, now: map<ResourceId, System>)
    requires i < |queued| && AllInLine(queued[i..], now) && queued[i].id in now
    ensures NextInLine(now[queued[i].id], queued[i].rec)
  {
    OfFirst(queued, i, queued[i].id);
  }

  lemma OfFirst(queued: seq<Row>, i: nat, id: ResourceId)
    requires i < |queued|
    ensures Of(queued[i..], id) == (if queued[i].id == id then [queued[i].rec] else []) + Of(queued[i + 1..], id)
  {
    assert queued[i..] == [queued[i]] + queued[i + 1..];
    OfAppend([queued[i]], queued[i + 1..], id);
    assert [queued[i]][..0] == [];
  }

  lemma AllGoOn(queued: seq<Row>, i: nat, now: map<ResourceId, System>, after: System)
    requires i < |queued| && AllInLine(queued[i..], now) && queued[i].id in now
    requires GoesOn(now[queued[i].id], after)
    ensures AllInLine(queued[i + 1..], now[queued[i].id := after])
  {
    hide Of, InLine, Queue;
    forall id | id in now
      ensures var s := now[queued[i].id := after][id];
              Queue(s.ws.records) == Of(queued[i + 1..], id) && InLine(s.reg, Of(queued[i + 1..], id))
    {
      OfFirst(queued, i, id);
      if id == queued[i].id {
        assert Queue(after.ws.records) == Of(queued[i..], id)[1..];
      } else {
        assert [] + Of(queued[i + 1..], id) == Of(queued[i + 1..], id);
      }
    }
  }

  lemma AllStartInLine(queued: seq<Row>, before: map<ResourceId, System>)
    requires Lists(queued, before)
    ensures EachInLine(before) ==> AllInLine(queued, before)
  {
    hide Of, Queue;
    forall id | id in before && InLine(before[id].reg, Queue(before[id].ws.records))
      ensures Queue(before[id].ws.records) == Of(queued, id)
    {
      ChainIsInQueryOrder(Queue(before[id].ws.records));
    }
  }

  lemma NothingInLine(now: map<ResourceId, System>)
    requires AllInLine([], now)
    ensures NothingQueued(now)
  {
  }

  lemma AllKeys(before: map<ResourceId, System>, ledger: Ledger, now: map<ResourceId, System>)
    requires AllProgress(before, ledger, now)
    ensures before.Keys == ledger.trails.Keys == now.Keys
  {
  }

  /** Any front of the list is a front of every queue. */
  lemma FrontsOf(queued: seq<Row>, before: map<ResourceId, System>)
    requires Lists(queued, before)
    ensures forall n :: 0 <= n <= |queued| ==> ListsFronts(queued[..n], before)
  {
    hide Of, Snapshot;
    forall n, id | 0 <= n <= |queued| && id in before ensures Of(queued[..n], id) <= Snapshot(before[id].ws) {
      FrontOf(queued, n, id);
    }
  }

  lemma FrontOf(queued: seq<Row>, n: nat, id: ResourceId)
    requires n <= |queued|
    ensures Of(queued[..n], id) <= Of(queued, id)
  {
    OfAppend(queued[..n], queued[n..], id);
    assert queued == queued[..n] + queued[n..];
  }
}
