/** Promoting a local fork: its history is replayed to the registry one revision at a time,
    with the operation ids it was made with, and a last revision renames it when needed. */
module ForkPromotion {
  import opened Basics
  import opened WorkspaceModel
  import opened ForkHistory

  type Name = nat

  /** What a tree says about itself: its declared name, and the same tree under another one. */
  datatype Content = Content(nameOf: TreeId -> Name, renamed: (TreeId, Name) -> TreeId)

  /** A renamed tree declares the name it was given. */
  ghost predicate RenamesWell(content: Content) {
    forall tree, name :: content.nameOf(content.renamed(tree, name)) == name
  }

  datatype Fork = Fork(id: OperationId, upstream: RevisionId, name: Name, records: seq<Record>)

  /** The principals a local revision may have been made by. */
  datatype Authors = Authors(installation: AuthorId, user: Option<AuthorId>)

  datatype Call =
    | Import(op: OperationId, name: Name, root: TreeId, author: AuthorId, upstream: RevisionId,
             promotionHead: Option<RevisionId>, historical: Option<Name>)
    | Revise(op: OperationId, generation: nat, head: RevisionId, parents: set<RevisionId>, root: TreeId,
             author: AuthorId, historical: Option<Name>)

  function RevisionOf(call: Call): RevisionId {
    match call
    case Import(op, _, root, author, upstream, _, _) => Hashed(root, {upstream}, author, op)
    case Revise(op, _, _, parents, root, author, _) => Hashed(root, parents, author, op)
  }

  // ----- the registry ------------------------------------------------------------------------

  /** One operation: the call it was made with, and the generation it committed at. */
  datatype Entry = Entry(call: Call, done: Option<nat>)

  /** The resource the fork becomes: its revisions so far, and whether its promotion is still
      pending, which hides it from every other device. */
  datatype Site = Site(chain: seq<RevisionId>, pending: bool, promotionHead: Option<RevisionId>,
                       operations: map<OperationId, Entry>)

  datatype Answer = Revision(id: RevisionId) | Committed(id: RevisionId, generation: nat) | Split | Denied(why: Refusal)

  predicate PreparedImport(site: Site, op: OperationId) {
    op in site.operations && site.operations[op].call.Import? && site.operations[op].done.None?
  }

  /** Checks on a call that is not yet known. */
  function Admit(site: Site, call: Call): Option<Refusal> {
    match call
    case Import(_, _, _, _, _, _, _) =>
      if site.chain != [] then Some(GenerationConflict)
      else if exists op | op in site.operations :: PreparedImport(site, op) then Some(OperationConflict)
      else None
    case Revise(_, generation, head, parents, _, _, historical) =>
      if site.chain == [] then Some(NotFound)
      else if historical.Some? && !site.pending then Some(InvalidRequest)
      else if |parents| !in {1, 2} || head !in parents then Some(InvalidRequest)
      else if site.chain[|site.chain| - 1] == head then
        if generation != |site.chain| || |parents| == 2 then Some(GenerationConflict) else None
      else if |parents| != 1 || head !in site.chain then Some(GenerationConflict)
      else None
  }

  function PrepareCall(site: Site, call: Call): (Site, Answer) {
    if call.op in site.operations then
      if site.operations[call.op].call == call then (site, Revision(RevisionOf(call)))
      else (site, Denied(OperationConflict))
    else match Admit(site, call)
      case Some(why) => (site, Denied(why))
      case None => (site.(operations := site.operations[call.op := Entry(call, None)]), Revision(RevisionOf(call)))
  }

  function Append(site: Site, call: Call): Site {
    var revision, generation := RevisionOf(call), |site.chain| + 1;
    site.(chain := site.chain + [revision],
          promotionHead := if call.Import? then call.promotionHead else site.promotionHead,
          pending := if call.Import? then call.promotionHead.Some? && call.promotionHead != Some(revision)
                     else site.pending && site.promotionHead != Some(revision),
          operations := site.operations[call.op := Entry(call, Some(generation))])
  }

  function CommitCall(site: Site, call: Call): (Site, Answer) {
    if call.op !in site.operations then (site, Denied(NotFound))
    else if site.operations[call.op].call != call then (site, Denied(OperationConflict))
    else match site.operations[call.op].done
      case Some(generation) => (site, Committed(RevisionOf(call), generation))
      case None =>
        if call.Import? then
          if site.chain != [] then (site, Denied(GenerationConflict))
          else (Append(site, call), Committed(RevisionOf(call), 1))
        else if site.chain == [] then (site, Denied(NotFound))
        else if call.historical.Some? && !site.pending then (site, Denied(InvalidRequest))
        else if site.chain[|site.chain| - 1] != call.head then (site, Split)
        else if call.generation != |site.chain| then (site, Denied(GenerationConflict))
        else (Append(site, call), Committed(RevisionOf(call), |site.chain| + 1))
  }

  // ----- the plan ------------------------------------------------------------------------------

  /** The calls a promotion makes: one chain, with distinct operations, whose import names its
      last revision as the promotion's head. */
  ghost predicate GoodPlan(calls: seq<Call>) {
    && calls != [] && calls[0].Import?
    && (forall i :: 0 < i < |calls| ==>
          calls[i].Revise? && calls[i].generation == i && calls[i].head == RevisionOf(calls[i - 1])
              && calls[i].parents == {calls[i].head})
    && (forall i, j :: 0 <= i < j < |calls| ==>
        calls[i].op != calls[j].op && RevisionOf(calls[i]) != RevisionOf(calls[j]))
    && calls[0].promotionHead == Some(RevisionOf(calls[|calls| - 1]))
  }

  function RevisionsOf(calls: seq<Call>): seq<RevisionId> {
    seq(|calls|, i requires 0 <= i < |calls| => RevisionOf(calls[i]))
  }

  /** The operation is one of the first `k` calls, or the next one, prepared. */
  ghost predicate IsOurs(site: Site, calls: seq<Call>, k: nat, op: OperationId)
    requires op in site.operations
  {
    exists i :: 0 <= i < |calls| && calls[i].op == op
        && (i < k || (i == k && site.operations[op] == Entry(calls[i], None)))
  }

  ghost predicate CommittedAt(site: Site, calls: seq<Call>, i: nat)
    requires i < |calls|
  {
    calls[i].op in site.operations && site.operations[calls[i].op] == Entry(calls[i], Some(i + 1))
  }

  /** The registry holds exactly the first `k` calls of the plan, committed in order, and
      perhaps the next one prepared. */
  ghost predicate HoldsFirst(site: Site, calls: seq<Call>, k: nat) {
    && k <= |calls| && site.chain == RevisionsOf(calls[..k])
    && site.pending == (0 < k < |calls|)
    && (0 < k ==> site.promotionHead == Some(RevisionOf(calls[|calls| - 1])))
    && (forall i :: 0 <= i < k ==> CommittedAt(site, calls, i))
    && (forall op :: op in site.operations ==> IsOurs(site, calls, k, op))
  }

  lemma RevisionsSnoc(calls: seq<Call>, k: nat)
    requires k < |calls|
    ensures RevisionsOf(calls[..k + 1]) == RevisionsOf(calls[..k]) + [RevisionOf(calls[k])]
  {
  }

  /** A call of the committed part is answered as it was the first time, and changes nothing. */
  lemma CommittedCallsReplay(site: Site, calls: seq<Call>, k: nat, i: nat)
    requires GoodPlan(calls) && HoldsFirst(site, calls, k) && i < k
    ensures PrepareCall(site, calls[i]) == (site, Revision(RevisionOf(calls[i])))
    ensures CommitCall(site, calls[i]) == (site, Committed(RevisionOf(calls[i]), i + 1))
  {
    assert CommittedAt(site, calls, i);
  }

  /** The next call can be prepared, whether or not it has been before. */
  lemma NextCallPrepares(site: Site, calls: seq<Call>, k: nat)
    requires GoodPlan(calls) && HoldsFirst(site, calls, k) && k < |calls|
    ensures var (next, answer) := PrepareCall(site, calls[k]);
            answer == Revision(RevisionOf(calls[k])) && HoldsFirst(next, calls, k)
            && calls[k].op in next.operations && next.operations[calls[k].op] == Entry(calls[k], None)
  {
    var call := calls[k];
    if call.op in site.operations {
      assert IsOurs(site, calls, k, call.op);
    } else {
      NextCallAdmitted(site, calls, k);
      var next := PrepareCall(site, call).0;
      forall i | 0 <= i < k ensures CommittedAt(next, calls, i) {
        assert CommittedAt(site, calls, i);
      }
      forall op | op in next.operations ensures IsOurs(next, calls, k, op) {
        if op == call.op {
          assert calls[k].op == op && next.operations[op] == Entry(calls[k], None);
        } else {
          assert IsOurs(site, calls, k, op);
        }
      }
    }
  }

  lemma LastOfChain(site: Site, calls: seq<Call>, k: nat)
    requires HoldsFirst(site, calls, k) && 0 < k
    ensures |site.chain| == k && site.chain[k - 1] == RevisionOf(calls[k - 1])
  {
    RevisionsSnoc(calls, k - 1);
  }

  lemma NextCallAdmitted(site: Site, calls: seq<Call>, k: nat)
    requires GoodPlan(calls) && HoldsFirst(site, calls, k) && k < |calls| && calls[k].op !in site.operations
    ensures Admit(site, calls[k]) == None
  {
    if k > 0 {
      LastOfChain(site, calls, k);
    } else {
      if op :| op in site.operations { OnlyTheFirst(site, calls, op); }
    }
  }

  lemma OnlyTheFirst(site: Site, calls: seq<Call>, op: OperationId)
    requires HoldsFirst(site, calls, 0) && op in site.operations
    ensures calls != [] && op == calls[0].op
  {
    assert IsOurs(site, calls, 0, op);
  }

  /** And committed, which makes it the next revision of the chain. */
  lemma NextCallCommits(site: Site, calls: seq<Call>, k: nat)
    requires GoodPlan(calls) && HoldsFirst(site, calls, k) && k < |calls|
    requires calls[k].op in site.operations && site.operations[calls[k].op] == Entry(calls[k], None)
    ensures var (next, answer) := CommitCall(site, calls[k]);
            answer == Committed(RevisionOf(calls[k]), k + 1) && HoldsFirst(next, calls, k + 1)
  {
    if k > 0 { LastOfChain(site, calls, k); }
    assert |site.chain| == k;
    AppendHolds(site, calls, k);
  }

  lemma AppendHolds(site: Site, calls: seq<Call>, k: nat)
    requires GoodPlan(calls) && HoldsFirst(site, calls, k) && k < |calls|
    ensures HoldsFirst(Append(site, calls[k]), calls, k + 1)
  {
    var next := Append(site, calls[k]);
    RevisionsSnoc(calls, k);
    forall i | 0 <= i < k + 1 ensures CommittedAt(next, calls, i) {
      if i < k { assert CommittedAt(site, calls, i); }
    }
    forall op | op in next.operations ensures IsOurs(next, calls, k + 1, op) {
      AppendIsOurs(site, calls, k, op);
    }
    if k > 0 { PendingAfter(calls, k); }
  }

  lemma AppendIsOurs(site: Site, calls: seq<Call>, k: nat, op: OperationId)
    requires k < |calls| && op in Append(site, calls[k]).operations
    requires op in site.operations ==> IsOurs(site, calls, k, op)
    ensures IsOurs(Append(site, calls[k]), calls, k + 1, op)
  {
    if op == calls[k].op {
      assert calls[k].op == op && k < k + 1;
    } else {
      var i :| 0 <= i < |calls| && calls[i].op == op
          && (i < k || (i == k && site.operations[op] == Entry(calls[i], None)));
    }
  }

  /** The promotion stays pending until its last revision. */
  lemma PendingAfter(calls: seq<Call>, k: nat)
    requires GoodPlan(calls) && k < |calls|
    ensures RevisionOf(calls[k]) == RevisionOf(calls[|calls| - 1]) <==> k == |calls| - 1
  {
  }

  // ----- building the plan -------------------------------------------------------------------------

  /** The first principal, of the two it can be, whose revision this is. */
  function InferAuthor(rec: Record, authors: Authors): Option<AuthorId> {
    if Hashed(rec.root, rec.parents, authors.installation, rec.op) == rec.revision then Some(authors.installation)
    else if authors.user.Some? && Hashed(rec.root, rec.parents, authors.user.value, rec.op) == rec.revision then
           authors.user
    else None
  }

  /** It succeeds exactly for revisions made by one of the two, and finds the one that made it. */
  lemma InferredAuthorMadeIt(rec: Record, authors: Authors)
    ensures InferAuthor(rec, authors).Some? <==>
            exists author: Option<AuthorId> :: author in {Some(authors.installation), authors.user} && author.Some?
                          && rec.revision == Hashed(rec.root, rec.parents, author.value, rec.op)
    ensures forall author: AuthorId ::
              rec.revision == Hashed(rec.root, rec.parents, author, rec.op) && InferAuthor(rec, authors).Some? ==>
                InferAuthor(rec, authors) == Some(author)
  {
    if rec.revision == Hashed(rec.root, rec.parents, authors.installation, rec.op) {
      assert Some(authors.installation) in {Some(authors.installation), authors.user};
    } else if authors.user.Some? && rec.revision == Hashed(rec.root, rec.parents, authors.user.value, rec.op) {
      assert authors.user in {Some(authors.installation), authors.user};
    }
  }

  /** A tree that already declares the fork's name needs no historical one. */
  function Historical(tree: TreeId, fork: Fork, content: Content): Option<Name> {
    if content.nameOf(tree) == fork.name then None else Some(content.nameOf(tree))
  }

  /** `build_promotion_rename`: the last tree under the fork's name, by the user, with the
      fork's own resource id as operation. */
  function BuildRename(fork: Fork, last: Record, generation: nat, user: AuthorId, content: Content): Call {
    Revise(fork.id, generation, last.revision, {last.revision}, content.renamed(last.root, fork.name), user, None)
  }

  function NeedsRename(history: seq<Record>, fork: Fork, content: Content): bool
    requires history != []
  {
    content.nameOf(history[|history| - 1].root) != fork.name
  }

  function Attributed(history: seq<Record>, authors: Authors): bool {
    forall i | 0 <= i < |history| :: InferAuthor(history[i], authors).Some?
  }

  function ReviseOf(history: seq<Record>, i: nat, fork: Fork, authors: Authors, content: Content): Call
    requires 0 < i < |history| && InferAuthor(history[i], authors).Some?
  {
    var rec := history[i];
    Revise(rec.op, i, rec.head, rec.parents, rec.root, InferAuthor(rec, authors).value,
           Historical(rec.root, fork, content))
  }

  function PromotionHead(history: seq<Record>, fork: Fork, authors: Authors, content: Content): RevisionId
    requires history != [] && (NeedsRename(history, fork, content) ==> authors.user.Some?)
  {
    var last := history[|history| - 1];
    if NeedsRename(history, fork, content) then
      RevisionOf(BuildRename(fork, last, |history|, authors.user.value, content))
    else last.revision
  }

  function ImportOf(history: seq<Record>, fork: Fork, authors: Authors, content: Content): Call
    requires history != [] && (NeedsRename(history, fork, content) ==> authors.user.Some?)
    requires InferAuthor(history[0], authors).Some?
  {
    var first := history[0];
    Import(first.op, fork.name, first.root, InferAuthor(first, authors).value, fork.upstream,
           Some(PromotionHead(history, fork, authors, content)), Historical(first.root, fork, content))
  }

  /** Every call of a promotion, in order. */
  function Plan(history: seq<Record>, fork: Fork, authors: Authors, content: Content): seq<Call>
    requires history != [] && Attributed(history, authors)
    requires NeedsRename(history, fork, content) ==> authors.user.Some?
  {
    [ImportOf(history, fork, authors, content)]
    + seq(|history| - 1, i requires 0 <= i < |history| - 1 => ReviseOf(history, i + 1, fork, authors, content))
    + if NeedsRename(history, fork, content)
      then [BuildRename(fork, history[|history| - 1], |history|, authors.user.value, content)] else []
  }

  ghost predicate OperationsApart(fork: Fork) {
    && OperationsDistinct(fork.records)
    && forall rec :: rec in fork.records ==> rec.op != fork.id
  }

  /** The plan's revisions are the history's, then the rename's. */
  lemma PlanIsExact(history: seq<Record>, fork: Fork, authors: Authors, content: Content)
    requires history != [] && Attributed(history, authors) && ChainFrom(history, fork.upstream)
    requires NeedsRename(history, fork, content) ==> authors.user.Some?
    ensures var calls := Plan(history, fork, authors, content);
            && |calls| == |history| + (if NeedsRename(history, fork, content) then 1 else 0)
            && (forall i :: 0 <= i < |history| ==>
                calls[i].op == history[i].op && RevisionOf(calls[i]) == history[i].revision)
            && (NeedsRename(history, fork, content) ==>
                  calls[|history|] == BuildRename(fork, history[|history| - 1], |history|, authors.user.value, content))
            && (forall i :: 0 < i < |history| ==> calls[i] == ReviseOf(history, i, fork, authors, content))
            && calls[0] == ImportOf(history, fork, authors, content)
            && (forall i :: 0 <= i < |history| ==> Replays(calls[i], history, i, fork, content))
            && (if content.nameOf(history[|history| - 1].root) == fork.name then |calls| == |history|
                else |calls| == |history| + 1 && Renames(calls[|history|], history, fork, authors, content))
  {
    PlanCalls(history, fork, authors, content);
    PlanReplays(history, fork, authors, content);
    var calls := Plan(history, fork, authors, content);
    hide Plan, ChainFrom, Historical, NeedsRename, BuildRename, PromotionHead, Replays, Renames;
    ChainAt(history, fork.upstream, 0);
    forall i | 0 <= i < |history| ensures calls[i].op == history[i].op && RevisionOf(calls[i]) == history[i].revision {
      assert InferAuthor(history[i], authors).Some?;
    }
  }

  /** The call carries save `i` as it is, by the one who made it, and a tree that declares another
      name than the fork's under that other name; the first is the import under the fork's name. */
  ghost predicate Replays(call: Call, history: seq<Record>, i: nat, fork: Fork, content: Content)
    requires i < |history|
  {
    var rec := history[i];
    && call.op == rec.op && call.root == rec.root
    && rec.revision == Hashed(rec.root, rec.parents, call.author, rec.op)
    && call.historical == (if content.nameOf(rec.root) == fork.name then None else Some(content.nameOf(rec.root)))
    && if i == 0 then call.Import? && call.name == fork.name && call.upstream == fork.upstream
       else call.Revise? && call.generation == i && call.head == rec.head && call.parents == rec.parents
  }

  /** The call carries the last tree under the fork's name, by the user, on top of the last save. */
  ghost predicate Renames(call: Call, history: seq<Record>, fork: Fork, authors: Authors, content: Content)
    requires history != []
  {
    var last := history[|history| - 1];
    && authors.user.Some?
    && call == Revise(fork.id, |history|, last.revision, {last.revision}, content.renamed(last.root, fork.name),
                      authors.user.value, None)
  }

  lemma PlanReplays(history: seq<Record>, fork: Fork, authors: Authors, content: Content)
    requires history != [] && Attributed(history, authors)
    requires NeedsRename(history, fork, content) ==> authors.user.Some?
    ensures var calls := Plan(history, fork, authors, content);
            && (forall i :: 0 <= i < |history| ==> Replays(calls[i], history, i, fork, content))
            && (if content.nameOf(history[|history| - 1].root) == fork.name then |calls| == |history|
                else |calls| == |history| + 1 && Renames(calls[|history|], history, fork, authors, content))
  {
    var calls := Plan(history, fork, authors, content);
    PlanCalls(history, fork, authors, content);
    hide Plan, PromotionHead;
    forall i | 0 <= i < |history| ensures Replays(calls[i], history, i, fork, content) {
      assert InferAuthor(history[i], authors).Some?;
      if i > 0 { assert calls[i] == ReviseOf(history, i, fork, authors, content); }
    }
  }

  lemma PlanCalls(history: seq<Record>, fork: Fork, authors: Authors, content: Content)
    requires history != [] && Attributed(history, authors)
    requires NeedsRename(history, fork, content) ==> authors.user.Some?
    ensures var calls := Plan(history, fork, authors, content);
            && |calls| == |history| + (if NeedsRename(history, fork, content) then 1 else 0)
            && (forall i :: 0 < i < |history| ==> calls[i] == ReviseOf(history, i, fork, authors, content))
            && calls[0] == ImportOf(history, fork, authors, content)
            && (NeedsRename(history, fork, content) ==>
                  calls[|history|] == BuildRename(fork, history[|history| - 1], |history|, authors.user.value, content))
  {
    hide InferAuthor, ReviseOf, ImportOf, BuildRename, NeedsRename;
  }

  lemma PlanIsGood(history: seq<Record>, fork: Fork, authors: Authors, content: Content)
    requires history != [] && Attributed(history, authors)
    requires IsHistory(history, fork.records, fork.upstream) && OperationsApart(fork)
    requires NeedsRename(history, fork, content) ==> authors.user.Some?
    ensures GoodPlan(Plan(history, fork, authors, content))
  {
    PlanIsChained(history, fork, authors, content);
    PlanIsApart(history, fork, authors, content);
    hide Plan, IsHistory, OperationsApart, Attributed, NeedsRename, RevisionOf;
  }

  /** Each call continues the one before it, and the import names the last. */
  lemma PlanIsChained(history: seq<Record>, fork: Fork, authors: Authors, content: Content)
    requires history != [] && Attributed(history, authors) && ChainFrom(history, fork.upstream)
    requires NeedsRename(history, fork, content) ==> authors.user.Some?
    ensures var calls := Plan(history, fork, authors, content);
            && calls != [] && calls[0].Import?
            && (forall i :: 0 < i < |calls| ==>
                  calls[i].Revise? && calls[i].generation == i && calls[i].head == RevisionOf(calls[i - 1])
                  && calls[i].parents == {calls[i].head})
            && calls[0].promotionHead == Some(RevisionOf(calls[|calls| - 1]))
  {
    var calls := Plan(history, fork, authors, content);
    PlanIsExact(history, fork, authors, content);
    hide Plan, InferAuthor, Historical, ChainFrom;
    forall i | 0 < i < |calls|
      ensures calls[i].Revise? && calls[i].generation == i && calls[i].head == RevisionOf(calls[i - 1])
              && calls[i].parents == {calls[i].head}
    {
      if i < |history| { ChainAt(history, fork.upstream, i); }
    }
  }

  /** Its operations are the saves' own and the fork's, so no two are the same. */
  lemma PlanIsApart(history: seq<Record>, fork: Fork, authors: Authors, content: Content)
    requires history != [] && Attributed(history, authors)
    requires IsHistory(history, fork.records, fork.upstream) && OperationsApart(fork)
    requires NeedsRename(history, fork, content) ==> authors.user.Some?
    ensures var calls := Plan(history, fork, authors, content);
            forall i, j :: 0 <= i < j < |calls| ==>
              calls[i].op != calls[j].op && RevisionOf(calls[i]) != RevisionOf(calls[j])
  {
    var calls := Plan(history, fork, authors, content);
    PlanIsExact(history, fork, authors, content);
    HistoryOperationsDistinct(history, fork);
    hide Plan, ReviseOf, ImportOf, InferAuthor, Historical, IsHistory, ChainFrom, OperationsApart, Attributed,
        RevisionOf;
    forall i, j | 0 <= i < j < |calls|
      ensures calls[i].op != calls[j].op && RevisionOf(calls[i]) != RevisionOf(calls[j])
    {
      RevisionNamesCall(calls[i]);
      RevisionNamesCall(calls[j]);
    }
  }

  lemma RevisionNamesCall(call: Call)
    ensures RevisionOf(call).Hashed? && RevisionOf(call).op == call.op
  {
  }

  lemma HistoryOperationsDistinct(history: seq<Record>, fork: Fork)
    requires multiset(history) == multiset(fork.records) && OperationsApart(fork)
    ensures forall i, j :: 0 <= i < j < |history| ==> history[i].op != history[j].op
    ensures forall i :: 0 <= i < |history| ==> history[i].op != fork.id
  {
    forall i | 0 <= i < |history| ensures history[i] in fork.records {
      assert history[i] in multiset(history);
      assert history[i] in multiset(fork.records);
    }
    forall i, j | 0 <= i < j < |history| ensures history[i].op != history[j].op {
      if history[i] == history[j] {
        TwoCopies(history, i, j);
        OneOperation(fork.records, history[i]);
      }
    }
  }

  lemma {:induction false} OneOperation(records: seq<Record>, rec: Record)
    requires OperationsDistinct(records)
    ensures multiset(records)[rec] <= 1
    decreases |records|
  {
    if records != [] {
      var n := |records| - 1;
      assert records == records[..n] + [records[n]];
      OneOperation(records[..n], rec);
    }
  }

  // ----- promoting -------------------------------------------------------------------------------

  ghost predicate Promotes(history: seq<Record>, fork: Fork, authors: Authors, content: Content) {
    && IsHistory(history, fork.records, fork.upstream) && history != [] && Attributed(history, authors)
    && (content.nameOf(history[|history| - 1].root) != fork.name ==> authors.user.Some?)
  }

  /** What a promotion has made of the registry: the history itself, each save as its own committed
      operation, and a rename by the user on top of it exactly when the last save declares
      another name; either way the head declares the fork's. */
  ghost predicate Replayed(site: Site, history: seq<Record>, fork: Fork, authors: Authors, content: Content)
    requires history != []
  {
    && site.chain != [] && !site.pending
    && content.nameOf(RootOf(site.chain[|site.chain| - 1])) == fork.name
    && ChainReplays(site.chain, history, fork, authors, content)
    && (forall i :: 0 <= i < |history| ==> OperationReplays(site, history, i, fork, content))
  }

  ghost predicate ChainReplays(chain: seq<RevisionId>, history: seq<Record>, fork: Fork, authors: Authors,
                               content: Content)
    requires history != []
  {
    var n, last := |history|, history[|history| - 1];
    && |chain| == (if content.nameOf(last.root) == fork.name then n else n + 1)
    && (forall i :: 0 <= i < n ==> chain[i] == history[i].revision)
    && (content.nameOf(last.root) != fork.name ==>
          && authors.user.Some?
          && chain[n] == Hashed(content.renamed(last.root, fork.name), {last.revision}, authors.user.value, fork.id))
  }

  ghost predicate OperationReplays(site: Site, history: seq<Record>, i: nat, fork: Fork, content: Content)
    requires i < |history| && site.chain != []
  {
    && history[i].op in site.operations && site.operations[history[i].op].done == Some(i + 1)
    && Replays(site.operations[history[i].op].call, history, i, fork, content)
    && (i == 0 ==> site.operations[history[i].op].call.promotionHead == Some(site.chain[|site.chain| - 1]))
  }

  lemma HeldIsReplayed(site: Site, history: seq<Record>, fork: Fork, authors: Authors, content: Content)
    requires Promotes(history, fork, authors, content) && OperationsApart(fork) && RenamesWell(content)
    requires HoldsFirst(site, Plan(history, fork, authors, content), |Plan(history, fork, authors, content)|)
    ensures Replayed(site, history, fork, authors, content)
  {
    var calls := Plan(history, fork, authors, content);
    PlanIsGood(history, fork, authors, content);
    AllHeld(site, calls, |calls|);
    ChainIsReplayed(site, history, fork, authors, content);
    hide Plan, IsHistory, OperationsApart, Replays, InferAuthor, BuildRename, ReviseOf, ImportOf, ChainReplays,
      OperationReplays, HoldsFirst, NeedsRename, PromotionHead, Attributed;
    forall i | 0 <= i < |history| ensures OperationReplays(site, history, i, fork, content) {
      OperationIsReplayed(site, history, fork, authors, content, i);
    }
  }

  lemma OperationIsReplayed(site: Site, history: seq<Record>, fork: Fork, authors: Authors, content: Content, i: nat)
    requires Promotes(history, fork, authors, content) && i < |history|
    requires HoldsFirst(site, Plan(history, fork, authors, content), |Plan(history, fork, authors, content)|)
    ensures site.chain != [] && OperationReplays(site, history, i, fork, content)
  {
    var calls := Plan(history, fork, authors, content);
    AllHeld(site, calls, |calls|);
    PlanIsChained(history, fork, authors, content);
    PlanIsExact(history, fork, authors, content);
    hide Plan, IsHistory, Replays, InferAuthor, BuildRename, ReviseOf, ImportOf;
    assert CommittedAt(site, calls, i);
  }

  lemma ChainIsReplayed(site: Site, history: seq<Record>, fork: Fork, authors: Authors, content: Content)
    requires Promotes(history, fork, authors, content) && RenamesWell(content)
    requires site.chain == RevisionsOf(Plan(history, fork, authors, content))
    ensures ChainReplays(site.chain, history, fork, authors, content)
    ensures content.nameOf(RootOf(site.chain[|site.chain| - 1])) == fork.name
  {
    PlanIsExact(history, fork, authors, content);
    AuthoredRoot(history[|history| - 1], authors);
    hide Plan, IsHistory, Replays, InferAuthor, BuildRename, ReviseOf, ImportOf;
  }

  lemma AuthoredRoot(rec: Record, authors: Authors)
    requires InferAuthor(rec, authors).Some?
    ensures RootOf(rec.revision) == rec.root
  {
  }

  /** How a promotion ends: with the revision and generation it installs, or stopped. */
  datatype Promotion = Promoted(revision: RevisionId, generation: nat) | Stopped | Dead

  datatype Sent = Ok(id: RevisionId, generation: nat) | Rejected | Lost

  /** The registry is where earlier attempts on this fork, unchanged, have left it. */
  ghost predicate Begun(site: Site, history: seq<Record>, fork: Fork, authors: Authors, content: Content, k: nat) {
    Promotes(history, fork, authors, content) ==> HoldsFirst(site, Plan(history, fork, authors, content), k)
  }

  class Promoter {
    var site: Site
    var faults: seq<Fault>

    constructor (site: Site, faults: seq<Fault>)
      ensures this.site == site && this.faults == faults
    {
      this.site, this.faults := site, faults;
    }

    method NextFault() returns (fault: Fault)
      modifies this`faults
      ensures Calm(old(faults)) ==> fault.Works? && Calm(faults)
    {
      fault := Works;
      if faults != [] {
        fault, faults := faults[0], faults[1..];
      }
    }

    /** Prepare, upload, commit. A fault after a registry call means its reply was lost. */
    method Send(call: Call, expected: RevisionId, ghost calls: seq<Call>, ghost k: nat, ghost i: nat)
      returns (sent: Sent, ghost after: nat)
      modifies this
      ensures k <= after
      ensures GoodPlan(calls) && HoldsFirst(old(site), calls, k) && i <= k && i < |calls| && call == calls[i]
              && expected == RevisionOf(call) ==>
                && HoldsFirst(site, calls, after)
                && (sent.Ok? ==> sent == Ok(expected, i + 1) && i < after)
                && (Calm(old(faults)) ==> sent.Ok? && Calm(faults))
    {
      ghost var ours := GoodPlan(calls) && HoldsFirst(site, calls, k) && i <= k && i < |calls| && call == calls[i]
          && expected == RevisionOf(call);
      hide GoodPlan, HoldsFirst, Admit, CommitCall, Calm;
      after := k;
      if ours {
        if i < k { CommittedCallsReplay(site, calls, k, i); } else { NextCallPrepares(site, calls, k); }
      }
      var fault := NextFault();
      if fault.Dies? { return Lost, k; }
      var (next, answer) := PrepareCall(site, call);
      site := next;
      fault := NextFault();
      if !fault.Works? { return Lost, k; }
      if answer != Revision(expected) { return Rejected, k; }
      fault := NextFault();
      if !fault.Works? { return Lost, k; }
      if ours && i == k { NextCallCommits(site, calls, k); }
      var (last, committed) := CommitCall(site, call);
      site := last;
      after := if ours && i == k then k + 1 else k;
      fault := NextFault();
      if !fault.Works? { return Lost, after; }
      if committed.Committed? && committed.id == expected {
        sent := Ok(committed.id, committed.generation);
      } else {
        sent := Rejected;
      }
    }

    /** Replays the fork's history and renames it if its last revision bears another name. */
    method Promote(fork: Fork, authors: Authors, content: Content, ghost history: seq<Record>, ghost k: nat)
      returns (result: Promotion, ghost after: nat)
      requires DistinctIds(fork.records, fork.upstream) && OperationsApart(fork) && RenamesWell(content)
      requires Begun(site, history, fork, authors, content, k)
      modifies this
      ensures k <= after && Begun(site, history, fork, authors, content, after)
      ensures Promotes(history, fork, authors, content) && result.Promoted? ==>
                && Replayed(site, history, fork, authors, content)
                && result == Promoted(site.chain[|site.chain| - 1], |site.chain|)
      ensures result.Promoted? ==> exists list :: Promotes(list, fork, authors, content)
      ensures Promotes(history, fork, authors, content) && Calm(old(faults)) ==> result.Promoted?
    {
      hide GoodPlan, HoldsFirst, Calm, Plan, IsHistory, DistinctIds, OperationsApart, ChainFrom, InferAuthor,
        RevisionsOf, Historical, RevisionOf, Halted, Replayed, Replays, Renames, RenamesWell;
      after := k;
      ghost var promotes := Promotes(history, fork, authors, content);
      ghost var calls: seq<Call> := [];
      if promotes {
        calls := Plan(history, fork, authors, content);
        HistoryChains(history, fork);
        PlanIsGood(history, fork, authors, content);
        PlanIsExact(history, fork, authors, content);
      }
      var found := OrderedHistory(fork.records, fork.upstream);
      if promotes { HistoryFound(history, fork, found); }
      if found.None? || found.value == [] { return Stopped, k; }
      var list := found.value;
      var last := list[|list| - 1];
      var renames := NeedsRename(list, fork, content);
      if renames && authors.user.None? { return Stopped, k; }
      var author := InferAuthor(list[0], authors);
      if author.None? { return Stopped, k; }
      var sent;
      sent, after := Send(ImportOf(list, fork, authors, content), list[0].revision, calls, k, 0);
      if !sent.Ok? { return Halted(sent), after; }
      var generation, revision := sent.generation, sent.id;
      for i := 1 to |list|
        invariant k <= after
        invariant promotes ==> HoldsFirst(site, calls, after) && i <= after
        invariant promotes ==> generation == i && revision == list[i - 1].revision
        invariant promotes && Calm(old(faults)) ==> Calm(faults)
        invariant forall j :: 0 <= j < i ==> InferAuthor(list[j], authors).Some?
      {
        var rec := list[i];
        author := InferAuthor(rec, authors);
        if author.None? || rec.head != revision { return Stopped, after; }
        var call := Revise(rec.op, generation, rec.head, rec.parents, rec.root, author.value,
                           Historical(rec.root, fork, content));
        sent, after := Send(call, rec.revision, calls, after, i);
        if !sent.Ok? { return Halted(sent), after; }
        generation, revision := sent.generation, sent.id;
      }
      if renames {
        if revision != last.revision { return Stopped, after; }
        var call := BuildRename(fork, last, generation, authors.user.value, content);
        sent, after := Send(call, RevisionOf(call), calls, after, |list|);
        if !sent.Ok? { return Halted(sent), after; }
        generation, revision := sent.generation, sent.id;
      }
      if promotes {
        AllHeld(site, calls, after);
        HeldIsReplayed(site, history, fork, authors, content);
      }
      assert Promotes(list, fork, authors, content);
      result := Promoted(revision, generation);
    }
  }

  function Halted(sent: Sent): (result: Promotion)
    ensures !result.Promoted?
  {
    if sent.Lost? then Dead else Stopped
  }

  lemma AllHeld(site: Site, calls: seq<Call>, k: nat)
    requires HoldsFirst(site, calls, k) && |calls| <= k
    ensures site.chain == RevisionsOf(calls) && k == |calls|
    ensures calls != [] ==>
              |site.chain| == |calls| && site.chain[|site.chain| - 1] == RevisionOf(calls[|calls| - 1])
  {
    assert calls[..k] == calls;
  }

  lemma HistoryChains(history: seq<Record>, fork: Fork)
    requires IsHistory(history, fork.records, fork.upstream)
    ensures ChainFrom(history, fork.upstream)
    ensures forall i :: 0 < i < |history| ==> history[i].head == history[i - 1].revision
  {
    forall i | 0 < i < |history| ensures history[i].head == history[i - 1].revision {
      ChainAt(history, fork.upstream, i);
    }
  }

  /** The chain that is found is the one there is. */
  lemma HistoryFound(history: seq<Record>, fork: Fork, found: Option<seq<Record>>)
    requires IsHistory(history, fork.records, fork.upstream) && DistinctIds(fork.records, fork.upstream)
    requires found.Some? <==> exists list :: IsHistory(list, fork.records, fork.upstream)
    requires found.Some? ==> IsHistory(found.value, fork.records, fork.upstream)
    ensures found == Some(history)
  {
    HistoryIsUnique(history, found.value, fork.records, fork.upstream, |history|);
    assert history[..|history|] == history && found.value[..|history|] == found.value;
  }

  /** Whatever else differs, two histories of one fork have the same promotion head exactly when
      they end in the same save: a rename revision is no save, and names the save before it. */
  lemma PromotionHeadsAgreeIff(history: seq<Record>, longer: seq<Record>, fork: Fork, grown: Fork, authors: Authors,
                               content: Content)
    requires grown == fork.(records := grown.records) && OperationsApart(fork) && OperationsApart(grown)
    requires Promotes(history, fork, authors, content) && Promotes(longer, grown, authors, content)
    ensures PromotionHead(longer, grown, authors, content) == PromotionHead(history, fork, authors, content)
            <==> longer[|longer| - 1].revision == history[|history| - 1].revision
  {
    var a, b := history[|history| - 1], longer[|longer| - 1];
    LastIsASave(history, fork, authors);
    LastIsASave(longer, grown, authors);
    assert a.revision == b.revision ==> a.root == b.root;
    assert a.revision in {a.revision} && b.revision in {b.revision};
    if {a.revision} == {b.revision} { assert a.revision in {b.revision}; }
  }

  lemma LastIsASave(history: seq<Record>, fork: Fork, authors: Authors)
    requires history != [] && multiset(history) == multiset(fork.records) && Attributed(history, authors)
             && OperationsApart(fork)
    ensures var last := history[|history| - 1];
            last.op != fork.id && last.revision.Hashed? && last.revision.op == last.op
                && last.revision.tree == last.root
  {
    HistoryOperationsDistinct(history, fork);
    assert InferAuthor(history[|history| - 1], authors).Some?;
  }

  /** The fork must not change between attempts. Once its import is known to the registry, a
      promotion of the same fork a while later is let through its first call exactly when no save
      has been added; otherwise it is refused there, for good. */
  lemma ChangedForkIsRefusedIff(site: Site, history: seq<Record>, longer: seq<Record>, fork: Fork, grown: Fork,
                                authors: Authors, content: Content, k: nat)
    requires Promotes(history, fork, authors, content) && OperationsApart(fork)
    requires HoldsFirst(site, Plan(history, fork, authors, content), k) && history[0].op in site.operations
    requires grown == fork.(records := grown.records) && DistinctIds(grown.records, grown.upstream)
    requires Promotes(longer, grown, authors, content) && OperationsApart(grown) && history <= longer
    ensures PrepareCall(site, ImportOf(longer, grown, authors, content))
            == (site, if longer == history then Revision(history[0].revision) else Denied(OperationConflict))
  {
    FirstCallKnown(site, history, fork, authors, content, k);
    PromotionHeadsAgreeIff(history, longer, fork, grown, authors, content);
    DistinctPermutation(longer, grown.records, grown.upstream);
    ChainAt(history, fork.upstream, 0);
    assert history[|history| - 1] == longer[|history| - 1] && longer[0] == history[0];
    assert longer == history <==> |longer| == |history|;
    hide PromotionHead, InferAuthor, GoodPlan, HoldsFirst, Plan, IsHistory, ChainFrom, OperationsApart;
    var again, first := ImportOf(longer, grown, authors, content), ImportOf(history, fork, authors, content);
    assert again == first.(promotionHead := again.promotionHead);
  }

  lemma FirstCallKnown(site: Site, history: seq<Record>, fork: Fork, authors: Authors, content: Content, k: nat)
    requires Promotes(history, fork, authors, content) && OperationsApart(fork)
    requires HoldsFirst(site, Plan(history, fork, authors, content), k) && history[0].op in site.operations
    ensures site.operations[history[0].op].call == ImportOf(history, fork, authors, content)
    ensures RevisionOf(ImportOf(history, fork, authors, content)) == history[0].revision
  {
    var calls := Plan(history, fork, authors, content);
    PlanIsGood(history, fork, authors, content);
    PlanIsExact(history, fork, authors, content);
    assert calls[0].op == history[0].op;
    assert IsOurs(site, calls, k, calls[0].op);
    if k > 0 { assert CommittedAt(site, calls, 0); }
  }
}
