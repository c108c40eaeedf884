/** The subscription part of a sync pass: tell the registry what is materialized here, take
    what differs, remove what is gone, and survive failed downloads and crashes. */
module Reconcile {
  import opened Basics
  import Policies = PackPolicy

  type ResourceId = nat
  type Path = nat
  type RevisionId = nat

  datatype Record = Record(path: Path, generation: nat, release: Option<nat>, desired: RevisionId,
                           materialized: Option<RevisionId>)

  datatype Remote = Remote(path: Path, generation: nat, release: Option<nat>, revision: RevisionId)

  /** Generation of a skill that a canonical link shows. */
  datatype Target = Target(id: ResourceId, revision: RevisionId)

  /** A materialization that has a verified generation; `switched` once its link is set. */
  datatype Pending = Pending(id: ResourceId, path: Path, revision: RevisionId, switched: bool)

  datatype Disk = Disk(subs: map<ResourceId, Record>, links: map<Path, Target>, journal: Option<Pending>)

  /** The account's subscriptions at the registry; a hold on one release or on all of a skill. */
  datatype Catalog = Catalog(skills: map<ResourceId, Remote>, holds: map<ResourceId, Option<nat>>)

  /** What pack policy and local forks say while a direct subscription exists, and the paths
      that owned and pack skills use. */
  datatype Policy = Policy(conflicted: set<ResourceId>, suppressed: set<ResourceId>, locked: set<ResourceId>,
                           foreign: set<Path>)

  datatype Known = Known(generation: nat, revision: Option<RevisionId>)

  datatype Delta = Delta(skills: set<ResourceId>, removed: set<ResourceId>)

  datatype Pass = Done(materialized: nat, removed: nat) | Failed | Killed

  predicate Free(policy: Policy, id: ResourceId) {
    id !in policy.conflicted && id !in policy.suppressed && id !in policy.locked
  }

  /** What this device advertises: the revision it shows, not the one it wants. */
  function Advertised(subs: map<ResourceId, Record>): map<ResourceId, Known> {
    map id | id in subs :: Known(subs[id].generation, subs[id].materialized)
  }

  /** `reconcile_subscriptions` on the registry. */
  function Answer(catalog: Catalog, known: map<ResourceId, Known>): Delta {
    Delta(set id | id in catalog.skills
                   && (id !in known
                       || known[id] != Known(catalog.skills[id].generation, Some(catalog.skills[id].revision))),
          set id | id in known && id !in catalog.skills && id !in catalog.holds)
  }

  predicate Targets(record: Record, hold: Option<nat>) {
    hold.None? || (record.release.Some? && record.release == hold)
  }

  function Link(links: map<Path, Target>, path: Path): Option<Target> {
    if path in links then Some(links[path]) else None
  }

  function Upserted(row: Option<Record>, remote: Remote): Record {
    Record(remote.path, remote.generation, remote.release, remote.revision,
           if row.Some? then row.value.materialized else None)
  }

  function Row(d: Disk, id: ResourceId): Option<Record> {
    if id in d.subs then Some(d.subs[id]) else None
  }

  predicate Active(d: Disk, id: ResourceId)
    requires id in d.subs
  {
    d.subs[id].materialized.Some? && Link(d.links, d.subs[id].path) == Some(Target(id, d.subs[id].materialized.value))
  }

  function PathsOf(d: Disk): set<Path> {
    set id | id in d.subs :: d.subs[id].path
  }

  /** Rows only go, and no link changes but at the path of a row there was. */
  ghost predicate Shrinks(was: Disk, now: Disk) {
    && PathsOf(now) <= PathsOf(was)
    && forall p :: p !in PathsOf(was) ==> Link(now.links, p) == Link(was.links, p)
  }

  /** Rows only come, and no link changes but at the path of a row there is. */
  ghost predicate Grows(was: Disk, now: Disk) {
    && PathsOf(was) <= PathsOf(now)
    && forall p :: p !in PathsOf(now) ==> Link(now.links, p) == Link(was.links, p)
  }

  // ----- the state between passes ---------------------------------------------------------------

  ghost predicate OwnRows(d: Disk) {
    forall i, j :: i in d.subs && j in d.subs && i != j ==> d.subs[i].path != d.subs[j].path
  }

  /** Locators belong to one skill, and none that is subscribed here has been renamed. */
  ghost predicate OwnPaths(d: Disk, catalog: Catalog) {
    && OwnRows(d)
    && (forall i, j :: i in catalog.skills && j in catalog.skills && i != j ==>
        catalog.skills[i].path != catalog.skills[j].path)
    && (forall i, j :: i in d.subs && j in catalog.skills ==> (d.subs[i].path == catalog.skills[j].path <==> i == j))
    && (forall i :: i in catalog.skills ==> i !in catalog.holds)
  }

  predicate Pends(d: Disk, id: ResourceId) {
    d.journal.Some? && d.journal.value.id == id
  }

  ghost predicate Linked(d: Disk, policy: Policy) {
    forall id :: id in d.subs && Free(policy, id) && d.subs[id].materialized.Some? && !Pends(d, id) ==> Active(d, id)
  }

  ghost predicate JournalOk(d: Disk, policy: Policy) {
    d.journal.Some? ==>
      var p := d.journal.value;
      && p.id in d.subs && d.subs[p.id].path == p.path && d.subs[p.id].desired == p.revision && Free(policy, p.id)
      && (p.switched ==> Link(d.links, p.path) == Some(Target(p.id, p.revision)))
  }

  ghost predicate Tidy(d: Disk, catalog: Catalog, policy: Policy) {
    OwnPaths(d, catalog) && Linked(d, policy) && JournalOk(d, policy)
  }

  /** Every subscription nothing stands in the way of is shown at the registry's revision. */
  ghost predicate Converged(d: Disk, catalog: Catalog, policy: Policy) {
    forall id :: id in catalog.skills && Free(policy, id) ==>
      var remote := catalog.skills[id];
      && id in d.subs && d.subs[id].generation == remote.generation && d.subs[id].path == remote.path
      && d.subs[id].materialized == Some(remote.revision)
      && Link(d.links, remote.path) == Some(Target(id, remote.revision))
  }

  // ----- one skill ----------------------------------------------------------------------------------

  function Relinked(d: Disk, p: Pending): Disk {
    d.(links := d.links[p.path := Target(p.id, p.revision)], journal := Some(p.(switched := true)))
  }

  predicate Finishable(d: Disk, p: Pending, policy: Policy) {
    p.id in d.subs && d.subs[p.id].desired == p.revision && p.id !in policy.suppressed
  }

  function Finished(d: Disk, p: Pending): Disk {
    if p.id !in d.subs then d else
      d.(subs := d.subs[p.id := d.subs[p.id].(materialized := Some(p.revision))], journal := None)
  }

  /** Recovery finishes the pending materialization, or stops before or after its link. */
  ghost predicate Recovered(was: Disk, now: Disk, policy: Policy, fault: Fault) {
    if was.journal.None? then now == was && fault.Works?
    else
      var p := was.journal.value;
      var switched := if p.switched then was else Relinked(was, p);
      if fault.Works? then now == Finished(switched, p) && Finishable(was, p, policy)
      else now == was || now == switched
  }

  lemma RecoveredIsTidy(was: Disk, now: Disk, catalog: Catalog, policy: Policy, fault: Fault)
    requires Tidy(was, catalog, policy) && Recovered(was, now, policy, fault)
    ensures Tidy(now, catalog, policy) && (fault.Works? ==> now.journal.None?)
    ensures now.subs.Keys == was.subs.Keys
  {
  }

  function Held(d: Disk, id: ResourceId, hold: Option<nat>): Disk {
    if id !in d.subs || !Targets(d.subs[id], hold) then d
    else d.(subs := d.subs - {id}, links := if Active(d, id) then d.links - {d.subs[id].path} else d.links)
  }

  function Removed(d: Disk, id: ResourceId, policy: Policy): Disk {
    if id !in d.subs || id in policy.conflicted then d
    else if id in policy.suppressed then d.(subs := d.subs - {id})
    else d.(subs := d.subs - {id}, links := d.links - {d.subs[id].path})
  }

  /** The links at the rows' paths once the holds on `done` have been worked through. */
  ghost predicate HoldLinks(was: Disk, now: Disk, holds: map<ResourceId, Option<nat>>, done: set<ResourceId>) {
    forall id :: id in was.subs ==>
      Link(now.links, was.subs[id].path) ==
        if id in done && id in holds && Targets(was.subs[id], holds[id]) && Active(was, id) then None
        else Link(was.links, was.subs[id].path)
  }

  /** The same for the subscriptions that are gone. */
  ghost predicate RemovalLinks(was: Disk, now: Disk, policy: Policy, done: set<ResourceId>) {
    forall id :: id in was.subs ==>
      Link(now.links, was.subs[id].path) ==
        if id in done && id !in policy.conflicted && id !in policy.suppressed then None
        else Link(was.links, was.subs[id].path)
  }

  ghost predicate RowsRemoved(was: Disk, now: Disk, policy: Policy, done: set<ResourceId>) {
    forall id :: Row(now, id) == if id in done && id !in policy.conflicted then None else Row(was, id)
  }

  lemma HoldStep(start: Disk, was: Disk, id: ResourceId, holds: map<ResourceId, Option<nat>>, done: set<ResourceId>)
    requires id in holds && id !in done && Row(was, id) == Row(start, id) && Shrinks(start, was)
    ensures Shrinks(start, Held(was, id, holds[id]))
    ensures OwnRows(start) && HoldLinks(start, was, holds, done) ==>
              HoldLinks(start, Held(was, id, holds[id]), holds, done + {id})
  {
    assert id in was.subs ==> was.subs[id].path in PathsOf(was);
    hide Targets;
  }

  lemma HeldRows(d: Disk, id: ResourceId, holds: map<ResourceId, Option<nat>>)
    requires id in holds
    ensures forall other :: Row(Held(d, id, holds[id]), other) ==
              if other == id then AfterHold(Row(d, id), id, holds) else Row(d, other)
    ensures id in d.subs && !Targets(d.subs[id], holds[id]) ==> Held(d, id, holds[id]) == d
    ensures id !in d.subs ==> Held(d, id, holds[id]) == d
  {
  }

  lemma RemovedRows(d: Disk, id: ResourceId, policy: Policy)
    ensures forall other :: Row(Removed(d, id, policy), other) ==
              if other == id && id !in policy.conflicted then None else Row(d, other)
  {
  }

  lemma HoldsStart(d: Disk, holds: map<ResourceId, Option<nat>>)
    ensures Shrinks(d, d) && HoldLinks(d, d, holds, {})
  {
  }

  lemma RemovalsStart(d: Disk, policy: Policy)
    ensures Shrinks(d, d) && RemovalLinks(d, d, policy, {}) && RowsRemoved(d, d, policy, {})
  {
  }

  lemma RemovalStep(start: Disk, was: Disk, id: ResourceId, policy: Policy, done: set<ResourceId>)
    requires id !in done && RowsRemoved(start, was, policy, done) && Shrinks(start, was)
    ensures Shrinks(start, Removed(was, id, policy))
    ensures RowsRemoved(start, Removed(was, id, policy), policy, done + {id})
    ensures id in was.subs <==> id in start.subs
    ensures id !in was.subs || id in policy.conflicted ==> Removed(was, id, policy) == was
    ensures OwnRows(start) && RemovalLinks(start, was, policy, done) ==>
              RemovalLinks(start, Removed(was, id, policy), policy, done + {id})
  {
    assert Row(was, id) == Row(start, id);
    assert id in was.subs ==> was.subs[id].path in PathsOf(was);
    RemovedRows(was, id, policy);
  }

  /** How far the removals have come: `left` are still to do. */
  ghost predicate RemovalProgress(start: Disk, now: Disk, ids: set<ResourceId>, left: set<ResourceId>, policy: Policy,
                                  removed: nat) {
    && RowsRemoved(start, now, policy, ids - left) && Shrinks(start, now)
    && (OwnRows(start) ==> RemovalLinks(start, now, policy, ids - left))
    && removed == |Gone(start, ids - left, policy)|
    && ((forall id :: id in ids && id in start.subs ==> id in policy.conflicted) ==> now == start)
  }

  lemma RemovalStarts(d: Disk, ids: set<ResourceId>, policy: Policy)
    ensures RemovalProgress(d, d, ids, ids, policy, 0)
  {
    assert ids - ids == {};
    RemovalsStart(d, policy);
    GoneNone(d, policy);
  }

  lemma RemovalTurn(start: Disk, was: Disk, ids: set<ResourceId>, left: set<ResourceId>, id: ResourceId, policy: Policy,
                    removed: nat)
    requires RemovalProgress(start, was, ids, left, policy, removed) && left <= ids && id in left
    ensures var more := id in was.subs && id !in policy.conflicted && id !in policy.suppressed;
            RemovalProgress(start, Removed(was, id, policy), ids, left - {id}, policy, if more then removed + 1
                                                                                       else removed)
    ensures Removed(was, id, policy).journal == was.journal
  {
    hide RowsRemoved, Shrinks, RemovalLinks, Gone, OwnRows;
    GoneStep(start, ids, left, id, policy);
    RemovalStep(start, was, id, policy, ids - left);
    assert ids - (left - {id}) == ids - left + {id};
  }

  lemma RemovalSays(start: Disk, now: Disk, ids: set<ResourceId>, left: set<ResourceId>, policy: Policy, removed: nat,
                    catalog: Catalog)
    requires RemovalProgress(start, now, ids, left, policy, removed)
    ensures Shrinks(start, now)
    ensures (forall id :: id in ids && id in start.subs ==> id in policy.conflicted) ==> now == start
    ensures left == {} ==> RowsRemoved(start, now, policy, ids) && removed == |Gone(start, ids, policy)|
    ensures left == {} && Tidy(start, catalog, policy) ==> RemovalLinks(start, now, policy, ids)
  {
    if left == {} { assert ids - left == ids; }
    hide RowsRemoved, Shrinks, RemovalLinks, Gone;
  }

  predicate Renamed(d: Disk, id: ResourceId, remote: Remote) {
    id in d.subs && d.subs[id].path != remote.path
  }

  predicate Showing(d: Disk, id: ResourceId, remote: Remote) {
    id in d.subs && d.subs[id].materialized == Some(remote.revision)
    && Link(d.links, remote.path) == Some(Target(id, remote.revision))
  }

  function Told(d: Disk, id: ResourceId, remote: Remote): Disk {
    d.(subs := d.subs[id := Upserted(Row(d, id), remote)])
  }

  /** How a sent subscription that keeps its name ends up. */
  ghost predicate Synced(was: Disk, now: Disk, id: ResourceId, remote: Remote, policy: Policy, fault: Fault,
                         shown: bool) {
    var told := Told(was, id, remote);
    var p := Pending(id, remote.path, remote.revision, false);
    var missing := Free(policy, id) && !Showing(was, id, remote);
    if fault.Works? then
      shown == missing && now == if missing then Finished(Relinked(told, p), p) else told
    else
      !shown && (now == was || now == told
                 || (missing && (now == told.(journal := Some(p)) || now == Relinked(told, p))))
  }

  /** A switched materialization whose row is gone. */
  ghost predicate Stranded(d: Disk) {
    d.journal.Some? && d.journal.value.switched && d.journal.value.id !in d.subs
  }

  // ----- the loops of a pass ----------------------------------------------------------------------

  function AfterHold(row: Option<Record>, id: ResourceId, holds: map<ResourceId, Option<nat>>): Option<Record> {
    if row.Some? && id in holds && Targets(row.value, holds[id]) then None else row
  }

  function AfterSync(row: Option<Record>, id: ResourceId, remote: Remote, policy: Policy): Record {
    var told := Upserted(row, remote);
    if Free(policy, id) then told.(materialized := Some(remote.revision)) else told
  }

  /** What is sent again although it can change nothing: it is not free to be shown. */
  ghost predicate Idle(d: Disk, skills: set<ResourceId>, catalog: Catalog, policy: Policy) {
    forall id :: id in skills && id in catalog.skills ==>
      !Free(policy, id) && Row(d, id) == Some(Upserted(Row(d, id), catalog.skills[id]))
  }

  function Missing(d: Disk, skills: set<ResourceId>, catalog: Catalog, policy: Policy): set<ResourceId> {
    set id | id in skills && id in catalog.skills && Free(policy, id) && !Showing(d, id, catalog.skills[id])
  }

  function Gone(d: Disk, ids: set<ResourceId>, policy: Policy): set<ResourceId> {
    set id | id in ids && id in d.subs && id !in policy.conflicted && id !in policy.suppressed
  }

  lemma GoneNone(d: Disk, policy: Policy)
    ensures Gone(d, {}, policy) == {}
  {
  }

  lemma GoneStep(d: Disk, ids: set<ResourceId>, left: set<ResourceId>, id: ResourceId, policy: Policy)
    requires left <= ids && id in left
    ensures var more := id in d.subs && id !in policy.conflicted && id !in policy.suppressed;
            |Gone(d, ids - (left - {id}), policy)| == |Gone(d, ids - left, policy)| + if more then 1 else 0
  {
    var done := Gone(d, ids - left, policy);
    assert Gone(d, ids - (left - {id}), policy) ==
      if id in d.subs && id !in policy.conflicted && id !in policy.suppressed then done + {id} else done;
  }

  // ----- every step keeps the state tidy -------------------------------------------------------------

  lemma HeldIsTidy(d: Disk, id: ResourceId, hold: Option<nat>, catalog: Catalog, policy: Policy)
    requires Tidy(d, catalog, policy) && d.journal.None?
    ensures Tidy(Held(d, id, hold), catalog, policy)
  {
  }

  lemma RemovedIsTidy(d: Disk, id: ResourceId, catalog: Catalog, policy: Policy)
    requires Tidy(d, catalog, policy) && d.journal.None?
    ensures Tidy(Removed(d, id, policy), catalog, policy)
  {
  }

  lemma ToldIsTidy(d: Disk, id: ResourceId, catalog: Catalog, policy: Policy)
    requires Tidy(d, catalog, policy) && d.journal.None? && id in catalog.skills
    ensures Tidy(Told(d, id, catalog.skills[id]), catalog, policy)
    ensures !Renamed(d, id, catalog.skills[id])
  {
  }

  lemma SyncedIsTidy(was: Disk, now: Disk, id: ResourceId, catalog: Catalog, policy: Policy, fault: Fault, shown: bool)
    requires Tidy(was, catalog, policy) && was.journal.None? && id in catalog.skills
    requires Synced(was, now, id, catalog.skills[id], policy, fault, shown)
    ensures Tidy(now, catalog, policy) && (fault.Works? ==> now.journal.None?)
  {
    ToldIsTidy(was, id, catalog, policy);
  }

  /** Nothing a pass does to one skill disturbs another's row or link. */
  ghost predicate SameSkill(a: Disk, b: Disk, id: ResourceId) {
    Row(a, id) == Row(b, id) && (id in a.subs ==> Link(a.links, a.subs[id].path) == Link(b.links, a.subs[id].path))
  }

  lemma SyncedLeavesOthers(was: Disk, now: Disk, id: ResourceId, catalog: Catalog, policy: Policy, fault: Fault,
                           shown: bool)
    requires Tidy(was, catalog, policy) && was.journal.None? && id in catalog.skills
    requires Synced(was, now, id, catalog.skills[id], policy, fault, shown)
    ensures forall other: ResourceId :: other != id ==> SameSkill(was, now, other)
    ensures Grows(was, now)
  {
    assert forall i :: i in was.subs ==> i in now.subs && now.subs[i].path == was.subs[i].path;
    assert id in now.subs ==> now.subs[id].path in PathsOf(now);
  }

  /** A sent subscription when its turn is over. */
  ghost predicate Handled(was: Disk, now: Disk, id: ResourceId, catalog: Catalog, policy: Policy) {
    id in catalog.skills ==>
      && Row(now, id) == Some(AfterSync(Row(was, id), id, catalog.skills[id], policy))
      && (if Free(policy, id) then Showing(now, id, catalog.skills[id])
          else Link(now.links, catalog.skills[id].path) == Link(was.links, catalog.skills[id].path))
  }

  lemma SyncedIsHandled(was: Disk, now: Disk, id: ResourceId, catalog: Catalog, policy: Policy, shown: bool)
    requires Tidy(was, catalog, policy) && was.journal.None? && id in catalog.skills
    requires Synced(was, now, id, catalog.skills[id], policy, Works, shown)
    ensures Handled(was, now, id, catalog, policy)
    ensures shown == (Free(policy, id) && !Showing(was, id, catalog.skills[id]))
    ensures !Free(policy, id) && Row(was, id) == Some(Upserted(Row(was, id), catalog.skills[id])) ==> now == was
  {
    if !Free(policy, id) && Row(was, id) == Some(Upserted(Row(was, id), catalog.skills[id])) {
      assert now.subs == was.subs;
    }
  }

  /** How far a pass has come with what was sent: `left` is still to do. */
  ghost predicate SyncProgress(was: Disk, now: Disk, skills: set<ResourceId>, left: set<ResourceId>, catalog: Catalog,
                               policy: Policy) {
    && Grows(was, now)
    && (forall id :: id !in skills - left ==> SameSkill(was, now, id))
    && (forall id :: id in skills - left ==> Handled(was, now, id, catalog, policy))
  }

  lemma ProgressStep(was: Disk, now: Disk, next: Disk, skills: set<ResourceId>, left: set<ResourceId>, id: ResourceId,
                     catalog: Catalog, policy: Policy, shown: bool)
    requires skills <= catalog.skills.Keys && left <= skills && id in left
    requires Tidy(now, catalog, policy) && now.journal.None? && OwnPaths(was, catalog)
    requires SyncProgress(was, now, skills, left, catalog, policy)
    requires Synced(now, next, id, catalog.skills[id], policy, Works, shown)
    ensures SyncProgress(was, next, skills, left - {id}, catalog, policy)
    ensures shown == (id in Missing(was, skills, catalog, policy))
  {
    SyncedLeavesOthers(now, next, id, catalog, policy, Works, shown);
    SyncedIsHandled(now, next, id, catalog, policy, shown);
    assert SameSkill(was, now, id);
    assert Showing(was, id, catalog.skills[id]) == Showing(now, id, catalog.skills[id]);
    forall other | other in skills - (left - {id}) && other != id ensures Handled(was, next, other, catalog, policy) {
      assert Handled(was, now, other, catalog, policy) && SameSkill(now, next, other);
    }
    forall other | other !in skills - (left - {id}) ensures SameSkill(was, next, other) {
      assert SameSkill(was, now, other) && SameSkill(now, next, other);
    }
  }

  lemma MissingStep(d: Disk, skills: set<ResourceId>, left: set<ResourceId>, id: ResourceId, catalog: Catalog,
                    policy: Policy)
    requires left <= skills && id in left
    ensures |Missing(d, skills - (left - {id}), catalog, policy)|
         == |Missing(d, skills - left, catalog, policy)| + if id in Missing(d, skills, catalog, policy) then 1 else 0
  {
    var done := Missing(d, skills - left, catalog, policy);
    assert Missing(d, skills - (left - {id}), catalog, policy) ==
      if id in Missing(d, skills, catalog, policy) then done + {id} else done;
  }

  lemma NothingMissing(d: Disk, catalog: Catalog, policy: Policy)
    ensures Missing(d, {}, catalog, policy) == {}
  {
  }

  lemma SyncStarts(d: Disk, skills: set<ResourceId>, catalog: Catalog, policy: Policy)
    ensures SyncProgress(d, d, skills, skills, catalog, policy) && Grows(d, d)
  {
  }

  lemma GrowsOn(a: Disk, b: Disk, c: Disk)
    requires Grows(a, b) && Grows(b, c)
    ensures Grows(a, c)
  {
  }

  lemma TurnOver(was: Disk, now: Disk, next: Disk, skills: set<ResourceId>, left: set<ResourceId>, id: ResourceId,
                 catalog: Catalog, policy: Policy, shown: bool)
    requires skills <= catalog.skills.Keys && left <= skills && id in left
    requires Tidy(now, catalog, policy) && now.journal.None? && OwnPaths(was, catalog)
    requires SyncProgress(was, now, skills, left, catalog, policy)
    requires Synced(now, next, id, catalog.skills[id], policy, Works, shown)
    ensures SyncProgress(was, next, skills, left - {id}, catalog, policy)
    ensures |Missing(was, skills - (left - {id}), catalog, policy)|
         == |Missing(was, skills - left, catalog, policy)| + if shown then 1 else 0
    ensures Idle(was, skills, catalog, policy) && now == was ==> next == was
  {
    ProgressStep(was, now, next, skills, left, id, catalog, policy, shown);
    MissingStep(was, skills, left, id, catalog, policy);
    SyncedIsHandled(now, next, id, catalog, policy, shown);
  }

  // ----- a whole pass ----------------------------------------------------------------------------

  /** Without the links that no managed skill uses. */
  function Pruned(d: Disk, policy: Policy): Disk {
    d.(links := map p | p in d.links && (p in PathsOf(d) || p in policy.foreign) :: d.links[p])
  }

  /** A subscription row uses the path. */
  ghost predicate Uses(d: Disk, p: Path) {
    exists id :: id in d.subs && d.subs[id].path == p
  }

  /** The rows' turn in a completed pass takes the link at the row's path with it: a held row's if it
      was the one shown, a removed row's unless a team owns the resource. */
  ghost predicate TakesLink(d: Disk, id: ResourceId, catalog: Catalog, policy: Policy)
    requires id in d.subs
  {
    if id in catalog.holds && Targets(d.subs[id], catalog.holds[id]) then Active(d, id) else id !in policy.suppressed
  }

  /** All links after a completed pass. A skill with a row left and nothing in its way has the
      registry's revision, any other row's link is as it was; a row that went leaves a link only where
      an owned or pack skill has the path and the row did not take it along; elsewhere exactly the
      links of owned and pack skills stay, as they were. */
  ghost predicate LinksAfter(was: Disk, now: Disk, catalog: Catalog, policy: Policy) {
    && (forall id :: id in was.subs && id in now.subs ==> now.subs[id].path == was.subs[id].path)
    && (forall id :: id in now.subs ==>
          Link(now.links, now.subs[id].path) ==
            if Free(policy, id) && id in catalog.skills then Some(Target(id, catalog.skills[id].revision))
            else Link(was.links, now.subs[id].path))
    && (forall id :: id in was.subs && id !in now.subs ==>
          Link(now.links, was.subs[id].path) ==
            if was.subs[id].path in policy.foreign && !TakesLink(was, id, catalog, policy)
            then Link(was.links, was.subs[id].path) else None)
    && (forall p :: !Uses(was, p) && !Uses(now, p) ==>
          Link(now.links, p) == if p in policy.foreign then Link(was.links, p) else None)
  }

  /** All rows after a completed pass. What the registry has is taken over, with its revision shown
      unless policy, a team or a local fork is in the way; a row already at that generation and
      revision stays as it is. What is held goes if the hold is on the whole skill or on the very
      release; what the registry no longer has goes unless policy sources disagree about it. */
  ghost predicate RowsAfter(was: Disk, now: Disk, catalog: Catalog, policy: Policy) {
    forall id :: Row(now, id) == RowAfter(was, id, catalog, policy)
  }

  ghost function RowAfter(was: Disk, id: ResourceId, catalog: Catalog, policy: Policy): Option<Record> {
    if id in catalog.skills then
      var remote := catalog.skills[id];
      if id in was.subs && was.subs[id].generation == remote.generation
         && was.subs[id].materialized == Some(remote.revision) then Some(was.subs[id])
      else Some(Record(remote.path, remote.generation, remote.release, remote.revision,
                       if id !in policy.conflicted && id !in policy.suppressed && id !in policy.locked
                       then Some(remote.revision) else if id in was.subs then was.subs[id].materialized else None))
    else if id !in was.subs then None
    else if id in catalog.holds then
      if catalog.holds[id].None? || (was.subs[id].release.Some? && was.subs[id].release == catalog.holds[id]) then None
      else Some(was.subs[id])
    else if id in policy.conflicted then Some(was.subs[id])
    else None
  }

  /** Cut anywhere, a pass leaves the links alone that no subscription row uses before or after, but
      for links that no owned or pack skill uses either. */
  ghost predicate OthersLinks(was: Disk, now: Disk, policy: Policy) {
    forall p :: !Uses(was, p) && !Uses(now, p) ==>
      Link(now.links, p) == Link(was.links, p) || (p !in policy.foreign && p !in now.links)
  }

  /** An owned or pack skill's link outside the subscriptions' paths is left alone. */
  ghost predicate ForeignStays(was: Disk, now: Disk, policy: Policy) {
    forall p :: p in policy.foreign && !Uses(was, p) && !Uses(now, p) ==> Link(now.links, p) == Link(was.links, p)
  }

  /** A link disappears when no row left and no owned or pack skill uses it, and, but for the paths of
      rows that went, only then. */
  ghost predicate LinksAreUsed(was: Disk, now: Disk, policy: Policy) {
    && (forall p :: p in now.links ==> p in policy.foreign || Uses(now, p))
    && (forall p :: p in was.links && (Uses(now, p) || (p in policy.foreign && !Uses(was, p))) ==> p in now.links)
  }

  /** Some of the links that nothing uses are gone; the rest is as it was. */
  ghost predicate PartlyPruned(was: Disk, now: Disk, policy: Policy) {
    && now == was.(links := now.links)
    && forall p :: Link(now.links, p) == Link(was.links, p)
                   || (p !in PathsOf(was) && p !in policy.foreign && p !in now.links)
  }

  lemma PartlyPrunedIsTidy(d: Disk, e: Disk, catalog: Catalog, policy: Policy)
    requires Tidy(d, catalog, policy) && PartlyPruned(d, e, policy)
    ensures Tidy(e, catalog, policy)
  {
    forall id | id in d.subs ensures Link(e.links, d.subs[id].path) == Link(d.links, d.subs[id].path) {
      assert d.subs[id].path in PathsOf(d);
    }
    if d.journal.Some? && Tidy(d, catalog, policy) { assert d.journal.value.path in PathsOf(d); }
  }

  lemma PruneOne(was: Disk, now: Disk, policy: Policy, p: Path)
    requires PartlyPruned(was, now, policy) && p !in PathsOf(was) && p !in policy.foreign
    ensures PartlyPruned(was, now.(links := now.links - {p}), policy)
  {
  }

  lemma AllPruned(was: Disk, now: Disk, policy: Policy)
    requires PartlyPruned(was, now, policy)
    requires forall p :: p in now.links ==> p in PathsOf(was) || p in policy.foreign
    ensures now == Pruned(was, policy)
  {
    forall p ensures Link(now.links, p) == Link(Pruned(was, policy).links, p) {
      if p in now.links { assert Link(was.links, p) == Link(now.links, p); }
    }
    SameLinks(now.links, Pruned(was, policy).links);
  }

  lemma SameLinks(a: map<Path, Target>, b: map<Path, Target>)
    requires forall p :: Link(a, p) == Link(b, p)
    ensures a == b
  {
    forall p ensures p in a <==> p in b {
      assert Link(a, p) == Link(b, p);
    }
    forall p | p in a ensures a[p] == b[p] {
      assert Link(a, p) == Link(b, p);
    }
  }

  ghost predicate Unsent(d: Disk, id: ResourceId, remote: Remote) {
    id in d.subs && d.subs[id].generation == remote.generation && d.subs[id].materialized == Some(remote.revision)
  }

  /** A row that a further pass over the same registry has nothing to do for. */
  ghost predicate Quiet(d: Disk, id: ResourceId, catalog: Catalog, policy: Policy)
    requires id in d.subs
  {
    if id in catalog.skills then
      Unsent(d, id, catalog.skills[id]) || Row(d, id) == Some(Upserted(Row(d, id), catalog.skills[id]))
    else if id in catalog.holds then !Targets(d.subs[id], catalog.holds[id])
    else id in policy.conflicted
  }

  ghost predicate AllQuiet(d: Disk, catalog: Catalog, policy: Policy) {
    && (forall id :: id in catalog.skills ==> id in d.subs)
    && (forall id :: id in d.subs ==> Quiet(d, id, catalog, policy))
  }

  /** A state that a further pass over the same registry leaves alone. */
  ghost predicate Settled(d: Disk, catalog: Catalog, policy: Policy) {
    && Tidy(d, catalog, policy) && d.journal.None? && Converged(d, catalog, policy)
    && AllQuiet(d, catalog, policy) && Pruned(d, policy) == d
  }

  lemma PrunedIsTidy(d: Disk, catalog: Catalog, policy: Policy)
    requires Tidy(d, catalog, policy)
    ensures Tidy(Pruned(d, policy), catalog, policy)
    ensures Pruned(Pruned(d, policy), policy) == Pruned(d, policy)
    ensures forall id :: id in d.subs ==>
              Link(Pruned(d, policy).links, d.subs[id].path) == Link(d.links, d.subs[id].path)
  {
    var after := Pruned(d, policy);
    forall id | id in d.subs ensures Link(after.links, d.subs[id].path) == Link(d.links, d.subs[id].path) {
      assert d.subs[id].path in PathsOf(d);
    }
    assert PathsOf(after) == PathsOf(d);
  }

  lemma PruneSettles(d: Disk, catalog: Catalog, policy: Policy)
    requires Tidy(d, catalog, policy) && d.journal.None? && Converged(d, catalog, policy)
             && AllQuiet(d, catalog, policy)
    ensures Settled(Pruned(d, policy), catalog, policy)
  {
    var after := Pruned(d, policy);
    PrunedIsTidy(d, catalog, policy);
    forall id | id in after.subs ensures Quiet(after, id, catalog, policy) {
      assert Quiet(d, id, catalog, policy);
    }
  }

  /** The rows before the registry's answer is worked through: unheld, and not gone. */
  ghost predicate CleanedUp(start: Disk, cleaned: Disk, catalog: Catalog, policy: Policy) {
    var gone := Answer(catalog, Advertised(start.subs)).removed;
    forall id :: Row(cleaned, id) ==
      if id in gone && id !in policy.conflicted then None else AfterHold(Row(start, id), id, catalog.holds)
  }

  /** What was sent has been handled; what was not is as the registry has it. */
  lemma SentOrCurrent(start: Disk, cleaned: Disk, synced: Disk, catalog: Catalog, policy: Policy, id: ResourceId)
    requires OwnPaths(start, catalog) && CleanedUp(start, cleaned, catalog, policy) && id in catalog.skills
    requires SyncProgress(cleaned, synced, Answer(catalog, Advertised(start.subs)).skills, {}, catalog, policy)
    ensures Unsent(synced, id, catalog.skills[id]) || Handled(cleaned, synced, id, catalog, policy)
  {
    if id !in Answer(catalog, Advertised(start.subs)).skills {
      assert SameSkill(cleaned, synced, id);
      assert Row(cleaned, id) == Row(start, id);
    }
  }

  lemma PassQuiets(start: Disk, cleaned: Disk, synced: Disk, catalog: Catalog, policy: Policy)
    requires OwnPaths(start, catalog) && CleanedUp(start, cleaned, catalog, policy)
    requires SyncProgress(cleaned, synced, Answer(catalog, Advertised(start.subs)).skills, {}, catalog, policy)
    ensures AllQuiet(synced, catalog, policy)
  {
    forall id | id in catalog.skills ensures id in synced.subs && Quiet(synced, id, catalog, policy) {
      SentOrCurrent(start, cleaned, synced, catalog, policy, id);
    }
    forall id | id in synced.subs && id !in catalog.skills ensures Quiet(synced, id, catalog, policy) {
      assert SameSkill(cleaned, synced, id);
      assert Row(cleaned, id).Some?;
    }
  }

  lemma PassConverges(start: Disk, cleaned: Disk, synced: Disk, catalog: Catalog, policy: Policy)
    requires OwnPaths(start, catalog) && CleanedUp(start, cleaned, catalog, policy)
    requires SyncProgress(cleaned, synced, Answer(catalog, Advertised(start.subs)).skills, {}, catalog, policy)
    requires Tidy(synced, catalog, policy) && synced.journal.None?
    ensures Converged(synced, catalog, policy)
  {
    forall id | id in catalog.skills && Free(policy, id)
      ensures Unsent(synced, id, catalog.skills[id]) && Showing(synced, id, catalog.skills[id])
    {
      SentOrCurrent(start, cleaned, synced, catalog, policy, id);
    }
  }

  lemma PassSettles(start: Disk, cleaned: Disk, synced: Disk, catalog: Catalog, policy: Policy)
    requires Tidy(start, catalog, policy) && CleanedUp(start, cleaned, catalog, policy)
    requires SyncProgress(cleaned, synced, Answer(catalog, Advertised(start.subs)).skills, {}, catalog, policy)
    requires Tidy(synced, catalog, policy) && synced.journal.None?
    ensures Settled(Pruned(synced, policy), catalog, policy) && Tidy(Pruned(synced, policy), catalog, policy)
  {
    PassQuiets(start, cleaned, synced, catalog, policy);
    PassConverges(start, cleaned, synced, catalog, policy);
    PruneSettles(synced, catalog, policy);
  }

  /** The steps of a pass between the two states, before the links are tidied. */
  ghost predicate Cleaning(start: Disk, held: Disk, cleaned: Disk, catalog: Catalog, policy: Policy) {
    && OwnPaths(start, catalog)
    && (forall id :: Row(held, id) == AfterHold(Row(start, id), id, catalog.holds))
    && CleanedUp(start, cleaned, catalog, policy)
    && Shrinks(start, held) && HoldLinks(start, held, catalog.holds, catalog.holds.Keys)
    && Shrinks(held, cleaned)
    && RemovalLinks(held, cleaned, policy, Answer(catalog, Advertised(start.subs)).removed)
  }

  lemma KeptLink(start: Disk, held: Disk, cleaned: Disk, catalog: Catalog, policy: Policy, id: ResourceId)
    requires Cleaning(start, held, cleaned, catalog, policy) && id in cleaned.subs
    ensures Row(start, id) == Row(held, id) == Row(cleaned, id)
    ensures Link(cleaned.links, cleaned.subs[id].path) == Link(start.links, cleaned.subs[id].path)
  {
    hide Shrinks, OwnPaths, Targets, Advertised, Answer;
    assert Row(cleaned, id).Some?;
    assert Row(held, id) == AfterHold(Row(start, id), id, catalog.holds);
    assert id in held.subs && id in start.subs;
  }

  lemma DroppedLink(start: Disk, held: Disk, cleaned: Disk, catalog: Catalog, policy: Policy, id: ResourceId)
    requires Cleaning(start, held, cleaned, catalog, policy) && id in start.subs && id !in cleaned.subs
    ensures Link(cleaned.links, start.subs[id].path) ==
              if TakesLink(start, id, catalog, policy) then None else Link(start.links, start.subs[id].path)
  {
    hide Targets, Advertised;
    var path := start.subs[id].path;
    assert Row(cleaned, id).None?;
    assert Row(held, id) == AfterHold(Row(start, id), id, catalog.holds);
    if id !in held.subs {
      forall i | i in held.subs ensures held.subs[i].path != path {
        assert Row(held, i) == AfterHold(Row(start, i), i, catalog.holds);
      }
      assert path !in PathsOf(held);
    }
  }

  lemma UnusedLink(start: Disk, held: Disk, cleaned: Disk, synced: Disk, p: Path)
    requires Shrinks(start, held) && Shrinks(held, cleaned) && Grows(cleaned, synced)
    requires !Uses(start, p) && !Uses(synced, p)
    ensures Link(synced.links, p) == Link(start.links, p) && p !in PathsOf(synced)
  {
    assert p !in PathsOf(start) && p !in PathsOf(synced);
  }

  /** A row that is left has its path, and the link it had unless the pass shows it. */
  lemma LeftLink(start: Disk, held: Disk, cleaned: Disk, synced: Disk, catalog: Catalog, policy: Policy, id: ResourceId)
    requires Cleaning(start, held, cleaned, catalog, policy)
    requires SyncProgress(cleaned, synced, Answer(catalog, Advertised(start.subs)).skills, {}, catalog, policy)
    requires id in synced.subs
    ensures !(Free(policy, id) && id in catalog.skills) ==>
              Link(synced.links, synced.subs[id].path) == Link(start.links, synced.subs[id].path)
    ensures id in start.subs ==> synced.subs[id].path == start.subs[id].path
  {
    var sent := Answer(catalog, Advertised(start.subs)).skills;
    if id in sent {
      assert id in sent - {} && Handled(cleaned, synced, id, catalog, policy);
      assert id in catalog.skills && Row(cleaned, id) == Row(start, id);
      if id !in cleaned.subs {
        assert catalog.skills[id].path !in PathsOf(start);
      } else {
        KeptLink(start, held, cleaned, catalog, policy, id);
      }
    } else {
      assert SameSkill(cleaned, synced, id);
      assert Row(cleaned, id).Some?;
      KeptLink(start, held, cleaned, catalog, policy, id);
    }
  }

  lemma PassLinks(start: Disk, held: Disk, cleaned: Disk, synced: Disk, catalog: Catalog, policy: Policy)
    requires Cleaning(start, held, cleaned, catalog, policy)
    requires SyncProgress(cleaned, synced, Answer(catalog, Advertised(start.subs)).skills, {}, catalog, policy)
    requires Tidy(synced, catalog, policy) && synced.journal.None?
    ensures LinksAfter(start, Pruned(synced, policy), catalog, policy)
  {
    PassLeft(start, held, cleaned, synced, catalog, policy);
    PassGone(start, held, cleaned, synced, catalog, policy);
    CleaningMoves(start, held, cleaned, synced, catalog, policy);
    PrunedLinks(synced, policy);
    hide Cleaning, SyncProgress, Answer, Advertised, Tidy, TakesLink, Free, Shrinks, Grows, Pruned, PathsOf, Uses;
    forall p | !Uses(start, p) && !Uses(synced, p)
      ensures Link(Pruned(synced, policy).links, p) == if p in policy.foreign then Link(start.links, p) else None
    {
      UnusedLink(start, held, cleaned, synced, p);
    }
    SameUses(synced, policy);
  }

  lemma SameUses(d: Disk, policy: Policy)
    ensures forall p :: Uses(Pruned(d, policy), p) == Uses(d, p)
  {
  }

  lemma PassLeft(start: Disk, held: Disk, cleaned: Disk, synced: Disk, catalog: Catalog, policy: Policy)
    requires Cleaning(start, held, cleaned, catalog, policy)
    requires SyncProgress(cleaned, synced, Answer(catalog, Advertised(start.subs)).skills, {}, catalog, policy)
    requires Tidy(synced, catalog, policy) && synced.journal.None?
    ensures var now := Pruned(synced, policy);
            forall id :: id in now.subs ==>
              && (id in start.subs ==> now.subs[id].path == start.subs[id].path)
              && Link(now.links, now.subs[id].path) ==
                   if Free(policy, id) && id in catalog.skills then Some(Target(id, catalog.skills[id].revision))
                   else Link(start.links, now.subs[id].path)
  {
    var now := Pruned(synced, policy);
    PassConverges(start, cleaned, synced, catalog, policy);
    PrunedLinks(synced, policy);
    hide Cleaning, SyncProgress, Answer, Advertised, Tidy, Free, PathsOf, Pruned;
    forall id | id in now.subs
      ensures id in start.subs ==> now.subs[id].path == start.subs[id].path
      ensures Link(now.links, now.subs[id].path) ==
                if Free(policy, id) && id in catalog.skills then Some(Target(id, catalog.skills[id].revision))
                else Link(start.links, now.subs[id].path)
    {
      LeftLink(start, held, cleaned, synced, catalog, policy, id);
    }
  }

  lemma PassGone(start: Disk, held: Disk, cleaned: Disk, synced: Disk, catalog: Catalog, policy: Policy)
    requires Cleaning(start, held, cleaned, catalog, policy)
    requires SyncProgress(cleaned, synced, Answer(catalog, Advertised(start.subs)).skills, {}, catalog, policy)
    requires Tidy(synced, catalog, policy)
    ensures var now := Pruned(synced, policy);
            forall id :: id in start.subs && id !in now.subs ==>
              Link(now.links, start.subs[id].path) ==
                if start.subs[id].path in policy.foreign && !TakesLink(start, id, catalog, policy)
                then Link(start.links, start.subs[id].path) else None
  {
    var now := Pruned(synced, policy);
    TidyOwns(synced, catalog, policy);
    PrunedLinks(synced, policy);
    hide Cleaning, SyncProgress, Answer, Advertised, Tidy, OwnPaths, TakesLink, PathsOf, Pruned;
    forall id | id in start.subs && id !in now.subs
      ensures Link(now.links, start.subs[id].path) ==
                if start.subs[id].path in policy.foreign && !TakesLink(start, id, catalog, policy)
                then Link(start.links, start.subs[id].path) else None
    {
      GoneLink(start, held, cleaned, synced, catalog, policy, id);
    }
  }

  lemma PrunedLinks(d: Disk, policy: Policy)
    ensures var now := Pruned(d, policy);
            && now.subs == d.subs
            && (forall p :: Link(now.links, p) ==
                  if p in PathsOf(d) || p in policy.foreign then Link(d.links, p) else None)
            && (forall id :: id in d.subs ==> d.subs[id].path in PathsOf(d))
  {
  }

  lemma CleaningMoves(start: Disk, held: Disk, cleaned: Disk, synced: Disk, catalog: Catalog, policy: Policy)
    requires Cleaning(start, held, cleaned, catalog, policy)
    requires SyncProgress(cleaned, synced, Answer(catalog, Advertised(start.subs)).skills, {}, catalog, policy)
    ensures Shrinks(start, held) && Shrinks(held, cleaned) && Grows(cleaned, synced)
  {
  }

  /** What a row that went leaves behind. */
  lemma GoneLink(start: Disk, held: Disk, cleaned: Disk, synced: Disk, catalog: Catalog, policy: Policy, id: ResourceId)
    requires Cleaning(start, held, cleaned, catalog, policy)
    requires SyncProgress(cleaned, synced, Answer(catalog, Advertised(start.subs)).skills, {}, catalog, policy)
    requires id in start.subs && id !in synced.subs && OwnPaths(synced, catalog)
    ensures var path := start.subs[id].path;
            && path !in PathsOf(synced)
            && Link(synced.links, path) ==
                 if TakesLink(start, id, catalog, policy) then None else Link(start.links, path)
  {
    var path, sent := start.subs[id].path, Answer(catalog, Advertised(start.subs)).skills;
    forall i | i in sent ensures Row(synced, i).Some? {
      assert Handled(cleaned, synced, i, catalog, policy);
    }
    assert id !in sent;
    assert SameSkill(cleaned, synced, id);
    assert id !in cleaned.subs;
    DroppedLink(start, held, cleaned, catalog, policy, id);
    forall i | i in synced.subs ensures synced.subs[i].path != path {
      if i in sent {
        assert Handled(cleaned, synced, i, catalog, policy);
      } else {
        assert SameSkill(cleaned, synced, i);
        assert Row(cleaned, i).Some?;
        KeptLink(start, held, cleaned, catalog, policy, i);
      }
    }
    hide TakesLink, Advertised;
  }

  /** A cut pass: whatever it had done, only rows went and then only rows came. */
  lemma CutLinks(start: Disk, cleaned: Disk, synced: Disk, now: Disk, policy: Policy)
    requires Shrinks(start, cleaned) && Grows(cleaned, synced) && PartlyPruned(synced, now, policy)
    ensures OthersLinks(start, now, policy)
  {
    assert now.subs == synced.subs;
    forall p | !Uses(start, p) && !Uses(now, p)
      ensures Link(now.links, p) == Link(start.links, p) || (p !in policy.foreign && p !in now.links)
    {
      assert p !in PathsOf(start) && p !in PathsOf(synced) && p !in PathsOf(cleaned);
      assert Link(synced.links, p) == Link(start.links, p);
    }
  }

  lemma PassRows(start: Disk, cleaned: Disk, synced: Disk, catalog: Catalog, policy: Policy)
    requires OwnPaths(start, catalog) && CleanedUp(start, cleaned, catalog, policy)
    requires SyncProgress(cleaned, synced, Answer(catalog, Advertised(start.subs)).skills, {}, catalog, policy)
    ensures RowsAfter(start, Pruned(synced, policy), catalog, policy)
  {
    hide SyncProgress, CleanedUp, Answer, Advertised, Pruned, RowAfter, OwnPaths;
    SameRows(synced, policy);
    forall id ensures Row(synced, id) == RowAfter(start, id, catalog, policy) {
      PassRow(start, cleaned, synced, catalog, policy, id);
    }
  }

  lemma PassRow(start: Disk, cleaned: Disk, synced: Disk, catalog: Catalog, policy: Policy, id: ResourceId)
    requires OwnPaths(start, catalog) && CleanedUp(start, cleaned, catalog, policy)
    requires SyncProgress(cleaned, synced, Answer(catalog, Advertised(start.subs)).skills, {}, catalog, policy)
    ensures Row(synced, id) == RowAfter(start, id, catalog, policy)
  {
    var sent := Answer(catalog, Advertised(start.subs)).skills;
    assert Row(cleaned, id) ==
      if id in Answer(catalog, Advertised(start.subs)).removed && id !in policy.conflicted then None
      else AfterHold(Row(start, id), id, catalog.holds);
    if id in sent - {} {
      assert Handled(cleaned, synced, id, catalog, policy);
    } else {
      assert SameSkill(cleaned, synced, id);
    }
    hide SyncProgress, CleanedUp, OwnRows;
  }

  lemma SameRows(d: Disk, policy: Policy)
    ensures forall id :: Row(Pruned(d, policy), id) == Row(d, id)
  {
  }

  lemma TidyOwns(d: Disk, catalog: Catalog, policy: Policy)
    requires Tidy(d, catalog, policy)
    ensures OwnPaths(d, catalog)
  {
  }

  lemma ShrinksOn(a: Disk, b: Disk, c: Disk)
    requires Shrinks(a, b) && Shrinks(b, c)
    ensures Shrinks(a, c)
  {
  }

  lemma NoMove(d: Disk, policy: Policy)
    ensures Grows(d, d) && Shrinks(d, d) && PartlyPruned(d, d, policy)
  {
  }

  /** After a recovery, which touches the link of its own row only. */
  lemma RecoveredOthers(was: Disk, start: Disk, now: Disk, policy: Policy, fault: Fault)
    requires JournalOk(was, policy) && Recovered(was, start, policy, fault) && OthersLinks(start, now, policy)
    ensures OthersLinks(was, now, policy)
  {
    RecoveredPaths(was, start, policy, fault);
    hide Recovered, JournalOk;
    forall p | !Uses(was, p) && !Uses(now, p)
      ensures Link(now.links, p) == Link(was.links, p) || (p !in policy.foreign && p !in now.links)
    {
      assert !Uses(start, p);
    }
  }

  lemma AfterRecovered(was: Disk, start: Disk, now: Disk, catalog: Catalog, policy: Policy, fault: Fault)
    requires Tidy(was, catalog, policy) && Recovered(was, start, policy, fault) && fault.Works?
    requires LinksAfter(start, now, catalog, policy)
    ensures ForeignStays(was, now, policy) && LinksAreUsed(was, now, policy)
    ensures was.journal.None? ==> start == was
  {
    RecoveredPaths(was, start, policy, fault);
    hide Tidy, Recovered, JournalOk, Free, TakesLink, Uses;
    forall p | Uses(now, p) && p in was.links ensures p in now.links {
      assert p in start.links;
      UsedLink(start, now, catalog, policy, p);
    }
    forall p | !Uses(now, p) && p !in policy.foreign ensures p !in now.links {
      UnusedIsGone(start, now, catalog, policy, p);
    }
  }

  lemma RecoveredPaths(was: Disk, start: Disk, policy: Policy, fault: Fault)
    requires JournalOk(was, policy) && Recovered(was, start, policy, fault)
    ensures was.journal.None? ==> start == was
    ensures start.subs.Keys == was.subs.Keys && forall id :: id in was.subs ==> start.subs[id].path == was.subs[id].path
    ensures forall p :: p in was.links ==> p in start.links
    ensures forall p :: Uses(start, p) == Uses(was, p)
    ensures forall p :: !Uses(was, p) ==> Link(start.links, p) == Link(was.links, p)
  {
    forall p ensures Uses(start, p) == Uses(was, p) {
      if Uses(was, p) {
        var id :| id in was.subs && was.subs[id].path == p;
        assert id in start.subs && start.subs[id].path == p;
      }
    }
  }

  lemma UsedLink(start: Disk, now: Disk, catalog: Catalog, policy: Policy, p: Path)
    requires LinksAfter(start, now, catalog, policy) && Uses(now, p) && p in start.links
    ensures p in now.links
  {
    var id :| id in now.subs && now.subs[id].path == p;
    assert Link(now.links, now.subs[id].path).Some?;
  }

  lemma UnusedIsGone(start: Disk, now: Disk, catalog: Catalog, policy: Policy, p: Path)
    requires LinksAfter(start, now, catalog, policy) && !Uses(now, p) && p !in policy.foreign
    ensures p !in now.links
  {
    if Uses(start, p) {
      var id :| id in start.subs && start.subs[id].path == p;
      assert id !in now.subs;
    }
  }

  /** For a free skill, what is missing can be read off its row. */
  lemma MissingByRow(d: Disk, e: Disk, skills: set<ResourceId>, catalog: Catalog, policy: Policy)
    requires Tidy(d, catalog, policy) && d.journal.None? && Tidy(e, catalog, policy) && e.journal.None?
    requires skills <= catalog.skills.Keys
    requires forall id :: id in skills ==> Row(d, id) == Row(e, id)
    ensures Missing(d, skills, catalog, policy) == Missing(e, skills, catalog, policy)
  {
    forall id | id in skills && Free(policy, id)
      ensures Showing(d, id, catalog.skills[id]) == Showing(e, id, catalog.skills[id])
    {
      assert Row(d, id) == Row(e, id);
    }
  }

  lemma CountsHold(start: Disk, held: Disk, cleaned: Disk, catalog: Catalog, policy: Policy)
    requires Tidy(start, catalog, policy) && start.journal.None? && Tidy(cleaned, catalog, policy)
             && cleaned.journal.None?
    requires forall id :: Row(held, id) == AfterHold(Row(start, id), id, catalog.holds)
    requires CleanedUp(start, cleaned, catalog, policy)
    ensures var delta := Answer(catalog, Advertised(start.subs));
            && Missing(cleaned, delta.skills, catalog, policy) == Missing(start, delta.skills, catalog, policy)
            && Gone(held, delta.removed, policy) == Gone(start, delta.removed, policy)
  {
    var delta := Answer(catalog, Advertised(start.subs));
    forall id | id in delta.skills ensures Row(cleaned, id) == Row(start, id) {
    }
    MissingByRow(cleaned, start, delta.skills, catalog, policy);
    forall id | id in delta.removed ensures Row(held, id) == Row(start, id) {
    }
  }

  /** What such a state makes of the steps of a pass: nothing. */
  lemma SettledIsStill(d: Disk, catalog: Catalog, policy: Policy)
    requires Settled(d, catalog, policy)
    ensures Tidy(d, catalog, policy) && d.journal.None? && Pruned(d, policy) == d
    ensures forall id :: id in catalog.holds && id in d.subs ==> !Targets(d.subs[id], catalog.holds[id])
    ensures var delta := Answer(catalog, Advertised(d.subs));
            && (forall id :: id in delta.removed && id in d.subs ==> id in policy.conflicted)
            && Idle(d, delta.skills, catalog, policy)
            && Missing(d, delta.skills, catalog, policy) == {} && Gone(d, delta.removed, policy) == {}
  {
    var delta := Answer(catalog, Advertised(d.subs));
    forall id | id in d.subs ensures Quiet(d, id, catalog, policy) {
    }
    forall id | id in delta.skills
      ensures !Free(policy, id) && (id in d.subs ==> Row(d, id) == Some(Upserted(Row(d, id), catalog.skills[id])))
    {
    }
  }

  class Device {
    var disk: Disk
    var faults: seq<Fault>

    constructor (disk: Disk, faults: seq<Fault>)
      ensures this.disk == disk && this.faults == faults
    {
      this.disk, this.faults := disk, faults;
    }

    method NextFault() returns (fault: Fault)
      modifies this`faults
      ensures Calm(old(faults)) ==> fault.Works? && Calm(faults)
    {
      fault := Works;
      if faults != [] {
        fault, faults := faults[0], faults[1..];
      }
    }

    method Land(next: Disk) returns (fault: Fault)
      modifies this
      ensures disk == if fault.Works? then next else old(disk)
      ensures Calm(old(faults)) ==> fault.Works? && Calm(faults)
    {
      fault := NextFault();
      if fault.Works? { disk := next; }
    }

    /** `mark_skill_materialized` and the end of the journal; refuses a row that is gone, wants
        another revision or is suppressed. */
    method Finish(p: Pending, policy: Policy) returns (fault: Fault)
      modifies this
      ensures disk == if fault.Works? then Finished(old(disk), p) else old(disk)
      ensures fault.Works? ==> Finishable(old(disk), p, policy)
      ensures Calm(old(faults)) && Finishable(old(disk), p, policy) ==> fault.Works?
      ensures Calm(old(faults)) ==> Calm(faults)
    {
      if p.id !in disk.subs || disk.subs[p.id].desired != p.revision || p.id in policy.suppressed { return Fails; }
      fault := Land(Finished(disk, p));
    }

    /** `recover_materializations`. */
    method Recover(policy: Policy) returns (fault: Fault)
      modifies this
      ensures Recovered(old(disk), disk, policy, fault)
      ensures Calm(old(faults)) ==> Calm(faults)
      ensures Calm(old(faults)) && JournalOk(old(disk), policy) ==> fault.Works?
      ensures Stranded(old(disk)) ==> !fault.Works? && disk == old(disk)
    {
      if disk.journal.None? { return Works; }
      var p := disk.journal.value;
      if p.switched {
        if Link(disk.links, p.path) != Some(Target(p.id, p.revision)) { return Fails; }
      } else {
        fault := Land(Relinked(disk, p));
        if !fault.Works? { return; }
        p := p.(switched := true);
      }
      fault := Finish(p, policy);
    }

    /** A held subscription loses its row, and its link if it was the one shown. */
    method QuarantineOne(id: ResourceId, hold: Option<nat>) returns (fault: Fault)
      modifies this
      ensures disk == if fault.Works? then Held(old(disk), id, hold) else old(disk)
      ensures Calm(old(faults)) ==> fault.Works? && Calm(faults)
    {
      if id !in disk.subs || !Targets(disk.subs[id], hold) { return Works; }
      if Active(disk, id) {
        fault := Land(disk.(subs := disk.subs - {id}, links := disk.links - {disk.subs[id].path}));
      } else {
        fault := Land(disk.(subs := disk.subs - {id}));
      }
    }

    /** A subscription the account no longer has: kept while policy sources disagree, forgotten
        without touching the link while a team assignment owns it, else taken down. */
    method RemoveOne(id: ResourceId, policy: Policy) returns (fault: Fault, gone: bool)
      modifies this
      ensures disk == if fault.Works? then Removed(old(disk), id, policy) else old(disk)
      ensures gone <==> fault.Works? && id in old(disk).subs && id !in policy.conflicted && id !in policy.suppressed
      ensures Calm(old(faults)) ==> fault.Works? && Calm(faults)
    {
      if id !in disk.subs || id in policy.conflicted { return Works, false; }
      if id in policy.suppressed {
        fault := Land(disk.(subs := disk.subs - {id}));
        return fault, false;
      }
      fault := Land(disk.(subs := disk.subs - {id}, links := disk.links - {disk.subs[id].path}));
      gone := fault.Works?;
    }

    /** One subscription the registry sent. The upserted row keeps what is materialized; a
        renamed skill is taken down first, row and all. */
    method SyncOne(id: ResourceId, remote: Remote, policy: Policy) returns (fault: Fault, shown: bool)
      requires disk.journal.None?
      modifies this
      ensures !Renamed(old(disk), id, remote) || id in policy.conflicted + policy.suppressed ==>
                Synced(old(disk), disk, id, remote, policy, fault, shown)
      ensures Renamed(old(disk), id, remote) && Free(policy, id) ==>
                !fault.Works? && !shown
                && (Calm(old(faults)) ==>
                    Stranded(disk) && disk.journal == Some(Pending(id, remote.path, remote.revision, true)))
      ensures Renamed(old(disk), id, remote) && id in policy.locked - policy.conflicted - policy.suppressed ==>
                var down := old(disk).(subs := old(disk).subs - {id},
                                       links := old(disk).links - {old(disk).subs[id].path});
                !shown && disk in {old(disk), Told(old(disk), id, remote), down} && (fault.Works? ==> disk == down)
      ensures fault.Works? ==> disk.journal.None?
      ensures Calm(old(faults)) ==> Calm(faults)
      ensures Calm(old(faults)) && !(Renamed(old(disk), id, remote) && Free(policy, id)) ==> fault.Works?
    {
      shown := false;
      var existing := Row(disk, id);
      fault := Land(disk.(subs := disk.subs[id := Upserted(existing, remote)]));
      if !fault.Works? { return; }
      fault := NextFault();
      if !fault.Works? || id in policy.conflicted { return; }
      if id !in policy.suppressed && existing.Some? && existing.value.path != remote.path {
        assert disk.subs - {id} == old(disk).subs - {id};
        fault := Land(disk.(subs := disk.subs - {id}, links := disk.links - {existing.value.path}));
        if !fault.Works? { return; }
        existing := None;
      }
      if id in policy.locked || id in policy.suppressed { return; }
      if existing.Some? && existing.value.materialized == Some(remote.revision)
         && Link(disk.links, remote.path) == Some(Target(id, remote.revision)) { return; }
      fault := NextFault();
      if !fault.Works? { return; }
      var p := Pending(id, remote.path, remote.revision, false);
      fault := Land(disk.(journal := Some(p)));
      if !fault.Works? { return; }
      fault := Land(Relinked(disk, p));
      if !fault.Works? { return; }
      fault := Finish(p.(switched := true), policy);
      shown := fault.Works?;
    }

    method QuarantineAll(catalog: Catalog, policy: Policy) returns (fault: Fault)
      requires disk.journal.None?
      modifies this
      ensures Tidy(old(disk), catalog, policy) ==> Tidy(disk, catalog, policy)
      ensures disk.journal.None?
      ensures fault.Works? ==> forall id :: Row(disk, id) == AfterHold(Row(old(disk), id), id, catalog.holds)
      ensures Shrinks(old(disk), disk)
      ensures fault.Works? && Tidy(old(disk), catalog, policy) ==>
                HoldLinks(old(disk), disk, catalog.holds, catalog.holds.Keys)
      ensures (forall id :: id in catalog.holds && id in old(disk).subs ==>
               !Targets(old(disk).subs[id], catalog.holds[id])) ==>
                disk == old(disk)
      ensures Calm(old(faults)) ==> fault.Works? && Calm(faults)
    {
      if Tidy(disk, catalog, policy) { assert OwnRows(disk); }
      hide Tidy, Targets, Shrinks, HoldLinks, OwnRows, Row, Held, Calm;
      ghost var keys, tidy := catalog.holds.Keys, Tidy(disk, catalog, policy);
      ghost var idle := forall id :: id in catalog.holds && id in disk.subs ==>
          !Targets(disk.subs[id], catalog.holds[id]);
      var left := catalog.holds.Keys;
      fault := Works;
      HoldsStart(disk, catalog.holds);
      assert keys - left == {};
      while left != {}
        invariant left <= catalog.holds.Keys && fault.Works? && disk.journal.None?
        invariant Tidy(old(disk), catalog, policy) ==> Tidy(disk, catalog, policy)
        invariant forall id :: Row(disk, id) == if id in left then Row(old(disk), id)
                                                else AfterHold(Row(old(disk), id), id, catalog.holds)
        invariant Shrinks(old(disk), disk)
        invariant tidy ==> HoldLinks(old(disk), disk, catalog.holds, keys - left)
        invariant idle ==> disk == old(disk)
        invariant Calm(old(faults)) ==> Calm(faults)
      {
        var id := Least(left);
        ghost var was := disk;
        assert Row(was, id) == Row(old(disk), id);
        HoldStep(old(disk), was, id, catalog.holds, keys - left);
        assert keys - (left - {id}) == keys - left + {id};
        left := left - {id};
        fault := QuarantineOne(id, catalog.holds[id]);
        if Tidy(was, catalog, policy) { HeldIsTidy(was, id, catalog.holds[id], catalog, policy); }
        if !fault.Works? { return; }
        HeldRows(was, id, catalog.holds);
      }
      assert keys - left == keys;
    }

    method RemoveAll(ids: set<ResourceId>, catalog: Catalog, policy: Policy) returns (fault: Fault, removed: nat)
      requires disk.journal.None?
      modifies this
      ensures Tidy(old(disk), catalog, policy) ==> Tidy(disk, catalog, policy)
      ensures disk.journal.None?
      ensures fault.Works? ==>
                && RowsRemoved(old(disk), disk, policy, ids)
                && removed == |Gone(old(disk), ids, policy)|
      ensures Shrinks(old(disk), disk)
      ensures fault.Works? && Tidy(old(disk), catalog, policy) ==> RemovalLinks(old(disk), disk, policy, ids)
      ensures (forall id :: id in ids && id in old(disk).subs ==> id in policy.conflicted) ==> disk == old(disk)
      ensures Calm(old(faults)) ==> fault.Works? && Calm(faults)
    {
      hide Tidy, RemovalProgress, Gone, Shrinks, RemovalLinks, RowsRemoved, Removed, Calm;
      ghost var tidy := Tidy(disk, catalog, policy);
      var left := ids;
      RemovalStarts(disk, ids, policy);
      fault, removed := Works, 0;
      while left != {}
        invariant left <= ids && fault.Works? && disk.journal.None?
        invariant tidy ==> Tidy(disk, catalog, policy)
        invariant RemovalProgress(old(disk), disk, ids, left, policy, removed)
        invariant Calm(old(faults)) ==> Calm(faults)
      {
        var id := Least(left);
        ghost var was := disk;
        RemovalTurn(old(disk), was, ids, left, id, policy, removed);
        RemovalSays(old(disk), was, ids, left, policy, removed, catalog);
        if tidy { RemovedIsTidy(was, id, catalog, policy); }
        left := left - {id};
        var gone;
        fault, gone := RemoveOne(id, policy);
        if !fault.Works? { return; }
        if gone { removed := removed + 1; }
      }
      RemovalSays(old(disk), disk, ids, {}, policy, removed, catalog);
    }

    method SyncAll(skills: set<ResourceId>, catalog: Catalog, policy: Policy) returns (fault: Fault, materialized: nat)
      requires disk.journal.None? && skills <= catalog.skills.Keys
      modifies this
      ensures Tidy(old(disk), catalog, policy) ==>
                && Tidy(disk, catalog, policy) && Grows(old(disk), disk)
                && (fault.Works? ==>
                      && disk.journal.None? && SyncProgress(old(disk), disk, skills, {}, catalog, policy)
                      && materialized == |Missing(old(disk), skills, catalog, policy)|
                      && (Idle(old(disk), skills, catalog, policy) ==> disk == old(disk)))
                && (Calm(old(faults)) ==> fault.Works? && Calm(faults))
    {
      hide Synced, SyncProgress, Missing, Grows;
      ghost var tidy := Tidy(disk, catalog, policy);
      var left := skills;
      fault, materialized := Works, 0;
      assert skills - left == {} && Missing(disk, {}, catalog, policy) == {} by {
        NothingMissing(disk, catalog, policy);
      }
      SyncStarts(disk, skills, catalog, policy);
      while left != {}
        invariant left <= skills && fault.Works? && disk.journal.None?
        invariant tidy ==>
                    && Tidy(disk, catalog, policy) && SyncProgress(old(disk), disk, skills, left, catalog, policy)
                    && Grows(old(disk), disk)
                    && materialized == |Missing(old(disk), skills - left, catalog, policy)|
                    && (Idle(old(disk), skills, catalog, policy) ==> disk == old(disk))
                    && (Calm(old(faults)) ==> Calm(faults))
      {
        hide Tidy, Idle;
        var id := Least(left);
        ghost var was := disk;
        var shown;
        fault, shown := SyncOne(id, catalog.skills[id], policy);
        if tidy {
          ToldIsTidy(was, id, catalog, policy);
          SyncedIsTidy(was, disk, id, catalog, policy, fault, shown);
          SyncedLeavesOthers(was, disk, id, catalog, policy, fault, shown);
          GrowsOn(old(disk), was, disk);
          if fault.Works? {
            TurnOver(old(disk), was, disk, skills, left, id, catalog, policy, shown);
          }
        }
        if !fault.Works? { return; }
        left := left - {id};
        if shown { materialized := materialized + 1; }
      }
      assert skills - left == skills;
    }

    /** One pass. Whatever stops it, the next one starts from a tidy state; a completed one
        shows every subscription nothing stands in the way of, and leaves nothing for the next. */
    method SyncPass(catalog: Catalog, policy: Policy) returns (result: Pass)
      modifies this
      ensures Tidy(old(disk), catalog, policy) ==> Tidy(disk, catalog, policy)
      ensures Tidy(old(disk), catalog, policy) && result.Done? ==> Settled(disk, catalog, policy)
      ensures Tidy(old(disk), catalog, policy) && Calm(old(faults)) ==> result.Done? && Calm(faults)
      ensures Settled(old(disk), catalog, policy) && result.Done? ==> result == Done(0, 0) && disk == old(disk)
      ensures Stranded(old(disk)) ==> !result.Done? && disk == old(disk)
      ensures Tidy(old(disk), catalog, policy) ==> ForeignStays(old(disk), disk, policy)
      ensures Tidy(old(disk), catalog, policy) && result.Done? ==> LinksAreUsed(old(disk), disk, policy)
      ensures Tidy(old(disk), catalog, policy) && !result.Done? ==> OthersLinks(old(disk), disk, policy)
      ensures Tidy(old(disk), catalog, policy) && result.Done? && old(disk).journal.None? ==>
                LinksAfter(old(disk), disk, catalog, policy) && RowsAfter(old(disk), disk, catalog, policy)
    {
      ghost var tidy := Tidy(disk, catalog, policy);
      ghost var settled := Settled(disk, catalog, policy);
      if settled { SettledIsStill(disk, catalog, policy); }
      var fault := Recover(policy);
      if tidy { RecoveredIsTidy(old(disk), disk, catalog, policy, fault); }
      ghost var recovery := fault;
      if fault.Works? { fault := NextFault(); }
      hide Tidy, Settled, Recovered, JournalOk, OthersLinks, LinksAfter, RowsAfter, Calm;
      ghost var start := disk;
      assert OthersLinks(start, start, policy);
      if tidy { RecoveredOthers(old(disk), start, start, policy, recovery); }
      if !fault.Works? {
        return Stopped(fault);
      }
      result := AfterRecovery(catalog, policy);
      if tidy {
        if result.Done? {
          AfterRecovered(old(disk), start, disk, catalog, policy, recovery);
        } else {
          RecoveredOthers(old(disk), start, disk, policy, recovery);
        }
      }
    }

    /** Removes the links that no managed skill uses, one after another. */
    method ReconcileCanonicalLinks(policy: Policy) returns (fault: Fault)
      modifies this
      ensures PartlyPruned(old(disk), disk, policy)
      ensures fault.Works? ==> disk == Pruned(old(disk), policy)
      ensures Calm(old(faults)) ==> fault.Works? && Calm(faults)
    {
      hide PartlyPruned, Pruned;
      var desired := PathsOf(disk) + policy.foreign;
      var left := disk.links.Keys;
      NoMove(disk, policy);
      fault := Works;
      while left != {}
        invariant PartlyPruned(old(disk), disk, policy) && fault.Works?
        invariant forall p :: p in disk.links ==> p in left || p in desired
        invariant Calm(old(faults)) ==> Calm(faults)
      {
        var p := Least(left);
        left := left - {p};
        if p in desired { continue; }
        PruneOne(old(disk), disk, policy, p);
        fault := Land(disk.(links := disk.links - {p}));
        if !fault.Works? { return; }
      }
      AllPruned(old(disk), disk, policy);
    }

    method AfterRecovery(catalog: Catalog, policy: Policy) returns (result: Pass)
      requires disk.journal.None?
      modifies this
      ensures Tidy(old(disk), catalog, policy) ==> Tidy(disk, catalog, policy)
      ensures Tidy(old(disk), catalog, policy) && result.Done? ==> Settled(disk, catalog, policy)
      ensures Tidy(old(disk), catalog, policy) && Calm(old(faults)) ==> result.Done? && Calm(faults)
      ensures Settled(old(disk), catalog, policy) && result.Done? ==> result == Done(0, 0) && disk == old(disk)
      ensures Tidy(old(disk), catalog, policy) && result.Done? ==>
                var delta := Answer(catalog, Advertised(old(disk).subs));
                result == Done(|Missing(old(disk), delta.skills, catalog, policy)|,
                               |Gone(old(disk), delta.removed, policy)|)
      ensures Tidy(old(disk), catalog, policy) ==> OthersLinks(old(disk), disk, policy) || result.Done?
      ensures Tidy(old(disk), catalog, policy) && result.Done? ==>
                LinksAfter(old(disk), disk, catalog, policy) && RowsAfter(old(disk), disk, catalog, policy)
    {
      hide Tidy, Settled, SyncProgress, Idle, Missing, Gone, Row, Answer, AfterHold, Calm, Pruned, OwnPaths, Shrinks,
        Grows, HoldLinks, RemovalLinks, OthersLinks, LinksAfter, RowsAfter, PartlyPruned;
      ghost var start := disk;
      ghost var tidy := Tidy(start, catalog, policy);
      ghost var settled := Settled(start, catalog, policy);
      if settled { SettledIsStill(start, catalog, policy); }
      if tidy { TidyOwns(start, catalog, policy); }
      var delta := Answer(catalog, Advertised(disk.subs));
      assert delta.skills <= catalog.skills.Keys by { AnswerIsKnown(catalog, disk.subs); }
      var fault := QuarantineAll(catalog, policy);
      NoMove(disk, policy);
      if !fault.Works? { CutLinks(start, disk, disk, disk, policy); return Stopped(fault); }
      ghost var held := disk;
      var removed, materialized;
      fault, removed := RemoveAll(delta.removed, catalog, policy);
      ShrinksOn(start, held, disk);
      NoMove(disk, policy);
      if !fault.Works? { CutLinks(start, disk, disk, disk, policy); return Stopped(fault); }
      ghost var cleaned := disk;
      if tidy { CountsHold(start, held, cleaned, catalog, policy); }
      fault, materialized := SyncAll(delta.skills, catalog, policy);
      NoMove(disk, policy);
      if tidy { CutLinks(start, cleaned, disk, disk, policy); }
      if !fault.Works? { return Stopped(fault); }
      ghost var synced := disk;
      if tidy {
        PassSettles(start, cleaned, synced, catalog, policy);
        PassLinks(start, held, cleaned, synced, catalog, policy);
        PassRows(start, cleaned, synced, catalog, policy);
      }
      fault := ReconcileCanonicalLinks(policy);
      if tidy {
        PartlyPrunedIsTidy(synced, disk, catalog, policy);
        CutLinks(start, cleaned, synced, disk, policy);
      }
      if !fault.Works? { return Stopped(fault); }
      result := Done(materialized, removed);
    }

    /** Passes until one completes. However many were cut short by failed downloads, failed
        switches or crashes, and wherever, the one that completes converges. */
    method SyncUntilDone(catalog: Catalog, policy: Policy, attempts: nat) returns (result: Pass)
      requires Tidy(disk, catalog, policy)
      modifies this
      ensures Tidy(disk, catalog, policy)
      ensures result.Done? ==> Settled(disk, catalog, policy) && Converged(disk, catalog, policy)
      ensures Calm(old(faults)) && attempts > 0 ==> result.Done?
    {
      hide Tidy, Converged, Calm;
      result := Failed;
      for i := 0 to attempts
        invariant Tidy(disk, catalog, policy) && !result.Done?
        invariant i > 0 ==> !Calm(old(faults))
        invariant i == 0 ==> faults == old(faults)
      {
        result := SyncPass(catalog, policy);
        if result.Done? { return; }
      }
    }
  }

  function Stopped(fault: Fault): (result: Pass)
    ensures !result.Done?
  {
    if fault.Dies? then Killed else Failed
  }

  lemma AnswerIsKnown(catalog: Catalog, subs: map<ResourceId, Record>)
    ensures Answer(catalog, Advertised(subs)).skills <= catalog.skills.Keys
  {
  }

  // ----- the policy does not depend on the subscribed revision --------------------------------------

  /** Whether pack policy disagrees about a skill, or a team owns it, does not depend on which
      revision the direct subscription asks for. So refreshing the policy after each upsert
      gives a subscribed skill the same standing throughout a pass. */
  lemma DirectRevisionDoesNotMatter(candidates: seq<Policies.Candidate>, src: Policies.Sources, id: ResourceId,
                                    revision: RevisionId)
    requires id in src.direct
    requires forall c :: c in candidates ==> c.source.kind in {Policies.TeamAssignment, Policies.PersonalPack}
    ensures var other := src.(direct := src.direct[id := src.direct[id].(desired := revision)]);
            var a, b := Policies.Resolve(Policies.AllSources(candidates, src, id)),
                Policies.Resolve(Policies.AllSources(candidates, other, id));
            (a.Conflict? <==> b.Conflict?) && (Policies.TeamSelected(a) <==> Policies.TeamSelected(b))
  {
    var other := src.(direct := src.direct[id := src.direct[id].(desired := revision)]);
    var xs, ys := Policies.AllSources(candidates, src, id), Policies.AllSources(candidates, other, id);
    SameButDirect(candidates, src, id, revision);
    var kind := if exists s :: s in xs && s.kind.TeamAssignment? then Policies.TeamAssignment
                else if exists s :: s in xs && s.kind.OwnedWorkspace? then Policies.OwnedWorkspace
                     else Policies.DirectSubscription;
    Policies.StrongestAuthorityDecides(xs, kind);
    Policies.StrongestAuthorityDecides(ys, kind);
  }

  lemma SameButDirect(candidates: seq<Policies.Candidate>, src: Policies.Sources, id: ResourceId, revision: RevisionId)
    requires id in src.direct
    requires forall c :: c in candidates ==> c.source.kind in {Policies.TeamAssignment, Policies.PersonalPack}
    ensures var other := src.(direct := src.direct[id := src.direct[id].(desired := revision)]);
            var xs, ys := Policies.AllSources(candidates, src, id), Policies.AllSources(candidates, other, id);
            && (forall s :: s in xs && !s.kind.DirectSubscription? <==> s in ys && !s.kind.DirectSubscription?)
            && (forall s :: s in xs && s.kind.DirectSubscription? <==>
                s == Policies.Source(Policies.DirectSubscription, Policies.DirectSkill, src.direct[id].desired))
            && (forall s :: s in ys && s.kind.DirectSubscription? <==>
                s == Policies.Source(Policies.DirectSubscription, Policies.DirectSkill, revision))
            && (forall a, b :: a in xs && b in xs && a.kind.OwnedWorkspace? && b.kind.OwnedWorkspace? ==> a == b)
  {
    var packs := Policies.SourcesOf(candidates);
    forall s | s in packs ensures s.kind in {Policies.TeamAssignment, Policies.PersonalPack} {
      var i :| 0 <= i < |packs| && packs[i] == s;
      assert candidates[i] in candidates;
    }
  }
}
