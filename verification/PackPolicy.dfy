/** Which source of a skill wins, which sources a team assignment hides, and the pack
    apply plan that follows: what is committed, switched, removed or left alone. */
module PackPolicy {
  import opened Basics
  import opened PackModel

  datatype Kind = PersonalPack | DirectSubscription | OwnedWorkspace | TeamAssignment

  function Authority(kind: Kind): nat {
    match kind
    case PersonalPack => 0
    case DirectSubscription => 1
    case OwnedWorkspace => 2
    case TeamAssignment => 3
  }

  /** Source ids of one resource: a pack requirement, or the one direct subscription, or
      the one workspace. */
  datatype SourceId = PackSource(n: nat) | DirectSkill | Workspace

  function Order(id: SourceId): int {
    match id
    case PackSource(n) => n
    case DirectSkill => -1
    case Workspace => -2
  }

  datatype Source = Source(kind: Kind, id: SourceId, revision: RevisionId)

  datatype Resolved = Absent | Selected(source: Source) | Conflict(revisions: set<RevisionId>)

  /** The resolver's sort: strongest authority first, then source id, then revision. */
  predicate Precedes(a: Source, b: Source) {
    || Authority(a.kind) > Authority(b.kind)
    || (a.kind == b.kind && Order(a.id) < Order(b.id))
    || (a.kind == b.kind && a.id == b.id && a.revision <= b.revision)
  }

  lemma PrecedesIsTotal(a: Source, b: Source)
    ensures Precedes(a, b) || Precedes(b, a)
    ensures Precedes(a, b) && Precedes(b, a) ==> a == b
  {
  }

  function First(sources: seq<Source>): (top: Source)
    requires sources != []
    ensures top in sources && forall s :: s in sources ==> Precedes(top, s)
  {
    if |sources| == 1 then sources[0] else
      var rest := First(sources[1..]);
      assert forall s :: s in sources ==> s == sources[0] || s in sources[1..];
      PrecedesIsTotal(sources[0], rest);
      assert forall s :: Precedes(sources[0], rest) && Precedes(rest, s) ==> Precedes(sources[0], s);
      if Precedes(sources[0], rest) then sources[0] else rest
  }

  function Resolve(sources: seq<Source>): (r: Resolved) {
    if sources == [] then Absent else
      var top := First(sources);
      var active := set s | s in sources && s.kind == top.kind :: s.revision;
      if active == {top.revision} then Selected(top) else Conflict(active)
  }

  /** Only the strongest authority is consulted: it wins when its sources agree, whatever
      weaker ones want, and it conflicts exactly when two of them disagree. */
  lemma StrongestAuthorityDecides(sources: seq<Source>, kind: Kind)
    requires exists s :: s in sources && s.kind == kind
    requires forall s :: s in sources ==> Authority(s.kind) <= Authority(kind)
    ensures Resolve(sources).Conflict? <==>
            exists a, b :: a in sources && b in sources && a.kind == kind == b.kind && a.revision != b.revision
    ensures Resolve(sources).Selected? ==>
              var top := Resolve(sources).source;
              top in sources && top.kind == kind &&
              forall s :: s in sources && s.kind == kind ==> s.revision == top.revision && Order(top.id) <= Order(s.id)
  {
    var top := First(sources);
    var s :| s in sources && s.kind == kind;
    assert Precedes(top, s);
    assert top.kind == kind;
    var active := set s | s in sources && s.kind == top.kind :: s.revision;
    assert top.revision in active;
    forall a | a in sources && a.kind == kind ensures a.revision in active && Precedes(top, a) {
    }
    if active != {top.revision} {
      var r :| r in active && r != top.revision;
      var b :| b in sources && b.kind == kind && b.revision == r;
      assert top in sources;
    }
  }

  /** The verdict depends on which sources exist, not on the order they were collected. */
  lemma ResolveIgnoresOrder(a: seq<Source>, b: seq<Source>)
    requires forall s :: s in a <==> s in b
    ensures Resolve(a) == Resolve(b)
  {
    if a == [] {
      assert forall s :: s in b ==> s in a;
    } else {
      assert a[0] in b;
      assert Precedes(First(a), First(b)) && Precedes(First(b), First(a));
      var top := First(a);
      assert (set s | s in a && s.kind == top.kind :: s.revision)
          == (set s | s in b && s.kind == top.kind :: s.revision);
    }
  }

  // ----- catalog refresh -------------------------------------------------------

  /** A downloadable pack member as the registry describes it. */
  datatype Desired = Desired(path: Path, generation: nat, revision: RevisionId, rootTree: nat)

  datatype Member = Member(id: ResourceId, revision: RevisionId, desired: Option<Desired>)

  datatype Requirement = Requirement(source: nat, enforced: bool, members: seq<Member>)

  datatype Candidate = Candidate(source: Source, desired: Option<Desired>)

  /** A direct subscription or an owned workspace row. */
  datatype Relation = Relation(path: Path, desired: RevisionId, materialized: Option<RevisionId>)

  /** The weaker sources and the suppressions recorded against them. */
  datatype Sources = Sources(
    direct: map<ResourceId, Relation>, owned: map<ResourceId, Relation>,
    hiddenDirect: set<ResourceId>, hiddenOwned: set<ResourceId>)

  datatype Catalog = Catalog(desired: map<ResourceId, Desired>, conflicts: set<ResourceId>)

  function CandidateOf(r: Requirement, m: Member): Candidate {
    Candidate(Source(if r.enforced then TeamAssignment else PersonalPack, PackSource(r.source), m.revision), m.desired)
  }

  function MemberCandidates(r: Requirement, members: seq<Member>, id: ResourceId): seq<Candidate>
    decreases |members|
  {
    if members == [] then [] else
      var n := |members| - 1;
      MemberCandidates(r, members[..n], id) + if members[n].id == id then [CandidateOf(r, members[n])] else []
  }

  function Candidates(requirements: seq<Requirement>, id: ResourceId): seq<Candidate>
    decreases |requirements|
  {
    if requirements == [] then [] else
      var n := |requirements| - 1;
      Candidates(requirements[..n], id) + MemberCandidates(requirements[n], requirements[n].members, id)
  }

  function SourcesOf(candidates: seq<Candidate>): seq<Source> {
    seq(|candidates|, i requires 0 <= i < |candidates| => candidates[i].source)
  }

  function AllSources(candidates: seq<Candidate>, src: Sources, id: ResourceId): seq<Source> {
    SourcesOf(candidates)
    + (if id in src.direct then [Source(DirectSubscription, DirectSkill, src.direct[id].desired)] else [])
    + (if id in src.owned then [Source(OwnedWorkspace, Workspace, src.owned[id].desired)] else [])
  }

  /** `find` on the requirements, then its optional payload. */
  function PayloadOf(candidates: seq<Candidate>, id: SourceId): Option<Desired> {
    if candidates == [] then None
    else if candidates[0].source.id == id then candidates[0].desired
    else PayloadOf(candidates[1..], id)
  }

  function Verdict(requirements: seq<Requirement>, src: Sources, id: ResourceId): Resolved {
    Resolve(AllSources(Candidates(requirements, id), src, id))
  }

  ghost function Offered(requirements: seq<Requirement>): set<ResourceId> {
    set r, m | r in requirements && m in r.members :: m.id
  }

  predicate TeamSelected(verdict: Resolved) {
    verdict.Selected? && verdict.source.kind.TeamAssignment?
  }

  ghost function Choice(requirements: seq<Requirement>, src: Sources, id: ResourceId): Option<Desired> {
    var verdict := Verdict(requirements, src, id);
    if verdict.Selected? then PayloadOf(Candidates(requirements, id), verdict.source.id) else None
  }

  /** What a refresh hands to the apply. */
  ghost function RefreshedCatalog(requirements: seq<Requirement>, src: Sources): Catalog {
    Catalog(
      map id | id in Offered(requirements)
          && Choice(requirements, src, id).Some? :: Choice(requirements, src, id).value,
      set id | id in Offered(requirements) && Verdict(requirements, src, id).Conflict?)
  }

  /** Suppressions after a refresh: a conflicting resource keeps the ones it had, an agreed
      team assignment hides every weaker source, and all others are lifted. */
  ghost predicate Hides(requirements: seq<Requirement>, src: Sources, id: ResourceId, was: bool, present: bool) {
    if id !in Offered(requirements) then false
    else match Verdict(requirements, src, id)
      case Conflict(_) => was
      case Selected(source) => source.kind.TeamAssignment? && present
      case Absent => false
  }

  ghost function RefreshedSources(requirements: seq<Requirement>, src: Sources): Sources {
    src.(
      hiddenDirect := (set id | id in src.hiddenDirect + src.direct.Keys
                             && Hides(requirements, src, id, id in src.hiddenDirect, id in src.direct)),
      hiddenOwned := (set id | id in src.hiddenOwned + src.owned.Keys
                            && Hides(requirements, src, id, id in src.hiddenOwned, id in src.owned)))
  }

  lemma RefreshMatches(requirements: seq<Requirement>, src: Sources, desired: map<ResourceId, Desired>,
                       conflicts: set<ResourceId>, direct: set<ResourceId>, owned: set<ResourceId>)
    requires forall id :: id in desired <==> id in Offered(requirements) && Choice(requirements, src, id).Some?
    requires forall id :: id in desired ==> desired[id] == Choice(requirements, src, id).value
    requires forall id :: id in conflicts <==> id in Offered(requirements) && Verdict(requirements, src, id).Conflict?
    requires forall id :: id in direct <==>
               id in Offered(requirements) && id in src.direct && TeamSelected(Verdict(requirements, src, id))
    requires forall id :: id in owned <==>
               id in Offered(requirements) && id in src.owned && TeamSelected(Verdict(requirements, src, id))
    ensures RefreshedCatalog(requirements, src) == Catalog(desired, conflicts)
    ensures RefreshedSources(requirements, src) == src.(
              hiddenDirect := src.hiddenDirect * conflicts + (direct - conflicts),
              hiddenOwned := src.hiddenOwned * conflicts + (owned - conflicts))
  {
    assert RefreshedCatalog(requirements, src).desired == desired;
    assert RefreshedCatalog(requirements, src).conflicts == conflicts;
    var after := RefreshedSources(requirements, src);
    forall id ensures id in after.hiddenDirect <==> id in src.hiddenDirect * conflicts + (direct - conflicts) {
    }
    forall id ensures id in after.hiddenOwned <==> id in src.hiddenOwned * conflicts + (owned - conflicts) {
    }
  }

  // ----- the plan --------------------------------------------------------------

  /** Resources a direct subscription or workspace visibly owns: packs keep off them. */
  function Claimed(src: Sources): set<ResourceId> {
    (src.direct.Keys - src.hiddenDirect) + (src.owned.Keys - src.hiddenOwned)
  }

  /** The local revision that takes over a path a pack gives up; a workspace before a
      subscription. */
  function Fallback(src: Sources, id: ResourceId): Option<SkillState> {
    if id in src.owned && id !in src.hiddenOwned && src.owned[id].materialized.Some? then
      Some(SkillState(id, src.owned[id].path, src.owned[id].materialized))
    else if id in src.direct && id !in src.hiddenDirect && src.direct[id].materialized.Some? then
      Some(SkillState(id, src.direct[id].path, src.direct[id].materialized))
    else None
  }

  function Wanted(catalog: Catalog, src: Sources): set<ResourceId> {
    set id | id in catalog.desired && id !in Claimed(src) && id !in catalog.conflicts
  }

  /** Conflicted resources whose last good row survives. */
  function Kept(catalog: Catalog, src: Sources, d: Disk): set<ResourceId> {
    set id | id in catalog.conflicts && id !in Claimed(src) && id in d.rows
  }

  function RowFor(id: ResourceId, desired: Desired, d: Disk): Row {
    Row(id, desired.path, desired.generation, desired.revision, desired.rootTree,
        if id in d.rows then d.rows[id].harness else None, desired.revision)
  }

  predicate Unchanged(id: ResourceId, desired: Desired, d: Disk) {
    && id in d.rows && d.rows[id].materialized == desired.revision
    && Target(id, desired.revision) in d.generations
    && Lookup(d.pointers, desired.path) == Some(Target(id, desired.revision))
  }

  function StagedIds(catalog: Catalog, src: Sources, d: Disk): set<ResourceId> {
    set id | id in Wanted(catalog, src) && !Unchanged(id, catalog.desired[id], d)
  }

  function Touched(catalog: Catalog, src: Sources, d: Disk): set<ResourceId> {
    StagedIds(catalog, src, d) + (d.rows.Keys - (Wanted(catalog, src) + Kept(catalog, src, d)))
  }

  /** Owner and name a touched resource is journaled under: the new one, else the local
      fallback's, else the old row's. */
  function Identity(catalog: Catalog, src: Sources, d: Disk, id: ResourceId): Path
    requires id in Touched(catalog, src, d)
  {
    if id in Wanted(catalog, src) then catalog.desired[id].path
    else if Fallback(src, id).Some? then Fallback(src, id).value.path
    else d.rows[id].path
  }

  function OldState(catalog: Catalog, src: Sources, d: Disk, id: ResourceId): SkillState
    requires id in Touched(catalog, src, d)
  {
    SkillState(id, Identity(catalog, src, d, id), if id in d.rows then Some(d.rows[id].materialized) else None)
  }

  function NewState(catalog: Catalog, src: Sources, d: Disk, id: ResourceId): SkillState
    requires id in Touched(catalog, src, d)
  {
    SkillState(id, Identity(catalog, src, d, id),
               if id in Wanted(catalog, src) then Some(catalog.desired[id].revision)
               else if Fallback(src, id).Some? then Fallback(src, id).value.revision
               else None)
  }

  function DesiredRows(ids: seq<ResourceId>, catalog: Catalog, d: Disk): seq<Row>
    requires forall id :: id in ids ==> id in catalog.desired
  {
    seq(|ids|, i requires 0 <= i < |ids| => RowFor(ids[i], catalog.desired[ids[i]], d))
  }

  function KeptRows(ids: seq<ResourceId>, d: Disk): seq<Row>
    requires forall id :: id in ids ==> id in d.rows
  {
    seq(|ids|, i requires 0 <= i < |ids| => d.rows[ids[i]])
  }

  function PlanFor(op: OperationId, catalog: Catalog, src: Sources, d: Disk): Plan {
    var touched := Ascending(Touched(catalog, src, d));
    Plan(op,
         seq(|touched|, i requires 0 <= i < |touched| => OldState(catalog, src, d, touched[i])),
         seq(|touched|, i requires 0 <= i < |touched| => NewState(catalog, src, d, touched[i])),
         DesiredRows(Ascending(Wanted(catalog, src)), catalog, d) + KeptRows(Ascending(Kept(catalog, src, d)), d),
         catalog.conflicts)
  }

  /** Rows are stored under their own resource id. */
  ghost predicate Keyed(d: Disk) {
    forall id :: id in d.rows ==> d.rows[id].id == id
  }

  lemma {:induction false} RowMapOf(rows: seq<Row>)
    requires forall i, j :: 0 <= i < j < |rows| ==> rows[i].id != rows[j].id
    ensures forall id :: id in RowMap(rows) <==> exists i :: 0 <= i < |rows| && rows[i].id == id
    ensures forall i :: 0 <= i < |rows| ==> rows[i].id in RowMap(rows) && RowMap(rows)[rows[i].id] == rows[i]
  {
    if rows != [] {
      var n := |rows| - 1;
      RowMapOf(rows[..n]);
      forall id | id in RowMap(rows) ensures exists i :: 0 <= i < |rows| && rows[i].id == id {
        if id != rows[n].id {
          assert id in RowMap(rows[..n]);
          var i :| 0 <= i < |rows[..n]| && rows[..n][i].id == id;
          assert rows[i].id == id;
        }
      }
      forall i | 0 <= i < |rows| ensures rows[i].id in RowMap(rows) && RowMap(rows)[rows[i].id] == rows[i] {
        if i < n { assert rows[..n][i] == rows[i]; }
      }
    }
  }

  /** The ids of the rows to commit, in order. */
  lemma RowIds(wanted: seq<ResourceId>, kept: seq<ResourceId>, catalog: Catalog, d: Disk)
    requires Keyed(d)
    requires forall id :: id in wanted ==> id in catalog.desired
    requires forall id :: id in kept ==> id in d.rows
    ensures var rows := DesiredRows(wanted, catalog, d) + KeptRows(kept, d);
            |rows| == |wanted| + |kept| && forall i :: 0 <= i < |rows| ==> rows[i].id == (wanted + kept)[i]
  {
    var rows := DesiredRows(wanted, catalog, d) + KeptRows(kept, d);
    forall i | 0 <= i < |rows| ensures rows[i].id == (wanted + kept)[i] {
      if i >= |wanted| { assert kept[i - |wanted|] in kept; }
    }
  }

  lemma IdsDistinct(wanted: seq<ResourceId>, kept: seq<ResourceId>)
    requires forall i, j :: 0 <= i < j < |wanted| ==> wanted[i] < wanted[j]
    requires forall i, j :: 0 <= i < j < |kept| ==> kept[i] < kept[j]
    requires forall id :: id in wanted ==> id !in kept
    ensures forall i, j :: 0 <= i < j < |wanted + kept| ==> (wanted + kept)[i] != (wanted + kept)[j]
  {
    forall i, j | 0 <= i < j < |wanted + kept| ensures (wanted + kept)[i] != (wanted + kept)[j] {
      if i < |wanted| <= j {
        assert wanted[i] in wanted && kept[j - |wanted|] in kept;
      }
    }
  }

  lemma {:induction false} RowsOf(wanted: seq<ResourceId>, kept: seq<ResourceId>, catalog: Catalog, d: Disk)
    requires Keyed(d)
    requires forall i, j :: 0 <= i < j < |wanted| ==> wanted[i] < wanted[j]
    requires forall i, j :: 0 <= i < j < |kept| ==> kept[i] < kept[j]
    requires forall id :: id in wanted ==> id in catalog.desired && id !in kept
    requires forall id :: id in kept ==> id in d.rows
    ensures var rows := DesiredRows(wanted, catalog, d) + KeptRows(kept, d);
            && (forall i, j :: 0 <= i < j < |rows| ==> rows[i].id != rows[j].id)
            && (forall id :: id in RowMap(rows) <==> id in wanted || id in kept)
            && (forall id :: id in wanted ==> RowMap(rows)[id] == RowFor(id, catalog.desired[id], d))
            && (forall id :: id in kept ==> RowMap(rows)[id] == d.rows[id])
  {
    hide RowMap, Keyed;
    var rows := DesiredRows(wanted, catalog, d) + KeptRows(kept, d);
    RowIds(wanted, kept, catalog, d);
    IdsDistinct(wanted, kept);
    RowMapOf(rows);
    var m := RowMap(rows);
    forall id | id in wanted ensures id in m && m[id] == RowFor(id, catalog.desired[id], d) {
      var i :| 0 <= i < |wanted| && wanted[i] == id;
      assert rows[i] == RowFor(id, catalog.desired[id], d);
    }
    forall id | id in kept ensures id in m && m[id] == d.rows[id] {
      var i :| 0 <= i < |kept| && kept[i] == id;
      assert rows[|wanted| + i] == d.rows[id] && rows[|wanted| + i].id == (wanted + kept)[|wanted| + i];
    }
    forall id | id in m ensures id in wanted || id in kept {
      var i :| 0 <= i < |rows| && rows[i].id == id;
      assert (wanted + kept)[i] in wanted + kept;
    }
  }

  /** The committed rows: one per wanted member and one per preserved conflict, no more,
      all under distinct ids, and none for a resource a stronger local source owns. */
  lemma {:induction false} CommittedRows(op: OperationId, catalog: Catalog, src: Sources, d: Disk)
    requires Keyed(d)
    ensures var rows := PlanFor(op, catalog, src, d).rows;
            && (forall i, j :: 0 <= i < j < |rows| ==> rows[i].id != rows[j].id)
            && RowMap(rows).Keys == Wanted(catalog, src) + Kept(catalog, src, d)
            && RowMap(rows).Keys !! Claimed(src)
            && (forall id :: id in Wanted(catalog, src) ==> RowMap(rows)[id] == RowFor(id, catalog.desired[id], d))
            && (forall id :: id in Kept(catalog, src, d) ==> RowMap(rows)[id] == d.rows[id])
  {
    assert Wanted(catalog, src) !! Claimed(src) && Kept(catalog, src, d) !! Claimed(src);
    assert Wanted(catalog, src) !! Kept(catalog, src, d);
    hide RowMap, Claimed, Unchanged, Touched, OldState, NewState, RowFor, Keyed, DesiredRows, KeptRows;
    RowsOf(Ascending(Wanted(catalog, src)), Ascending(Kept(catalog, src, d)), catalog, d);
  }

  lemma PlanIsPaired(op: OperationId, catalog: Catalog, src: Sources, d: Disk)
    ensures Paired(PlanFor(op, catalog, src, d))
  {
  }

  ghost predicate WritesPath(catalog: Catalog, src: Sources, d: Disk, id: ResourceId, path: Path) {
    id in Touched(catalog, src, d) && Identity(catalog, src, d, id) == path
  }

  lemma PlanStates(op: OperationId, catalog: Catalog, src: Sources, d: Disk)
    ensures var t, plan := Ascending(Touched(catalog, src, d)), PlanFor(op, catalog, src, d);
            && |plan.newSkills| == |plan.oldSkills| == |t|
            && (forall k :: 0 <= k < |t| ==> t[k] in Touched(catalog, src, d))
            && (forall k :: 0 <= k < |t| ==> plan.newSkills[k] == NewState(catalog, src, d, t[k]))
            && (forall k :: 0 <= k < |t| ==> plan.oldSkills[k] == OldState(catalog, src, d, t[k]))
  {
    var t := Ascending(Touched(catalog, src, d));
    assert forall k :: 0 <= k < |t| ==> t[k] in t;
  }

  lemma PathsFrom(states: seq<SkillState>, from: nat, path: Path)
    requires from <= |states|
    ensures path in Paths(states[from..]) <==> exists k :: from <= k < |states| && states[k].path == path
  {
    if path in Paths(states[from..]) {
      var s :| s in states[from..] && s.path == path;
      var k :| 0 <= k < |states[from..]| && states[from..][k] == s;
      assert states[from + k].path == path;
    }
    if k :| from <= k < |states| && states[k].path == path {
      assert states[from..][k - from] == states[k];
      assert states[k] in states[from..];
    }
  }

  lemma PathsOfPlan(op: OperationId, catalog: Catalog, src: Sources, d: Disk, from: nat, path: Path)
    requires from <= |Ascending(Touched(catalog, src, d))|
    ensures var t := Ascending(Touched(catalog, src, d));
            path in Paths(PlanFor(op, catalog, src, d).newSkills[from..]) <==>
            exists k :: from <= k < |t| && WritesPath(catalog, src, d, t[k], path)
  {
    var t := Ascending(Touched(catalog, src, d));
    var news := PlanFor(op, catalog, src, d).newSkills;
    PlanStates(op, catalog, src, d);
    PathsFrom(news, from, path);
    hide Touched, Identity, PlanFor, Paths, Wanted, Fallback;
    forall k | from <= k < |t| ensures news[k].path == path <==> WritesPath(catalog, src, d, t[k], path) {
      WritesAt(catalog, src, d, t[k], path);
    }
    if k :| from <= k < |news| && news[k].path == path { assert WritesPath(catalog, src, d, t[k], path); }
  }

  lemma WritesAt(catalog: Catalog, src: Sources, d: Disk, id: ResourceId, path: Path)
    requires id in Touched(catalog, src, d)
    ensures WritesPath(catalog, src, d, id, path) <==> NewState(catalog, src, d, id).path == path
    ensures OldState(catalog, src, d, id).path == NewState(catalog, src, d, id).path == Identity(catalog, src, d, id)
  {
  }

  lemma LaterIds(op: OperationId, catalog: Catalog, src: Sources, d: Disk, i: nat)
    requires i < |Ascending(Touched(catalog, src, d))|
    ensures forall s :: s in PlanFor(op, catalog, src, d).newSkills[i + 1..] ==>
              s.id > Ascending(Touched(catalog, src, d))[i]
  {
    var t := Ascending(Touched(catalog, src, d));
    var news := PlanFor(op, catalog, src, d).newSkills;
    PlanStates(op, catalog, src, d);
    forall k | i < k < |t| ensures news[k].id > t[i] {
      assert news[k] == NewState(catalog, src, d, t[k]);
    }
    hide Touched, PlanFor, NewState;
    forall s | s in news[i + 1..] ensures s.id > t[i] {
      var k :| 0 <= k < |news[i + 1..]| && news[i + 1..][k] == s;
      assert s == news[i + 1 + k];
    }
  }

  lemma WriterIndex(catalog: Catalog, src: Sources, d: Disk, i: nat, other: ResourceId) returns (k: nat)
    requires i < |Ascending(Touched(catalog, src, d))|
    requires other in Touched(catalog, src, d) && other > Ascending(Touched(catalog, src, d))[i]
    ensures i < k < |Ascending(Touched(catalog, src, d))| && Ascending(Touched(catalog, src, d))[k] == other
  {
    hide Touched;
    k := IndexOf(Ascending(Touched(catalog, src, d)), other);
  }

  lemma LaterWriters(op: OperationId, catalog: Catalog, src: Sources, d: Disk, i: nat, path: Path)
    requires i < |Ascending(Touched(catalog, src, d))|
    ensures var id := Ascending(Touched(catalog, src, d))[i];
            var later := PlanFor(op, catalog, src, d).newSkills[i + 1..];
            && (forall s :: s in later ==> s.id > id)
            && (path in Paths(later) <==>
                exists other: ResourceId :: other > id && WritesPath(catalog, src, d, other, path))
  {
    var t := Ascending(Touched(catalog, src, d));
    LaterIds(op, catalog, src, d, i);
    PathsOfPlan(op, catalog, src, d, i + 1, path);
    if other: ResourceId :| other > t[i] && WritesPath(catalog, src, d, other, path) {
      var k := WriterIndex(catalog, src, d, i, other);
    }
    hide Touched, PlanFor, WritesPath, Paths;
    if k :| i + 1 <= k < |t| && WritesPath(catalog, src, d, t[k], path) {
      assert t[k] > t[i];
    }
  }

  lemma IndexOf(t: seq<ResourceId>, id: ResourceId) returns (i: nat)
    requires id in t
    ensures i < |t| && t[i] == id
  {
    i :| 0 <= i < |t| && t[i] == id;
  }

  /** A path is contested by a later resource of the plan exactly when one of higher id is
      journaled under it. */
  lemma {:induction false} StagedUncontestedIff(op: OperationId, catalog: Catalog, src: Sources, d: Disk, i: nat)
    requires i < |Ascending(Touched(catalog, src, d))|
    requires Ascending(Touched(catalog, src, d))[i] in StagedIds(catalog, src, d)
    ensures var id := Ascending(Touched(catalog, src, d))[i];
            Uncontested(PlanFor(op, catalog, src, d).newSkills, i) <==>
            !exists other: ResourceId :: other > id && WritesPath(catalog, src, d, other, catalog.desired[id].path)
  {
    var id := Ascending(Touched(catalog, src, d))[i];
    var news := PlanFor(op, catalog, src, d).newSkills;
    var path := catalog.desired[id].path;
    PlanStates(op, catalog, src, d);
    StagedState(catalog, src, d, id);
    assert news[i] == SkillState(id, path, Some(catalog.desired[id].revision));
    LaterWriters(op, catalog, src, d, i, path);
    UncontestedIffUnwritten(news, i);
    hide WritesPath, Unchanged, LastFor, PlanFor, Ascending, Touched, Paths, NewState, StagedIds, Uncontested;
  }

  /** Among entries of other resources a link is uncontested only if no later one writes it. */
  lemma UncontestedIffUnwritten(states: seq<SkillState>, i: nat)
    requires i < |states| && states[i].revision.Some?
    requires forall s :: s in states[i + 1..] ==> s.id > states[i].id
    ensures Uncontested(states, i) <==> states[i].path !in Paths(states[i + 1..])
  {
    hide Paths;
    if states[i].path in Paths(states[i + 1..]) {
      var last := LastFor(states[i + 1..], states[i].path);
      assert last in states[i + 1..] && last.id > states[i].id;
    }
  }

  lemma StagedState(catalog: Catalog, src: Sources, d: Disk, id: ResourceId)
    requires id in StagedIds(catalog, src, d)
    ensures id in Touched(catalog, src, d)
    ensures NewState(catalog, src, d, id)
            == SkillState(id, catalog.desired[id].path, Some(catalog.desired[id].revision))
  {
  }

  lemma {:induction false} StagedVisibleIff(op: OperationId, catalog: Catalog, src: Sources, d: Disk, id: ResourceId)
    requires id in StagedIds(catalog, src, d)
    ensures var path := catalog.desired[id].path;
            Lookup(PointAll(d.pointers, PlanFor(op, catalog, src, d).newSkills), path)
              == Some(Target(id, catalog.desired[id].revision)) <==>
            !exists other: ResourceId :: other > id && WritesPath(catalog, src, d, other, path)
  {
    hide PointAll, WritesPath, Uncontested, Unchanged, Ascending;
    var news := PlanFor(op, catalog, src, d).newSkills;
    assert id in Touched(catalog, src, d);
    var i := IndexOf(Ascending(Touched(catalog, src, d)), id);
    StagedUncontestedIff(op, catalog, src, d, i);
    assert news[i] == NewState(catalog, src, d, id);
    ShownIffUncontested(d.pointers, news, i);
  }

  lemma {:induction false} UnchangedVisibleIff(op: OperationId, catalog: Catalog, src: Sources, d: Disk, id: ResourceId)
    requires id in Wanted(catalog, src) && id !in StagedIds(catalog, src, d)
    ensures var path := catalog.desired[id].path;
            Lookup(PointAll(d.pointers, PlanFor(op, catalog, src, d).newSkills), path)
              == Some(Target(id, catalog.desired[id].revision)) <==>
            !exists other: ResourceId :: WritesPath(catalog, src, d, other, path)
  {
    var path := catalog.desired[id].path;
    var t := Ascending(Touched(catalog, src, d));
    var news := PlanFor(op, catalog, src, d).newSkills;
    PathsOfPlan(op, catalog, src, d, 0, path);
    assert news[0..] == news;
    assert id !in Touched(catalog, src, d);
    if path in Paths(news) {
      LastWriterWins(d.pointers, news, path);
      var s := LastFor(news, path);
      var k :| 0 <= k < |news| && news[k] == s;
      assert t[k] in t && s.id == t[k];
      assert t[k] != id;
      var k' :| 0 <= k' < |t| && WritesPath(catalog, src, d, t[k'], path);
    } else {
      PointStaysOff(d.pointers, news, Paths(news));
      assert forall other: ResourceId :: WritesPath(catalog, src, d, other, path) ==> other in t;
    }
  }

  /** A wanted member ends up committed at its new revision, and its link shows that
      revision unless another touched resource is journaled under the same owner and name:
      any such resource for a member left unchanged, one of higher id for a staged one. */
  lemma {:induction false} MemberVisibleIff(op: OperationId, catalog: Catalog, src: Sources, d: Disk, id: ResourceId)
    requires Keyed(d) && id in Wanted(catalog, src)
    ensures var f := Done(d, PlanFor(op, catalog, src, d));
            id in f.rows && f.rows[id] == RowFor(id, catalog.desired[id], d)
    ensures var f := Done(d, PlanFor(op, catalog, src, d));
            var desired := catalog.desired[id];
            Lookup(f.pointers, desired.path) == Some(Target(id, desired.revision)) <==>
            !exists other: ResourceId :: WritesPath(catalog, src, d, other, desired.path)
                                      && (other > id || id !in StagedIds(catalog, src, d))
  {
    CommittedRows(op, catalog, src, d);
    if id in StagedIds(catalog, src, d) {
      StagedVisibleIff(op, catalog, src, d, id);
    } else {
      UnchangedVisibleIff(op, catalog, src, d, id);
    }
  }

  /** A conflicted resource no local source owns is isolated: it keeps exactly its previous
      row, or has none if it had none; the apply journals nothing for it; and the link at
      its row's path does not move unless another resource is journaled there. */
  lemma {:induction false} ConflictIsIsolated(op: OperationId, catalog: Catalog, src: Sources, d: Disk, id: ResourceId)
    requires Keyed(d) && id in catalog.conflicts && id !in Claimed(src)
    ensures var f := Done(d, PlanFor(op, catalog, src, d));
            && (id in f.rows <==> id in d.rows)
            && (id in d.rows ==> f.rows[id] == d.rows[id])
            && f.conflicts == catalog.conflicts
            && id !in Touched(catalog, src, d)
            && (id in d.rows ==>
                  var path := d.rows[id].path;
                  (forall other :: !WritesPath(catalog, src, d, other, path)) ==>
                  Lookup(f.pointers, path) == Lookup(d.pointers, path))
  {
    hide RowMap, DesiredRows, KeptRows, RowFor, Unchanged, PointAll;
    CommittedRows(op, catalog, src, d);
    if id in d.rows {
      var path := d.rows[id].path;
      var news := PlanFor(op, catalog, src, d).newSkills;
      PathsOfPlan(op, catalog, src, d, 0, path);
      assert news[0..] == news;
      PointStaysOff(d.pointers, news, Paths(news));
    }
  }

  // ----- policy, from the requirements to the committed state ---------------------

  lemma {:induction false} CandidateSource(requirements: seq<Requirement>, id: ResourceId, c: Candidate)
    requires c in Candidates(requirements, id)
    ensures c.source.id.PackSource?
    ensures c.source.kind.TeamAssignment? || c.source.kind.PersonalPack?
    ensures id in Offered(requirements)
    decreases |requirements|
  {
    var n := |requirements| - 1;
    if c in Candidates(requirements[..n], id) {
      CandidateSource(requirements[..n], id, c);
    } else {
      MemberCandidate(requirements[n], requirements[n].members, id, c);
    }
  }

  lemma {:induction false} MemberCandidate(r: Requirement, members: seq<Member>, id: ResourceId, c: Candidate)
    requires c in MemberCandidates(r, members, id)
    ensures exists m :: m in members && m.id == id && c == CandidateOf(r, m)
    decreases |members|
  {
    var n := |members| - 1;
    if c in MemberCandidates(r, members[..n], id) {
      MemberCandidate(r, members[..n], id, c);
      var m :| m in members[..n] && m.id == id && c == CandidateOf(r, m);
      assert m in members;
    } else {
      assert members[n] in members;
    }
  }

  lemma {:induction false} OfferedIffCandidates(requirements: seq<Requirement>, id: ResourceId)
    ensures id in Offered(requirements) <==> Candidates(requirements, id) != []
    decreases |requirements|
  {
    if Candidates(requirements, id) != [] {
      CandidateSource(requirements, id, Candidates(requirements, id)[0]);
    }
    if id in Offered(requirements) {
      var r, m :| r in requirements && m in r.members && m.id == id;
      var n := |requirements| - 1;
      if r in requirements[..n] {
        OfferedIffCandidates(requirements[..n], id);
      } else {
        MemberIsCandidate(r, r.members, m);
      }
    }
  }

  lemma {:induction false} MemberIsCandidate(r: Requirement, members: seq<Member>, m: Member)
    requires m in members
    ensures MemberCandidates(r, members, m.id) != []
    decreases |members|
  {
    var n := |members| - 1;
    if members[n] != m {
      MemberIsCandidate(r, members[..n], m);
    }
  }

  lemma {:induction false} MemberHasCandidate(r: Requirement, members: seq<Member>, m: Member)
    requires m in members
    ensures CandidateOf(r, m) in MemberCandidates(r, members, m.id)
    decreases |members|
  {
    var n := |members| - 1;
    if members[n] != m {
      MemberHasCandidate(r, members[..n], m);
    }
  }

  lemma {:induction false} OfferHasCandidate(requirements: seq<Requirement>, r: Requirement, m: Member)
    requires r in requirements && m in r.members
    ensures CandidateOf(r, m) in Candidates(requirements, m.id)
    decreases |requirements|
  {
    var n := |requirements| - 1;
    if requirements[n] == r {
      MemberHasCandidate(r, r.members, m);
    } else {
      OfferHasCandidate(requirements[..n], r, m);
    }
  }

  lemma {:induction false} CandidateHasOffer(requirements: seq<Requirement>, id: ResourceId, c: Candidate)
    requires c in Candidates(requirements, id)
    ensures exists r, m :: Offers(requirements, id, r, m) && c == CandidateOf(r, m)
    decreases |requirements|
  {
    var n := |requirements| - 1;
    if c in Candidates(requirements[..n], id) {
      CandidateHasOffer(requirements[..n], id, c);
      var r, m :| Offers(requirements[..n], id, r, m) && c == CandidateOf(r, m);
      assert Offers(requirements, id, r, m);
    } else {
      MemberCandidate(requirements[n], requirements[n].members, id, c);
      var m :| m in requirements[n].members && m.id == id && c == CandidateOf(requirements[n], m);
      assert Offers(requirements, id, requirements[n], m);
    }
  }

  // ----- the same in the requirements' own terms ------------------------------------

  /** Requirement `r` has member `m` for the resource. */
  ghost predicate Offers(requirements: seq<Requirement>, id: ResourceId, r: Requirement, m: Member) {
    r in requirements && m in r.members && m.id == id
  }

  /** A source names a resource once. */
  ghost predicate OneOfferASource(requirements: seq<Requirement>, id: ResourceId) {
    forall r, m, q, n :: Offers(requirements, id, r, m) && Offers(requirements, id, q, n) && r.source == q.source ==>
      r.enforced == q.enforced && m == n
  }

  /** Some team enforces the resource. */
  ghost predicate TeamOffers(requirements: seq<Requirement>, id: ResourceId) {
    exists r, m :: Offers(requirements, id, r, m) && r.enforced
  }

  /** An offer that counts among the packs: any, but only a team's where a team has one. */
  ghost predicate Counts(requirements: seq<Requirement>, id: ResourceId, r: Requirement, m: Member) {
    Offers(requirements, id, r, m) && (TeamOffers(requirements, id) ==> r.enforced)
  }

  /** The packs decide: a team does, or there is nothing stronger than a personal pack. */
  ghost predicate PacksDecide(requirements: seq<Requirement>, src: Sources, id: ResourceId) {
    TeamOffers(requirements, id) || (id !in src.direct && id !in src.owned)
  }

  /** The packs that count disagree: two teams, or two personal packs with nothing stronger. */
  ghost predicate Contested(requirements: seq<Requirement>, src: Sources, id: ResourceId) {
    PacksDecide(requirements, src, id) &&
    exists r, m, q, n :: Counts(requirements, id, r, m) && Counts(requirements, id, q, n) && m.revision != n.revision
  }

  /** `m` of `r` is the first by source id of the packs that count. */
  ghost predicate LeadingOffer(requirements: seq<Requirement>, id: ResourceId, r: Requirement, m: Member) {
    && Counts(requirements, id, r, m)
    && forall q, n :: Counts(requirements, id, q, n) ==> r.source <= q.source
  }

  lemma PackSourcesAre(requirements: seq<Requirement>, src: Sources, id: ResourceId, s: Source)
    ensures s in AllSources(Candidates(requirements, id), src, id) <==>
              || (exists r, m :: Offers(requirements, id, r, m) && s == CandidateOf(r, m).source)
              || (id in src.direct && s == Source(DirectSubscription, DirectSkill, src.direct[id].desired))
              || (id in src.owned && s == Source(OwnedWorkspace, Workspace, src.owned[id].desired))
  {
    var candidates := Candidates(requirements, id);
    if s in SourcesOf(candidates) {
      var i :| 0 <= i < |candidates| && SourcesOf(candidates)[i] == s;
      CandidateHasOffer(requirements, id, candidates[i]);
    }
    if r, m :| Offers(requirements, id, r, m) && s == CandidateOf(r, m).source {
      OfferHasCandidate(requirements, r, m);
      var i :| 0 <= i < |candidates| && candidates[i] == CandidateOf(r, m);
      assert SourcesOf(candidates)[i] == s;
    }
  }

  /** Which kind decides. */
  ghost function Decides(requirements: seq<Requirement>, src: Sources, id: ResourceId): Kind {
    if TeamOffers(requirements, id) then TeamAssignment
    else if id in src.owned then OwnedWorkspace
    else if id in src.direct then DirectSubscription
    else PersonalPack
  }

  lemma DecidingKind(requirements: seq<Requirement>, src: Sources, id: ResourceId)
    requires id in Offered(requirements)
    ensures var all := AllSources(Candidates(requirements, id), src, id);
            && (exists s :: s in all && s.kind == Decides(requirements, src, id))
            && (forall s :: s in all ==> Authority(s.kind) <= Authority(Decides(requirements, src, id)))
  {
    var all := AllSources(Candidates(requirements, id), src, id);
    hide AllSources, Candidates;
    forall s | s in all ensures Authority(s.kind) <= Authority(Decides(requirements, src, id)) {
      PackSourcesAre(requirements, src, id, s);
    }
    var r, m :| r in requirements && m in r.members && m.id == id;
    assert Offers(requirements, id, r, m);
    if TeamOffers(requirements, id) {
      var q, n :| Offers(requirements, id, q, n) && q.enforced;
      PackSourcesAre(requirements, src, id, CandidateOf(q, n).source);
    } else if id in src.owned {
      PackSourcesAre(requirements, src, id, Source(OwnedWorkspace, Workspace, src.owned[id].desired));
    } else if id in src.direct {
      PackSourcesAre(requirements, src, id, Source(DirectSubscription, DirectSkill, src.direct[id].desired));
    } else {
      PackSourcesAre(requirements, src, id, CandidateOf(r, m).source);
    }
  }

  lemma VerdictConflictIff(requirements: seq<Requirement>, src: Sources, id: ResourceId)
    requires id in Offered(requirements)
    ensures Verdict(requirements, src, id).Conflict? <==> Contested(requirements, src, id)
  {
    var all, kind := AllSources(Candidates(requirements, id), src, id), Decides(requirements, src, id);
    DecidingKind(requirements, src, id);
    StrongestAuthorityDecides(all, kind);
    hide AllSources, Candidates, Resolve, Contested, Decides;
    forall a, b | a in all && b in all && a.kind == kind == b.kind && a.revision != b.revision
      ensures Contested(requirements, src, id)
    {
      DisagreementIsContested(requirements, src, id, a, b);
    }
    if Contested(requirements, src, id) { ContestedDisagree(requirements, src, id); }
  }

  lemma DisagreementIsContested(requirements: seq<Requirement>, src: Sources, id: ResourceId, a: Source, b: Source)
    requires var all := AllSources(Candidates(requirements, id), src, id); a in all && b in all
    requires a.kind == Decides(requirements, src, id) == b.kind && a.revision != b.revision
    ensures Contested(requirements, src, id)
  {
    DecidingSource(requirements, src, id, a);
    DecidingSource(requirements, src, id, b);
    hide AllSources, Candidates, Decides, Counts, PacksDecide;
    assert PacksDecide(requirements, src, id);
    var r, m :| Counts(requirements, id, r, m) && a.revision == m.revision;
    var q, n :| Counts(requirements, id, q, n) && b.revision == n.revision;
    assert m.revision != n.revision;
  }

  /** A source of the deciding kind: one of the packs that count, or the one local source. */
  lemma DecidingSource(requirements: seq<Requirement>, src: Sources, id: ResourceId, s: Source)
    requires s in AllSources(Candidates(requirements, id), src, id) && s.kind == Decides(requirements, src, id)
    ensures PacksDecide(requirements, src, id) ==>
              exists r, m :: Counts(requirements, id, r, m) && s.revision == m.revision
    ensures !PacksDecide(requirements, src, id) ==>
              (id in src.owned || id in src.direct)
              && s.revision == if id in src.owned then src.owned[id].desired else src.direct[id].desired
  {
    PackSourcesAre(requirements, src, id, s);
    hide AllSources, Candidates, Offers;
    if PacksDecide(requirements, src, id) {
      var r, m :| Offers(requirements, id, r, m) && s == CandidateOf(r, m).source;
      assert Counts(requirements, id, r, m);
    }
  }


  lemma ContestedDisagree(requirements: seq<Requirement>, src: Sources, id: ResourceId)
    requires Contested(requirements, src, id)
    ensures var all, kind := AllSources(Candidates(requirements, id), src, id), Decides(requirements, src, id);
            exists a, b :: a in all && b in all && a.kind == kind == b.kind && a.revision != b.revision
  {
    hide AllSources, Candidates;
    var r, m, q, n :| Counts(requirements, id, r, m) && Counts(requirements, id, q, n) && m.revision != n.revision;
    OffersAreOfKind(requirements, src, id, r, m);
    OffersAreOfKind(requirements, src, id, q, n);
    assert CandidateOf(r, m).source.revision != CandidateOf(q, n).source.revision;
  }

  lemma OffersAreOfKind(requirements: seq<Requirement>, src: Sources, id: ResourceId, r: Requirement, m: Member)
    requires Counts(requirements, id, r, m) && PacksDecide(requirements, src, id)
    ensures CandidateOf(r, m).source in AllSources(Candidates(requirements, id), src, id)
    ensures CandidateOf(r, m).source.kind == Decides(requirements, src, id)
  {
    PackSourcesAre(requirements, src, id, CandidateOf(r, m).source);
    hide AllSources, Candidates;
  }

  /** The leading pack's payload is what the choice comes to. */
  lemma LeaderIsChosen(requirements: seq<Requirement>, src: Sources, id: ResourceId, r: Requirement, m: Member)
    requires OneOfferASource(requirements, id) && PacksDecide(requirements, src, id)
    requires LeadingOffer(requirements, id, r, m) && !Contested(requirements, src, id)
    ensures Verdict(requirements, src, id) == Selected(CandidateOf(r, m).source)
    ensures Choice(requirements, src, id) == m.desired
  {
    var all, kind := AllSources(Candidates(requirements, id), src, id), Decides(requirements, src, id);
    var c := CandidateOf(r, m);
    DecidingKind(requirements, src, id);
    StrongestAuthorityDecides(all, kind);
    VerdictConflictIff(requirements, src, id);
    OffersAreOfKind(requirements, src, id, r, m);
    OfferHasCandidate(requirements, r, m);
    LeaderIsTop(requirements, src, id, r, m, all);
    forall e | e in Candidates(requirements, id) && e.source.id == c.source.id ensures e == c {
      CandidateHasOffer(requirements, id, e);
    }
    PayloadFrom(Candidates(requirements, id), c);
  }

  lemma LeaderIsTop(requirements: seq<Requirement>, src: Sources, id: ResourceId, r: Requirement, m: Member,
                    all: seq<Source>)
    requires all == AllSources(Candidates(requirements, id), src, id)
    requires OneOfferASource(requirements, id) && PacksDecide(requirements, src, id)
    requires LeadingOffer(requirements, id, r, m) && Resolve(all).Selected?
    requires var top := Resolve(all).source;
             && top in all && top.kind == Decides(requirements, src, id)
             && forall s :: s in all && s.kind == top.kind ==>
                 s.revision == top.revision && Order(top.id) <= Order(s.id)
    requires CandidateOf(r, m).source in all && CandidateOf(r, m).source.kind == Decides(requirements, src, id)
    ensures Resolve(all).source == CandidateOf(r, m).source
  {
    hide AllSources, Candidates, Resolve;
    var top := Resolve(all).source;
    PackSourcesAre(requirements, src, id, top);
    var q, n :| Offers(requirements, id, q, n) && top == CandidateOf(q, n).source;
    assert Counts(requirements, id, q, n) && r.source <= q.source;
  }

  /** Where a stronger local source decides, the packs have no say. */
  lemma LocalIsChosen(requirements: seq<Requirement>, src: Sources, id: ResourceId)
    requires id in Offered(requirements) && !PacksDecide(requirements, src, id)
    ensures Choice(requirements, src, id).None? && !TeamSelected(Verdict(requirements, src, id))
  {
    var all, kind := AllSources(Candidates(requirements, id), src, id), Decides(requirements, src, id);
    DecidingKind(requirements, src, id);
    StrongestAuthorityDecides(all, kind);
    VerdictConflictIff(requirements, src, id);
    if Resolve(all).Selected? {
      NoPayload(Candidates(requirements, id), Resolve(all).source.id, requirements, id);
      PackSourcesAre(requirements, src, id, Resolve(all).source);
    }
    hide AllSources, Candidates, Resolve, PayloadOf;
  }

  lemma {:induction false} NoPayload(candidates: seq<Candidate>, source: SourceId, requirements: seq<Requirement>,
                                     id: ResourceId)
    requires forall c :: c in candidates ==> c in Candidates(requirements, id)
    ensures !source.PackSource? ==> PayloadOf(candidates, source).None?
    decreases |candidates|
  {
    if candidates != [] {
      CandidateSource(requirements, id, candidates[0]);
      NoPayload(candidates[1..], source, requirements, id);
    }
  }

  lemma {:induction false} LeaderExists(requirements: seq<Requirement>, id: ResourceId)
    requires id in Offered(requirements)
    ensures exists r, m :: LeadingOffer(requirements, id, r, m)
  {
    var counts := set r | r in requirements && (TeamOffers(requirements, id) ==> r.enforced)
                          && exists m :: m in r.members && m.id == id :: r.source;
    var r0, m0 :| r0 in requirements && m0 in r0.members && m0.id == id;
    assert Offers(requirements, id, r0, m0);
    if TeamOffers(requirements, id) {
      var q, n :| Offers(requirements, id, q, n) && q.enforced;
      assert n in q.members && n.id == id;
      assert q.source in counts;
    } else {
      assert r0.source in counts;
    }
    var least := Least(counts);
    var r :| r in requirements && (TeamOffers(requirements, id) ==> r.enforced)
             && (exists m :: m in r.members && m.id == id) && r.source == least;
    var m :| m in r.members && m.id == id;
    forall q, n | Counts(requirements, id, q, n) ensures r.source <= q.source {
      assert n in q.members && n.id == id;
      assert q.source in counts;
    }
    assert LeadingOffer(requirements, id, r, m);
  }

  /** What a refresh hands to the apply, from the requirements alone: a resource is wanted exactly
      when the packs decide about it, agree, and the first of them can be downloaded; it is in
      conflict exactly when the packs that count disagree. */
  lemma CatalogIff(requirements: seq<Requirement>, src: Sources, id: ResourceId)
    requires OneOfferASource(requirements, id)
    ensures var catalog := RefreshedCatalog(requirements, src);
            && (id in catalog.desired <==>
                  PacksDecide(requirements, src, id) && !Contested(requirements, src, id)
                  && exists r, m :: LeadingOffer(requirements, id, r, m) && m.desired.Some?)
            && (id in catalog.desired ==>
                  forall r, m :: LeadingOffer(requirements, id, r, m) ==> m.desired == Some(catalog.desired[id]))
            && (id in catalog.conflicts <==> Contested(requirements, src, id))
  {
    hide Verdict, Choice;
    if id in Offered(requirements) {
      VerdictConflictIff(requirements, src, id);
      if PacksDecide(requirements, src, id) {
        LeaderExists(requirements, id);
        forall r, m | LeadingOffer(requirements, id, r, m) && !Contested(requirements, src, id)
          ensures Choice(requirements, src, id) == m.desired
        {
          LeaderIsChosen(requirements, src, id, r, m);
        }
        if Contested(requirements, src, id) { ConflictHasNoChoice(requirements, src, id); }
      } else {
        LocalIsChosen(requirements, src, id);
      }
    } else {
      NobodyOffers(requirements, src, id);
    }
  }

  lemma ConflictHasNoChoice(requirements: seq<Requirement>, src: Sources, id: ResourceId)
    requires Verdict(requirements, src, id).Conflict?
    ensures Choice(requirements, src, id).None?
  {
  }

  lemma NobodyOffers(requirements: seq<Requirement>, src: Sources, id: ResourceId)
    requires id !in Offered(requirements)
    ensures !Contested(requirements, src, id) && !TeamOffers(requirements, id)
    ensures forall r, m :: !LeadingOffer(requirements, id, r, m)
  {
    forall r, m ensures !Offers(requirements, id, r, m) {
    }
  }

  /** What a refresh does to the suppressions: a contested resource keeps the ones it had; any other
      weaker source is hidden exactly when a team enforces the resource. */
  lemma SuppressedIff(requirements: seq<Requirement>, src: Sources, id: ResourceId)
    ensures var after := RefreshedSources(requirements, src);
            && (id in after.hiddenDirect <==>
                  if Contested(requirements, src, id) then id in src.hiddenDirect
                  else id in src.direct && TeamOffers(requirements, id))
            && (id in after.hiddenOwned <==>
                  if Contested(requirements, src, id) then id in src.hiddenOwned
                  else id in src.owned && TeamOffers(requirements, id))
            && after.direct == src.direct && after.owned == src.owned
  {
    hide Verdict, Choice;
    assert id in src.direct ==> id in src.hiddenDirect + src.direct.Keys;
    assert id in src.owned ==> id in src.hiddenOwned + src.owned.Keys;
    if id in Offered(requirements) {
      VerdictConflictIff(requirements, src, id);
      if !Contested(requirements, src, id) { VerdictIsTeamIff(requirements, src, id); }
    } else {
      NobodyOffers(requirements, src, id);
    }
  }

  lemma VerdictIsTeamIff(requirements: seq<Requirement>, src: Sources, id: ResourceId)
    requires id in Offered(requirements) && !Contested(requirements, src, id)
    ensures Verdict(requirements, src, id).Selected?
    ensures Verdict(requirements, src, id).source.kind.TeamAssignment? <==> TeamOffers(requirements, id)
  {
    var all := AllSources(Candidates(requirements, id), src, id);
    VerdictConflictIff(requirements, src, id);
    DecidingKind(requirements, src, id);
    StrongestAuthorityDecides(all, Decides(requirements, src, id));
    hide AllSources, Candidates, Resolve, Contested;
  }

  /** An agreed, available pack is what is installed, be it a team's or, with nothing stronger, a
      personal one: after a refresh and an uninterrupted apply the row has the pack's path,
      generation and revision, and the link shows that revision unless another touched resource
      takes the path. */
  lemma AgreedPackIsInstalled(op: OperationId, requirements: seq<Requirement>, src: Sources, d: Disk, id: ResourceId,
                              r: Requirement, m: Member)
    requires Keyed(d) && OneOfferASource(requirements, id) && PacksDecide(requirements, src, id)
    requires LeadingOffer(requirements, id, r, m) && m.desired.Some? && !Contested(requirements, src, id)
    ensures var catalog, after := RefreshedCatalog(requirements, src), RefreshedSources(requirements, src);
            var f, pack := Done(d, PlanFor(op, catalog, after, d)), m.desired.value;
            && id in f.rows && f.rows[id].id == id && f.rows[id].path == pack.path
            && f.rows[id].generation == pack.generation && f.rows[id].rootTree == pack.rootTree
            && f.rows[id].desired == f.rows[id].materialized == pack.revision
            && f.rows[id].harness == (if id in d.rows then d.rows[id].harness else None)
            && (Lookup(f.pointers, pack.path) == Some(Target(id, pack.revision)) <==>
                !exists other: ResourceId :: WritesPath(catalog, after, d, other, pack.path)
                                          && (other > id || id !in StagedIds(catalog, after, d)))
  {
    var catalog, after := RefreshedCatalog(requirements, src), RefreshedSources(requirements, src);
    InstalledIsWanted(requirements, src, id, r, m);
    RowForSays(id, catalog.desired[id], d);
    hide Contested, PacksDecide, LeadingOffer, OneOfferASource, PlanFor, Done, RefreshedCatalog, RefreshedSources,
        Wanted, WritesPath, StagedIds, RowFor, RowMap, Claimed;
    MemberVisibleIff(op, catalog, after, d, id);
  }

  lemma InstalledIsWanted(requirements: seq<Requirement>, src: Sources, id: ResourceId, r: Requirement, m: Member)
    requires OneOfferASource(requirements, id) && PacksDecide(requirements, src, id)
    requires LeadingOffer(requirements, id, r, m) && m.desired.Some? && !Contested(requirements, src, id)
    ensures var catalog, after := RefreshedCatalog(requirements, src), RefreshedSources(requirements, src);
            id in Wanted(catalog, after) && id in catalog.desired && catalog.desired[id] == m.desired.value
  {
    CatalogIff(requirements, src, id);
    SuppressedIff(requirements, src, id);
    hide RefreshedCatalog, RefreshedSources, Contested, LeadingOffer, OneOfferASource;
  }

  lemma RowForSays(id: ResourceId, desired: Desired, d: Disk)
    ensures var row := RowFor(id, desired, d);
            && row.id == id && row.path == desired.path && row.generation == desired.generation
            && row.rootTree == desired.rootTree && row.desired == row.materialized == desired.revision
            && row.harness == if id in d.rows then d.rows[id].harness else None
  {
  }

  lemma {:induction false} PayloadFrom(candidates: seq<Candidate>, c: Candidate)
    requires c in candidates
    requires forall e :: e in candidates && e.source.id == c.source.id ==> e == c
    ensures PayloadOf(candidates, c.source.id) == c.desired
  {
    if candidates[0].source.id != c.source.id {
      PayloadFrom(candidates[1..], c);
    } else {
      assert candidates[0] in candidates;
    }
  }

  /** Candidate `c` speaks for an agreed team: it is the first team assignment of the
      resource by source id, every other one asks for the same revision, and it can be
      downloaded. */
  ghost predicate AgreedTeam(requirements: seq<Requirement>, id: ResourceId, c: Candidate) {
    && c in Candidates(requirements, id) && c.source.kind.TeamAssignment? && c.desired.Some?
    && (forall e :: e in Candidates(requirements, id) && e.source.id == c.source.id ==> e == c)
    && (forall e :: e in Candidates(requirements, id) && e.source.kind.TeamAssignment? ==>
         e.source.revision == c.source.revision && Order(c.source.id) <= Order(e.source.id))
  }

  lemma {:induction false} TeamVerdict(requirements: seq<Requirement>, src: Sources, id: ResourceId, c: Candidate)
    requires AgreedTeam(requirements, id, c)
    ensures id in Offered(requirements)
    ensures Verdict(requirements, src, id) == Selected(c.source)
    ensures Choice(requirements, src, id) == c.desired
  {
    var candidates := Candidates(requirements, id);
    var all := AllSources(candidates, src, id);
    var k :| 0 <= k < |candidates| && candidates[k] == c;
    assert all[k] == c.source;
    assert c.source in all;
    CandidateSource(requirements, id, c);
    forall s | s in all && s.kind.TeamAssignment?
      ensures s.revision == c.source.revision && Order(c.source.id) <= Order(s.id) && s.id.PackSource?
    {
      var i :| 0 <= i < |all| && all[i] == s;
      assert i < |candidates|;
      assert candidates[i] in candidates;
      CandidateSource(requirements, id, candidates[i]);
    }
    StrongestAuthorityDecides(all, TeamAssignment);
    assert Resolve(all).Selected?;
    var top := Resolve(all).source;
    assert top == c.source;
    PayloadFrom(candidates, c);
  }

  /** Team policy is visible. When every team assignment of a resource asks for the same
      revision and the first of them is available, then, whatever the weaker local sources
      ask for, after a refresh and an uninterrupted apply neither of them owns the resource
      any more, the committed row is the team's revision, and the link shows that revision
      unless another touched resource takes the path. */
  lemma {:induction false} TeamAssignmentWins(
      op: OperationId, requirements: seq<Requirement>, src: Sources, d: Disk, id: ResourceId, c: Candidate)
    requires Keyed(d) && AgreedTeam(requirements, id, c)
    ensures id !in Claimed(RefreshedSources(requirements, src))
    ensures var catalog, after := RefreshedCatalog(requirements, src), RefreshedSources(requirements, src);
            var f, team := Done(d, PlanFor(op, catalog, after, d)), c.desired.value;
            && id in f.rows && f.rows[id] == RowFor(id, team, d)
            && (Lookup(f.pointers, team.path) == Some(Target(id, team.revision)) <==>
                !exists other: ResourceId :: WritesPath(catalog, after, d, other, team.path)
                                          && (other > id || id !in StagedIds(catalog, after, d)))
  {
    TeamIsWanted(requirements, src, id, c);
    hide RowMap, PlanFor, Candidates, Resolve, AllSources, RowFor, Unchanged, PayloadOf, RefreshedCatalog,
        RefreshedSources,
      Wanted, Claimed, WritesPath, StagedIds, Done;
    MemberVisibleIff(op, RefreshedCatalog(requirements, src), RefreshedSources(requirements, src), d, id);
  }

  lemma TeamIsWanted(requirements: seq<Requirement>, src: Sources, id: ResourceId, c: Candidate)
    requires AgreedTeam(requirements, id, c)
    ensures id !in Claimed(RefreshedSources(requirements, src))
    ensures var catalog := RefreshedCatalog(requirements, src);
            id in Wanted(catalog, RefreshedSources(requirements, src)) && id in catalog.desired
                && catalog.desired[id] == c.desired.value
  {
    hide Candidates, Resolve, AllSources, PayloadOf;
    TeamVerdict(requirements, src, id, c);
    var catalog := RefreshedCatalog(requirements, src);
    assert id in catalog.desired && catalog.desired[id] == c.desired.value && id !in catalog.conflicts;
    assert id in src.direct ==> id in src.hiddenDirect + src.direct.Keys;
    assert id in src.owned ==> id in src.hiddenOwned + src.owned.Keys;
  }

  /** A fresh conflict never tears a suppression down: the refresh leaves both suppression
      sets as they were for a conflicting resource, so what was visible before it is what
      the apply preserves. */
  lemma ConflictFreezesSuppressions(requirements: seq<Requirement>, src: Sources, id: ResourceId)
    requires id in Offered(requirements) && Verdict(requirements, src, id).Conflict?
    ensures var after := RefreshedSources(requirements, src);
            && (id in after.hiddenDirect <==> id in src.hiddenDirect)
            && (id in after.hiddenOwned <==> id in src.hiddenOwned)
            && id in RefreshedCatalog(requirements, src).conflicts
  {
    assert id in src.hiddenDirect ==> id in src.hiddenDirect + src.direct.Keys;
    assert id in src.hiddenOwned ==> id in src.hiddenOwned + src.owned.Keys;
  }

  /** Taking over a path no pack row had: the subscription's link was there before the
      apply, yet a rolled-back apply leaves nothing there. */
  lemma TakeoverRollsBackToNothing()
    ensures var path := Path("alice", "review");
            var d := Disk(map[path := Target(1, 10)], {Target(1, 10), Target(1, 20)}, map[], {}, []);
            var src := Sources(map[1 := Relation(path, 10, Some(10))], map[], {1}, {});
            var catalog := Catalog(map[1 := Desired(path, 1, 20, 7)], {});
            var plan := PlanFor(5, catalog, src, d);
            Undone(d, plan.oldSkills) != d && Undone(d, plan.oldSkills).pointers == map[]
  {
    var path := Path("alice", "review");
    var d := Disk(map[path := Target(1, 10)], {Target(1, 10), Target(1, 20)}, map[], {}, []);
    var src := Sources(map[1 := Relation(path, 10, Some(10))], map[], {1}, {});
    var catalog := Catalog(map[1 := Desired(path, 1, 20, 7)], {});
    assert Touched(catalog, src, d) == {1};
    assert Ascending({1}) == [1] by { assert {1} - {1} == {}; }
    var plan := PlanFor(5, catalog, src, d);
    assert plan.oldSkills == [SkillState(1, path, None)];
    assert plan.oldSkills[1..] == [];
    assert d.pointers - {path} == map[];
  }

  /** Two touched resources under one path: the removal of the one with the higher id comes
      last, and a new member under its path is committed but not shown. */
  lemma RemovalHidesNewMember()
    ensures var path := Path("alice", "review");
            var row := Row(2, path, 1, 10, 7, None, 10);
            var d := Disk(map[path := Target(2, 10)], {Target(2, 10), Target(1, 20)}, map[2 := row], {}, []);
            var src := Sources(map[], map[], {}, {});
            var catalog := Catalog(map[1 := Desired(path, 1, 20, 7)], {});
            var f := Done(d, PlanFor(5, catalog, src, d));
            1 in f.rows && 2 !in f.rows && f.pointers == map[]
  {
    var path := Path("alice", "review");
    var row := Row(2, path, 1, 10, 7, None, 10);
    var d := Disk(map[path := Target(2, 10)], {Target(2, 10), Target(1, 20)}, map[2 := row], {}, []);
    var src := Sources(map[], map[], {}, {});
    var catalog := Catalog(map[1 := Desired(path, 1, 20, 7)], {});
    assert Touched(catalog, src, d) == {1, 2};
    TwoAscending();
    assert Wanted(catalog, src) == {1};
    CommittedRows(5, catalog, src, d);
    var news := PlanFor(5, catalog, src, d).newSkills;
    assert news == [SkillState(1, path, Some(20)), SkillState(2, path, None)];
    assert news[1..] == [SkillState(2, path, None)] && news[1..][1..] == [];
    var p := Point(d.pointers, news[0]);
    assert Point(p, news[1]) == map[];
    assert PointAll(d.pointers, news) == PointAll(p, news[1..]) == PointAll(Point(p, news[1]), []);
  }

  lemma TwoAscending()
    ensures Ascending({1, 2}) == [1, 2]
  {
    var t := Ascending({1, 2});
    hide Ascending;
    assert 1 in t && 2 in t;
    assert forall k :: 0 <= k < |t| ==> t[k] in t && t[k] in {1, 2};
  }

  /** The last of the touched resources journaled under its path. */
  ghost predicate LastWord(catalog: Catalog, src: Sources, d: Disk, id: ResourceId) {
    && id in Touched(catalog, src, d)
    && forall other: ResourceId :: other > id ==> !WritesPath(catalog, src, d, other, Identity(catalog, src, d, id))
  }

  /** The link at its new path leads to the revision of its pack row, or nowhere if it has none. */
  ghost predicate ShowsOldRow(catalog: Catalog, src: Sources, d: Disk, id: ResourceId)
    requires id in Touched(catalog, src, d)
  {
    Lookup(d.pointers, Identity(catalog, src, d, id)) ==
      if id in d.rows then Some(Target(id, d.rows[id].materialized)) else None
  }

  /** In terms of rows and links: a rolled-back apply leaves everything as it was exactly when
      every touched resource that is the last one journaled under its new path showed there what
      its pack row says. */
  lemma {:induction false} PlanRollbackIsExactIff(op: OperationId, catalog: Catalog, src: Sources, d: Disk)
    ensures Undone(d, PlanFor(op, catalog, src, d).oldSkills) == d <==>
            forall id :: LastWord(catalog, src, d, id) ==> ShowsOldRow(catalog, src, d, id)
  {
    var t, olds := Ascending(Touched(catalog, src, d)), PlanFor(op, catalog, src, d).oldSkills;
    RollbackIsExactIff(d, olds);
    PlanStates(op, catalog, src, d);
    hide PlanFor, Touched, Undone, Shows, LastOn, ShowsOldRow, LastWord;
    forall i | 0 <= i < |t|
      ensures LastOn(olds, i) <==> LastWord(catalog, src, d, t[i])
      ensures Shows(d.pointers, olds[i]) <==> ShowsOldRow(catalog, src, d, t[i])
    {
      LastOnIff(op, catalog, src, d, i);
      OldStateShows(catalog, src, d, t[i]);
    }
    forall id | LastWord(catalog, src, d, id) ensures exists i :: 0 <= i < |t| && t[i] == id {
      LastWordIsTouched(catalog, src, d, id);
      var i := IndexOf(t, id);
    }
  }

  lemma OldStateShows(catalog: Catalog, src: Sources, d: Disk, id: ResourceId)
    requires id in Touched(catalog, src, d)
    ensures Shows(d.pointers, OldState(catalog, src, d, id)) <==> ShowsOldRow(catalog, src, d, id)
  {
    hide Touched, Identity;
  }

  lemma LastWordIsTouched(catalog: Catalog, src: Sources, d: Disk, id: ResourceId)
    requires LastWord(catalog, src, d, id)
    ensures id in Touched(catalog, src, d)
  {
  }

  lemma LastOnIff(op: OperationId, catalog: Catalog, src: Sources, d: Disk, i: nat)
    requires i < |Ascending(Touched(catalog, src, d))|
    ensures var t, olds := Ascending(Touched(catalog, src, d)), PlanFor(op, catalog, src, d).oldSkills;
            |olds| == |t| && (LastOn(olds, i) <==> LastWord(catalog, src, d, t[i]))
  {
    var t, olds := Ascending(Touched(catalog, src, d)), PlanFor(op, catalog, src, d).oldSkills;
    PlanStates(op, catalog, src, d);
    forall k | 0 <= k < |t| ensures olds[k].path == Identity(catalog, src, d, t[k]) {
      assert olds[k] == OldState(catalog, src, d, t[k]);
    }
    assert t[i] in Touched(catalog, src, d);
    hide PlanFor, Touched, Identity;
    if LastOn(olds, i) {
      forall other: ResourceId | other > t[i]
        ensures !WritesPath(catalog, src, d, other, Identity(catalog, src, d, t[i]))
      {
        if WritesPath(catalog, src, d, other, Identity(catalog, src, d, t[i])) {
          var k := WriterIndex(catalog, src, d, i, other);
        }
      }
    }
    if LastWord(catalog, src, d, t[i]) {
      forall k | i < k < |t| ensures olds[k].path != olds[i].path {
        assert t[k] > t[i] && !WritesPath(catalog, src, d, t[k], Identity(catalog, src, d, t[i]));
      }
    }
  }

  // ----- what a pack gives up ---------------------------------------------------------

  /** A visible local source of the resource that has been shown before. */
  ghost predicate ShownLocally(relations: map<ResourceId, Relation>, hidden: set<ResourceId>, id: ResourceId) {
    id in relations && id !in hidden && relations[id].materialized.Some?
  }

  /** A pack row whose resource is no longer wanted and not in an unclaimed conflict. */
  ghost predicate Released(catalog: Catalog, src: Sources, d: Disk, id: ResourceId) {
    && id in d.rows
    && (id !in catalog.desired || id in catalog.conflicts || id in Claimed(src))
    && (id !in catalog.conflicts || id in Claimed(src))
  }

  /** What a pack gives up goes back to the local source: its row is gone, and the link under the
      workspace's name, or else under the subscription's, shows the local revision; with no local
      source the pack's own link is gone. Unless a later resource takes the path. */
  lemma ReleasedShowsLocal(op: OperationId, catalog: Catalog, src: Sources, d: Disk, id: ResourceId)
    requires Keyed(d) && Released(catalog, src, d, id)
    ensures var f := Done(d, PlanFor(op, catalog, src, d));
            && id !in f.rows
            && (ShownLocally(src.owned, src.hiddenOwned, id) ==>
                  ShowsUnlessTaken(catalog, src, d, f.pointers, id, src.owned[id].path,
                                   Some(Target(id, src.owned[id].materialized.value))))
            && (!ShownLocally(src.owned, src.hiddenOwned, id) && ShownLocally(src.direct, src.hiddenDirect, id) ==>
                  ShowsUnlessTaken(catalog, src, d, f.pointers, id, src.direct[id].path,
                                   Some(Target(id, src.direct[id].materialized.value))))
            && (!ShownLocally(src.owned, src.hiddenOwned, id) && !ShownLocally(src.direct, src.hiddenDirect, id) ==>
                  ShowsUnlessTaken(catalog, src, d, f.pointers, id, d.rows[id].path, None))
  {
    var news := PlanFor(op, catalog, src, d).newSkills;
    var t := Ascending(Touched(catalog, src, d));
    assert id in Touched(catalog, src, d) && id !in Wanted(catalog, src) && id !in Kept(catalog, src, d);
    CommittedRows(op, catalog, src, d);
    PlanStates(op, catalog, src, d);
    var i := IndexOf(t, id);
    var state := NewState(catalog, src, d, id);
    assert news[i] == state;
    LaterWriters(op, catalog, src, d, i, state.path);
    hide PlanFor, Touched, Wanted, Kept, WritesPath, Claimed, Paths, RowMap;
    UnwrittenIsShown(d.pointers, news, i);
  }

  ghost predicate ShowsUnlessTaken(catalog: Catalog, src: Sources, d: Disk, pointers: Pointers, id: ResourceId,
                                   path: Path,
                                   target: Option<Target>) {
    || Lookup(pointers, path) == target
    || exists other: ResourceId :: other > id && WritesPath(catalog, src, d, other, path)
  }

  lemma UnwrittenIsShown(p: Pointers, states: seq<SkillState>, i: nat)
    requires i < |states|
    ensures states[i].path !in Paths(states[i + 1..]) ==>
              Lookup(PointAll(p, states), states[i].path) == TargetOf(states[i])
  {
    ShownIffUncontested(p, states, i);
    hide PointAll, Paths;
  }
}
