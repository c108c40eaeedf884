/** The pack part of a sync pass as it runs on one device: refresh the catalog, stage and
    switch the pack members, and recover an interrupted switch at the next start. */
module PackSync {
  import opened Basics
  import opened PackModel
  import opened PackPolicy

  class Device {
    var disk: Disk
    var sources: Sources
    /** Bytes copied aside before a quarantined revision loses its link. */
    var quarantine: set<Target>
    var quarantined: map<ResourceId, set<RevisionId>>
    /** What the environment does to the next durable steps; past its end all work. */
    var faults: seq<Fault>

    constructor (disk: Disk, sources: Sources, quarantined: map<ResourceId, set<RevisionId>>)
      ensures this.disk == disk && this.sources == sources
    {
      this.disk, this.sources, this.quarantined := disk, sources, quarantined;
      quarantine, faults := {}, [];
    }

    method NextFault() returns (fault: Fault)
      modifies this`faults
      ensures faults == if old(faults) == [] then [] else old(faults)[1..]
      ensures fault == if old(faults) == [] then Works else old(faults)[0]
      ensures Calm(old(faults)) ==> fault.Works? && Calm(faults)
    {
      if faults == [] { return Works; }
      fault, faults := faults[0], faults[1..];
    }

    /** One atomic durable step. */
    method Land(e: Effect) returns (fault: Fault)
      modifies this`disk, this`faults
      ensures disk == if fault.Works? then Perform(old(disk), e) else old(disk)
      ensures Calm(old(faults)) ==> fault.Works? && Calm(faults)
    {
      fault := NextFault();
      if fault.Works? { disk := Perform(disk, e); }
    }

    /** `restore_skill_generation`: refuses a revision whose generation is gone. */
    method Restore(s: SkillState) returns (fault: Fault)
      modifies this`disk, this`faults
      ensures disk == if fault.Works? then Perform(old(disk), Pointed(s)) else old(disk)
      ensures Calm(old(faults)) ==> Calm(faults)
      ensures Calm(old(faults)) && (s.revision.Some? ==> Target(s.id, s.revision.value) in old(disk).generations) ==>
                fault.Works?
    {
      if s.revision.Some? && Target(s.id, s.revision.value) !in disk.generations {
        return Fails;
      }
      fault := Land(Pointed(s));
    }

    method RefreshCatalog(requirements: seq<Requirement>) returns (catalog: Catalog)
      modifies this`sources
      ensures catalog == RefreshedCatalog(requirements, old(sources))
      ensures sources == RefreshedSources(requirements, old(sources))
    {
      var candidates := CollectCandidates(requirements);
      var desired, conflicts, suppressDirect, suppressOwned := ResolveAll(candidates, requirements);
      catalog := Catalog(desired, conflicts);
      ReconcileSuppressions(suppressDirect, suppressOwned, conflicts);
      RefreshMatches(requirements, old(sources), desired, conflicts, suppressDirect, suppressOwned);
      assert sources.hiddenDirect == old(sources).hiddenDirect * conflicts + (suppressDirect - conflicts);
      assert sources.hiddenOwned == old(sources).hiddenOwned * conflicts + (suppressOwned - conflicts);
    }

    method ResolveAll(candidates: map<ResourceId, seq<Candidate>>, ghost requirements: seq<Requirement>)
      returns (desired: map<ResourceId, Desired>, conflicts: set<ResourceId>,
               suppressDirect: set<ResourceId>, suppressOwned: set<ResourceId>)
      requires candidates.Keys == Offered(requirements)
      requires forall id :: id in candidates ==> candidates[id] == Candidates(requirements, id)
      ensures forall id :: id in desired <==> id in candidates && Choice(requirements, sources, id).Some?
      ensures forall id :: id in desired ==> desired[id] == Choice(requirements, sources, id).value
      ensures forall id :: id in conflicts <==> id in candidates && Verdict(requirements, sources, id).Conflict?
      ensures forall id :: id in suppressDirect <==>
                id in candidates && id in sources.direct && TeamSelected(Verdict(requirements, sources, id))
      ensures forall id :: id in suppressOwned <==>
                id in candidates && id in sources.owned && TeamSelected(Verdict(requirements, sources, id))
    {
      var left := candidates.Keys;
      desired, conflicts, suppressDirect, suppressOwned := map[], {}, {}, {};
      while left != {}
        invariant left <= candidates.Keys
        invariant forall id :: id in desired <==>
                    id in candidates.Keys - left && Choice(requirements, sources, id).Some?
        invariant forall id :: id in desired ==> desired[id] == Choice(requirements, sources, id).value
        invariant forall id :: id in conflicts <==>
                    id in candidates.Keys - left && Verdict(requirements, sources, id).Conflict?
        invariant forall id :: id in suppressDirect <==>
                    id in candidates.Keys - left && id in sources.direct
                        && TeamSelected(Verdict(requirements, sources, id))
        invariant forall id :: id in suppressOwned <==>
                    id in candidates.Keys - left && id in sources.owned
                        && TeamSelected(Verdict(requirements, sources, id))
        decreases left
      {
        var id := Least(left);
        left := left - {id};
        match Resolve(AllSources(candidates[id], sources, id)) {
          case Selected(source) =>
            if source.kind.TeamAssignment? {
              if id in sources.direct { suppressDirect := suppressDirect + {id}; }
              if id in sources.owned { suppressOwned := suppressOwned + {id}; }
            }
            var payload := PayloadOf(candidates[id], source.id);
            if payload.Some? { desired := desired[id := payload.value]; }
          case Conflict(_) =>
            conflicts := conflicts + {id};
          case Absent =>
        }
      }
    }

    /** `reconcile_source_suppressions`, one transaction: old suppressions go, requested ones come,
        and a preserved resource keeps whatever it had. */
    method ReconcileSuppressions(direct: set<ResourceId>, owned: set<ResourceId>, preserve: set<ResourceId>)
      modifies this`sources
      ensures sources == old(sources).(hiddenDirect := sources.hiddenDirect, hiddenOwned := sources.hiddenOwned)
      ensures Reconciled(old(sources).hiddenDirect, direct, preserve, sources.hiddenDirect)
      ensures Reconciled(old(sources).hiddenOwned, owned, preserve, sources.hiddenOwned)
    {
      var hiddenDirect := DropSuppressions(sources.hiddenDirect, preserve);
      var hiddenOwned := DropSuppressions(sources.hiddenOwned, preserve);
      hiddenDirect := InsertSuppressions(hiddenDirect, direct, preserve);
      hiddenOwned := InsertSuppressions(hiddenOwned, owned, preserve);
      sources := sources.(hiddenDirect := hiddenDirect, hiddenOwned := hiddenOwned);
    }

    static ghost predicate Reconciled(was: set<ResourceId>, requested: set<ResourceId>, preserve: set<ResourceId>,
                                      now: set<ResourceId>) {
      forall id :: id in now <==> if id in preserve then id in was else id in requested
    }

    method DropSuppressions(rows: set<ResourceId>, preserve: set<ResourceId>) returns (left: set<ResourceId>)
      ensures left == rows * preserve
    {
      var existing := Ascending(rows);
      left := rows;
      for n := 0 to |existing|
        invariant forall id :: id in left <==> id in rows && (id in preserve || id !in existing[..n])
      {
        assert existing[..n + 1] == existing[..n] + [existing[n]];
        if existing[n] !in preserve { left := left - {existing[n]}; }
      }
      assert existing[..|existing|] == existing;
    }

    method InsertSuppressions(rows: set<ResourceId>, requested: set<ResourceId>, preserve: set<ResourceId>)
      returns (all: set<ResourceId>)
      ensures all == rows + (requested - preserve)
    {
      var values := Ascending(requested);
      all := rows;
      for n := 0 to |values|
        invariant forall id :: id in all <==> id in rows || (id in values[..n] && id !in preserve)
      {
        assert values[..n + 1] == values[..n] + [values[n]];
        if values[n] in preserve { continue; }
        all := all + {values[n]};
      }
      assert values[..|values|] == values;
    }

    method CollectCandidates(requirements: seq<Requirement>) returns (candidates: map<ResourceId, seq<Candidate>>)
      ensures candidates.Keys == Offered(requirements)
      ensures forall id :: id in candidates ==> candidates[id] == Candidates(requirements, id)
    {
      candidates := map[];
      for i := 0 to |requirements|
        invariant forall id :: Collected(candidates, id) == Candidates(requirements[..i], id)
        invariant forall id :: id in candidates ==> candidates[id] != []
      {
        ghost var was := candidates;
        candidates := AddMembers(candidates, requirements[i]);
        assert requirements[..i + 1][..i] == requirements[..i];
        forall id ensures Collected(candidates, id) == Candidates(requirements[..i + 1], id) {
          assert Collected(was, id) == Candidates(requirements[..i], id);
        }
      }
      assert requirements[..|requirements|] == requirements;
      forall id ensures id in candidates <==> id in Offered(requirements) {
        OfferedIffCandidates(requirements, id);
        assert Collected(candidates, id) == Candidates(requirements, id);
      }
      forall id | id in candidates ensures candidates[id] == Candidates(requirements, id) {
        assert Collected(candidates, id) == Candidates(requirements, id);
      }
    }

    method AddMembers(candidates: map<ResourceId, seq<Candidate>>, r: Requirement)
      returns (all: map<ResourceId, seq<Candidate>>)
      requires forall id :: id in candidates ==> candidates[id] != []
      ensures forall id :: Collected(all, id) == Collected(candidates, id) + MemberCandidates(r, r.members, id)
      ensures forall id :: id in all ==> all[id] != []
    {
      all := candidates;
      for j := 0 to |r.members|
        invariant forall id :: Collected(all, id) == Collected(candidates, id) + MemberCandidates(r, r.members[..j], id)
        invariant forall id :: id in all ==> all[id] != []
      {
        AddedMember(candidates, all, r, j);
        all := all[r.members[j].id := Collected(all, r.members[j].id) + [CandidateOf(r, r.members[j])]];
      }
      assert r.members[..|r.members|] == r.members;
    }

    static lemma AddedMember(before: map<ResourceId, seq<Candidate>>, was: map<ResourceId, seq<Candidate>>,
                             r: Requirement, j: nat)
      requires j < |r.members|
      requires forall id :: Collected(was, id) == Collected(before, id) + MemberCandidates(r, r.members[..j], id)
      ensures var m := r.members[j];
              forall id :: Collected(was[m.id := Collected(was, m.id) + [CandidateOf(r, m)]], id)
                        == Collected(before, id) + MemberCandidates(r, r.members[..j + 1], id)
    {
      var m := r.members[j];
      var next := was[m.id := Collected(was, m.id) + [CandidateOf(r, m)]];
      forall id ensures Collected(next, id) == Collected(before, id) + MemberCandidates(r, r.members[..j + 1], id) {
        assert r.members[..j + 1][..j] == r.members[..j];
        var head, added := Collected(before, id), MemberCandidates(r, r.members[..j], id);
        assert Collected(was, id) == head + added;
        if id == m.id {
          assert MemberCandidates(r, r.members[..j + 1], id) == added + [CandidateOf(r, m)];
          assert (head + added) + [CandidateOf(r, m)] == head + (added + [CandidateOf(r, m)]);
        } else {
          assert MemberCandidates(r, r.members[..j + 1], id) == added + [];
        }
      }
    }

    static function Collected(candidates: map<ResourceId, seq<Candidate>>, id: ResourceId): seq<Candidate> {
      if id in candidates then candidates[id] else []
    }

    /** Downloads and stages every wanted member whose link is not already right. A failure
        here leaves nothing but unreferenced generations. */
    method StageMembers(catalog: Catalog) returns (ok: bool, staged: set<ResourceId>)
      modifies this`disk, this`faults
      ensures disk == old(disk).(generations := disk.generations)
      ensures old(disk).generations <= disk.generations
      ensures Calm(old(faults)) ==> ok && Calm(faults)
      ensures ok ==> staged == StagedIds(catalog, sources, old(disk))
      ensures ok ==> AllDownloaded(catalog, sources, disk.generations)
    {
      hide AllDownloaded, Unchanged, StagedIds, Wanted, Claimed, StagedSoFar;
      var claimed := Claimed(sources);
      staged := {};
      ok := true;
      var ids := Ascending(catalog.desired.Keys);
      StagingStarts(catalog, sources, disk, ids);
      for n := 0 to |ids|
        invariant StagedSoFar(catalog, sources, old(disk), disk, ids, n, staged)
        invariant disk == old(disk).(generations := disk.generations) && old(disk).generations <= disk.generations
        invariant Calm(old(faults)) ==> Calm(faults)
      {
        var id := ids[n];
        assert id in ids;
        StagingStep(catalog, sources, old(disk), disk, ids, n, staged);
        if id in claimed || id in catalog.conflicts { continue; }
        if !Unchanged(id, catalog.desired[id], disk) {
          var fault := NextFault();
          if !fault.Works? { return false, staged; }
          var target := Target(id, catalog.desired[id].revision);
          disk := disk.(generations := disk.generations + {target});
          staged := staged + {id};
        }
      }
      StagingEnds(catalog, sources, old(disk), disk, ids, staged);
    }

    /** The generation of every wanted member is here. */
    static ghost predicate AllDownloaded(catalog: Catalog, src: Sources, generations: set<Target>) {
      forall id :: id in Wanted(catalog, src) ==> Target(id, catalog.desired[id].revision) in generations
    }

    /** What has been staged once the first `n` members have been looked at. */
    static ghost predicate StagedSoFar(catalog: Catalog, src: Sources, was: Disk, now: Disk, ids: seq<ResourceId>,
                                       n: nat,
                                       staged: set<ResourceId>)
      requires n <= |ids|
    {
      && (forall id :: id in staged <==> id in ids[..n] && id in StagedIds(catalog, src, was))
      && (forall id :: id in staged ==>
          id in catalog.desired && Target(id, catalog.desired[id].revision) in now.generations)
      && (forall t: Target :: t in now.generations ==> t in was.generations || t.id in staged)
      && now == was.(generations := now.generations) && was.generations <= now.generations
    }

    static lemma StagingStarts(catalog: Catalog, src: Sources, d: Disk, ids: seq<ResourceId>)
      ensures StagedSoFar(catalog, src, d, d, ids, 0, {})
    {
    }

    /** The next member is staged exactly when its turn says so; a staged one is not looked at
        again, so what was staged before does not matter. */
    static lemma StagingStep(catalog: Catalog, src: Sources, was: Disk, now: Disk, ids: seq<ResourceId>, n: nat,
                             staged: set<ResourceId>)
      requires n < |ids| && ids[n] in catalog.desired && (forall i, j :: 0 <= i < j < |ids| ==> ids[i] < ids[j])
      requires StagedSoFar(catalog, src, was, now, ids, n, staged)
      ensures var id := ids[n];
              var target := Target(id, catalog.desired[id].revision);
              if id in Claimed(src) || id in catalog.conflicts || Unchanged(id, catalog.desired[id], now)
              then StagedSoFar(catalog, src, was, now, ids, n + 1, staged)
              else StagedSoFar(catalog, src, was, now.(generations := now.generations + {target}), ids, n + 1,
                               staged + {id})
    {
      var id := ids[n];
      assert ids[..n + 1] == ids[..n] + [id];
      assert id !in ids[..n];
      assert Unchanged(id, catalog.desired[id], now) <==> Unchanged(id, catalog.desired[id], was);
      assert id in StagedIds(catalog, src, was) <==>
        !(id in Claimed(src) || id in catalog.conflicts || Unchanged(id, catalog.desired[id], was));
    }

    static lemma StagingEnds(catalog: Catalog, src: Sources, was: Disk, now: Disk, ids: seq<ResourceId>,
                             staged: set<ResourceId>)
      requires StagedSoFar(catalog, src, was, now, ids, |ids|, staged)
      requires forall id :: id in ids <==> id in catalog.desired
      ensures staged == StagedIds(catalog, src, was) && AllDownloaded(catalog, src, now.generations)
    {
      assert ids[..|ids|] == ids;
      forall id | id in Wanted(catalog, src) ensures Target(id, catalog.desired[id].revision) in now.generations {
        if id !in StagedIds(catalog, src, was) { assert Unchanged(id, catalog.desired[id], was); }
      }
    }

    /** The rows this apply will commit: wanted members, then preserved conflicts. */
    method DesiredRecords(catalog: Catalog) returns (records: seq<Row>)
      ensures records == DesiredRows(Ascending(Wanted(catalog, sources)), catalog, disk)
                       + KeptRows(Ascending(Kept(catalog, sources, disk)), disk)
    {
      records := WantedRecords(catalog, Ascending(Wanted(catalog, sources)));
      assert Kept(catalog, sources, disk) == set id | id in catalog.conflicts && id !in Claimed(sources)
          && id in disk.rows;
      hide Wanted, Claimed, Ascending, DesiredRows, KeptRows, Kept;
      records := PreserveConflictedExisting(records, catalog.conflicts, Claimed(sources));
    }

    method WantedRecords(catalog: Catalog, wanted: seq<ResourceId>) returns (records: seq<Row>)
      requires forall id :: id in wanted ==> id in catalog.desired
      ensures records == DesiredRows(wanted, catalog, disk)
    {
      hide RowFor;
      records := [];
      for n := 0 to |wanted|
        invariant records == DesiredRows(wanted, catalog, disk)[..n]
      {
        records := records + [RowFor(wanted[n], catalog.desired[wanted[n]], disk)];
      }
    }

    method PreserveConflictedExisting(records: seq<Row>, conflicted: set<ResourceId>, suppressed: set<ResourceId>)
      returns (all: seq<Row>)
      ensures var kept := set id | id in conflicted && id !in suppressed && id in disk.rows;
              all == records + KeptRows(Ascending(kept), disk)
    {
      var kept := Ascending(set id | id in conflicted && id !in suppressed && id in disk.rows);
      all := records;
      for n := 0 to |kept|
        invariant all == records + KeptRows(kept, disk)[..n]
      {
        assert kept[n] in kept;
        all := all + [disk.rows[kept[n]]];
      }
    }

    /** Moves the link of one touched resource. */
    method SwitchOne(id: ResourceId, catalog: Catalog, staged: set<ResourceId>, existing: map<ResourceId, Row>,
                     ghost d: Disk)
      returns (fault: Fault)
      requires id in Touched(catalog, sources, d) && staged == StagedIds(catalog, sources, d) && existing == d.rows
      modifies this`disk, this`faults, this`quarantine
      ensures disk == if fault.Works? then Perform(old(disk), Pointed(NewState(catalog, sources, d, id))) else old(disk)
      ensures Calm(old(faults)) ==> Calm(faults)
      ensures Calm(old(faults)) && FallbackPresent(catalog, sources, d, old(disk), id) ==> fault.Works?
      ensures old(quarantine) <= quarantine
      ensures fault.Works? ==> CopiedAside(id, staged, existing, quarantined, quarantine)
    {
      if id in staged {
        fault := Land(Pointed(SkillState(id, catalog.desired[id].path, Some(catalog.desired[id].revision))));
        return;
      }
      var was := existing[id];
      if id in quarantined && was.materialized in quarantined[id] {
        fault := NextFault();
        if !fault.Works? { return; }
        quarantine := quarantine + {Target(id, was.materialized)};
      }
      var fallback := Fallback(sources, id);
      if fallback.Some? {
        fault := Restore(fallback.value);
      } else {
        fault := Restore(SkillState(id, was.path, None));
      }
    }

    /** A quarantined revision that loses its link has been copied aside. */
    static ghost predicate CopiedAside(id: ResourceId, staged: set<ResourceId>, existing: map<ResourceId, Row>,
                                       bad: map<ResourceId, set<RevisionId>>, aside: set<Target>) {
      id !in staged && id in existing && id in bad && existing[id].materialized in bad[id] ==>
        Target(id, existing[id].materialized) in aside
    }

    /** So has every one whose resource the packs give up. */
    static ghost predicate GivenUpAside(catalog: Catalog, src: Sources, d: Disk, bad: map<ResourceId, set<RevisionId>>,
                                        aside: set<Target>) {
      forall id :: id in d.rows && id !in Wanted(catalog, src) + Kept(catalog, src, d) ==>
        CopiedAside(id, {}, d.rows, bad, aside)
    }

    static lemma AllAside(catalog: Catalog, src: Sources, d: Disk, bad: map<ResourceId, set<RevisionId>>,
                          aside: set<Target>, touched: seq<ResourceId>, staged: set<ResourceId>)
      requires staged == StagedIds(catalog, src, d) && forall id :: id in Touched(catalog, src, d) ==> id in touched
      requires forall id :: id in touched ==> CopiedAside(id, staged, d.rows, bad, aside)
      ensures GivenUpAside(catalog, src, d, bad, aside)
    {
      forall id | id in d.rows && id !in Wanted(catalog, src) + Kept(catalog, src, d)
        ensures CopiedAside(id, {}, d.rows, bad, aside)
      {
        assert id in Touched(catalog, src, d) && id !in staged;
        assert CopiedAside(id, staged, d.rows, bad, aside);
      }
      hide Unchanged, Wanted, Kept;
    }

    static ghost predicate FallbackPresent(catalog: Catalog, src: Sources, d: Disk, now: Disk, id: ResourceId)
      requires id in Touched(catalog, src, d)
    {
      id !in Wanted(catalog, src) && Fallback(src, id).Some? ==>
        Target(id, Fallback(src, id).value.revision.value) in now.generations
    }

    static ghost predicate FallbacksPresent(catalog: Catalog, src: Sources, d: Disk) {
      forall id :: id in Touched(catalog, src, d) ==> FallbackPresent(catalog, src, d, d, id)
    }

    method ApplyPackOnlyState(op: OperationId, catalog: Catalog) returns (ending: Ending, ghost effects: seq<Effect>)
      requires disk.journals == []
      modifies this`disk, this`faults, this`quarantine
      ensures var start := old(disk).(generations := disk.generations);
              && old(disk).generations <= disk.generations
              && ApplyRun(PlanFor(op, catalog, sources, old(disk)), effects, ending)
              && disk == PerformAll(start, effects)
      ensures Calm(old(faults)) && FallbacksPresent(catalog, sources, old(disk)) ==> ending.Finished?
      ensures ending.Finished? ==>
                && AllDownloaded(catalog, sources, disk.generations)
                && GivenUpAside(catalog, sources, old(disk), quarantined, quarantine)
    {
      hide AllDownloaded, CopiedAside, GivenUpAside, PerformAll, Unchanged, Fallback, Claimed, RowFor, NewState,
        OldState, OldGenerationsPresent, FallbackPresent, Points;
      ghost var d := disk;
      ghost var plan := PlanFor(op, catalog, sources, d);
      var existing := disk.rows;
      var records := DesiredRecords(catalog);
      var ok, staged := StageMembers(catalog);
      NothingPerformed(disk);
      if !ok { return Stopped, []; }
      ghost var start := disk;

      var desiredIds := Wanted(catalog, sources) + Kept(catalog, sources, disk);
      var touched := Ascending(staged + (existing.Keys - desiredIds));
      assert staged + (existing.Keys - desiredIds) == Touched(catalog, sources, d);
      var oldStates, newStates := JournalStates(touched, catalog, staged, existing, d);
      assert oldStates == plan.oldSkills && newStates == plan.newSkills;
      hide Touched, Wanted, Kept, StagedIds, DesiredRows, KeptRows;

      ending, effects := SwitchAll(op, touched, oldStates, newStates, catalog, staged, existing, d);
      if !ending.Finished? {
        SwitchedIsRun(plan, effects, ending);
        return;
      }
      AllAside(catalog, sources, d, quarantined, quarantine, touched, staged);
      var commit := Committed(op, records, catalog.conflicts);
      var fault := Land(commit);
      if !fault.Works? {
        NotCommittedIsRun(plan, effects);
        return Stopped, effects;
      }
      PerformAppend(start, effects, [commit]);
      PerformOne(PerformAll(start, effects), commit);
      return Finished, effects + [commit];
    }

    static lemma NothingPerformed(d: Disk)
      ensures PerformAll(d, []) == d
    {
    }

    /** A switch that did not finish is already the whole run. */
    static lemma SwitchedIsRun(plan: Plan, effects: seq<Effect>, ending: Ending)
      requires !ending.Finished?
      requires var start := [Opened(Journal(plan.op, plan.oldSkills, plan.newSkills))];
               match ending
               case Finished => true
               case RolledBack => exists k | 0 <= k <= |plan.newSkills| ::
                 effects == start + Points(plan.newSkills[..k]) + Points(plan.oldSkills) + [Discarded(plan.op)]
               case Stopped => effects == [] || exists k, m | 0 <= k <= |plan.newSkills|
                   && 0 <= m <= |plan.oldSkills| ::
                 effects == start + Points(plan.newSkills[..k]) + Points(plan.oldSkills[..m])
      ensures ApplyRun(plan, effects, ending)
    {
    }

    /** All links moved, and no commit. */
    static lemma NotCommittedIsRun(plan: Plan, effects: seq<Effect>)
      requires effects == [Opened(Journal(plan.op, plan.oldSkills, plan.newSkills))] + Points(plan.newSkills)
      ensures ApplyRun(plan, effects, Stopped)
    {
      assert plan.newSkills[..|plan.newSkills|] == plan.newSkills;
      assert effects
          == [Opened(JournalOf(plan))] + Points(plan.newSkills[..|plan.newSkills|]) + Points(plan.oldSkills[..0]);
    }

    /** Journals the plan and moves every touched link; `Finished` here means all links
        moved and nothing is committed yet. */
    method SwitchAll(op: OperationId, touched: seq<ResourceId>, oldStates: seq<SkillState>, newStates: seq<SkillState>,
                     catalog: Catalog, staged: set<ResourceId>, existing: map<ResourceId, Row>, ghost d: Disk)
      returns (ending: Ending, ghost effects: seq<Effect>)
      requires forall id :: id in touched ==> id in Touched(catalog, sources, d)
      requires staged == StagedIds(catalog, sources, d) && existing == d.rows
      requires |oldStates| == |newStates| == |touched|
      requires forall n :: 0 <= n < |touched| ==> newStates[n] == NewState(catalog, sources, d, touched[n])
      modifies this`disk, this`faults, this`quarantine
      ensures disk == PerformAll(old(disk), effects) && disk.generations == old(disk).generations
      ensures var start := [Opened(Journal(op, oldStates, newStates))];
              match ending
              case Finished => effects == start + Points(newStates)
              case RolledBack => exists k | 0 <= k <= |newStates| ::
                effects == start + Points(newStates[..k]) + Points(oldStates) + [Discarded(op)]
              case Stopped => effects == [] || exists k, m | 0 <= k <= |newStates| && 0 <= m <= |oldStates| ::
                effects == start + Points(newStates[..k]) + Points(oldStates[..m])
      ensures Calm(old(faults)) ==> Calm(faults)
      ensures Calm(old(faults)) && FallbacksPresent(catalog, sources, d) && d.generations <= old(disk).generations ==>
                ending.Finished?
      ensures ending.Finished? ==>
                forall id :: id in touched ==> CopiedAside(id, staged, existing, quarantined, quarantine)
    {
      hide CopiedAside, Touched, StagedIds, NewState, OldState, Wanted, Fallback, Point;
      ghost var start := disk;
      var opening := Opened(Journal(op, oldStates, newStates));
      var fault := Land(opening);
      if !fault.Works? { return Stopped, []; }
      effects := [opening];
      PerformOne(start, opening);
      for n := 0 to |touched|
        invariant effects == [opening] + Points(newStates[..n])
        invariant disk == PerformAll(start, effects) && disk.generations == start.generations
        invariant Calm(old(faults)) ==> Calm(faults)
        invariant forall k :: 0 <= k < n ==> CopiedAside(touched[k], staged, existing, quarantined, quarantine)
      {
        assert touched[n] in touched;
        ghost var aside := quarantine;
        fault := SwitchOne(touched[n], catalog, staged, existing, d);
        StayAside(touched[..n], staged, existing, quarantined, aside, quarantine);
        if fault.Dies? {
          assert effects == [opening] + Points(newStates[..n]) + Points(oldStates[..0]);
          return Stopped, effects;
        }
        if fault.Fails? {
          ending, effects := RollBack(op, oldStates, start, effects);
          return;
        }
        effects := Extend(start, effects, newStates, n);
      }
      assert newStates[..|touched|] == newStates;
      ending := Finished;
    }

    static lemma StayAside(ids: seq<ResourceId>, staged: set<ResourceId>, existing: map<ResourceId, Row>,
                           bad: map<ResourceId, set<RevisionId>>, was: set<Target>, now: set<Target>)
      requires was <= now && forall k :: 0 <= k < |ids| ==> CopiedAside(ids[k], staged, existing, bad, was)
      ensures forall k :: 0 <= k < |ids| ==> CopiedAside(ids[k], staged, existing, bad, now)
    {
    }

    /** Records one more link switch in the trace. */
    ghost method Extend(start: Disk, effects: seq<Effect>, states: seq<SkillState>, n: nat)
        returns (longer: seq<Effect>)
      requires n < |states| && disk == Perform(PerformAll(start, effects), Pointed(states[n]))
      ensures longer == effects + [Pointed(states[n])] && disk == PerformAll(start, longer)
      ensures Points(states[..n + 1]) == Points(states[..n]) + [Pointed(states[n])]
      ensures forall head :: effects == head + Points(states[..n]) ==> longer == head + Points(states[..n + 1])
    {
      PerformAppend(start, effects, [Pointed(states[n])]);
      PerformOne(PerformAll(start, effects), Pointed(states[n]));
      assert Points(states[..n + 1]) == Points(states[..n]) + [Pointed(states[n])];
      longer := effects + [Pointed(states[n])];
      forall head | effects == head + Points(states[..n]) ensures longer == head + Points(states[..n + 1]) {
      }
    }

    /** Old and new journal payloads of the touched resources. */
    method JournalStates(touched: seq<ResourceId>, catalog: Catalog, staged: set<ResourceId>,
                         existing: map<ResourceId, Row>, ghost d: Disk)
      returns (oldStates: seq<SkillState>, newStates: seq<SkillState>)
      requires forall id :: id in touched ==> id in Touched(catalog, sources, d)
      requires staged == StagedIds(catalog, sources, d) && existing == d.rows
      ensures |oldStates| == |newStates| == |touched|
      ensures forall n :: 0 <= n < |touched| ==> oldStates[n] == OldState(catalog, sources, d, touched[n])
      ensures forall n :: 0 <= n < |touched| ==> newStates[n] == NewState(catalog, sources, d, touched[n])
    {
      oldStates, newStates := [], [];
      for n := 0 to |touched|
        invariant |oldStates| == |newStates| == n
        invariant forall k :: 0 <= k < n ==> oldStates[k] == OldState(catalog, sources, d, touched[k])
        invariant forall k :: 0 <= k < n ==> newStates[k] == NewState(catalog, sources, d, touched[k])
      {
        var id := touched[n];
        assert id in touched;
        var fallback := Fallback(sources, id);
        var path := if id in staged then catalog.desired[id].path
                    else if fallback.Some? then fallback.value.path
                    else existing[id].path;
        var was := if id in existing then Some(existing[id].materialized) else None;
        var next := if id in staged then Some(catalog.desired[id].revision)
                    else if fallback.Some? then fallback.value.revision
                    else None;
        oldStates := oldStates + [SkillState(id, path, was)];
        newStates := newStates + [SkillState(id, path, next)];
      }
    }

    /** In-process rollback after a failed switch: every old link, then the journal. A
        further failure gives up and leaves the journal for the next start. */
    method RollBack(op: OperationId, oldStates: seq<SkillState>, ghost start: Disk, ghost done: seq<Effect>)
      returns (ending: Ending, ghost effects: seq<Effect>)
      requires disk == PerformAll(start, done)
      modifies this`disk, this`faults
      ensures disk == PerformAll(start, effects) && disk.generations == old(disk).generations
      ensures ending.RolledBack? || ending.Stopped?
      ensures ending.RolledBack? ==> effects == done + Points(oldStates) + [Discarded(op)]
      ensures ending.Stopped? ==> exists m | 0 <= m <= |oldStates| :: effects == done + Points(oldStates[..m])
      ensures Calm(old(faults)) ==> Calm(faults)
    {
      effects := done;
      assert done == done + Points(oldStates[..0]);
      for n := 0 to |oldStates|
        invariant effects == done + Points(oldStates[..n])
        invariant disk == PerformAll(start, effects) && disk.generations == old(disk).generations
        invariant Calm(old(faults)) ==> Calm(faults)
      {
        var fault := Restore(oldStates[n]);
        if !fault.Works? { return Stopped, effects; }
        effects := Extend(start, effects, oldStates, n);
      }
      assert oldStates[..|oldStates|] == oldStates;
      var fault := Land(Discarded(op));
      if !fault.Works? { return Stopped, effects; }
      PerformAppend(start, effects, [Discarded(op)]);
      PerformOne(PerformAll(start, effects), Discarded(op));
      return RolledBack, effects + [Discarded(op)];
    }

    /** Start-up recovery: replays the old links of every incomplete journal, oldest first,
        and removes it. A step that fails stops the pass with the journal still there. */
    method RecoverIncompleteApply() returns (ok: bool, ghost effects: seq<Effect>)
      modifies this`disk, this`faults
      ensures BootRun(old(disk), effects) && disk == PerformAll(old(disk), effects)
      ensures disk.generations == old(disk).generations
      ensures ok ==> disk.journals == []
      ensures Calm(old(faults)) && OldGenerationsPresent(old(disk)) ==> ok
    {
      hide PerformAll, Points, Replays, Without, GenerationsPresent;
      var journals := disk.journals;
      ghost var start := disk;
      effects := [];
      NothingPerformed(disk);
      for n := 0 to |journals|
        invariant effects == FullReplay(journals[..n]) && disk == PerformAll(start, effects)
        invariant forall j :: j in disk.journals ==> j in journals[n..]
        invariant disk.generations == start.generations
        invariant Calm(old(faults)) ==> Calm(faults)
      {
        var j := journals[n];
        assert j in journals;
        ghost var head := effects;
        var done; ghost var m;
        done, effects, m := ReplayLinks(j, start, head);
        if !done {
          ReplaysFrom(journals, n, Points(j.oldSkills[..m]));
          return false, effects;
        }
        ghost var before := disk.journals;
        var fault := Land(Discarded(j.op));
        if !fault.Works? {
          assert j.oldSkills[..|j.oldSkills|] == j.oldSkills;
          ReplaysFrom(journals, n, Points(j.oldSkills[..|j.oldSkills|]));
          return false, effects;
        }
        PerformAppend(start, effects, [Discarded(j.op)]);
        PerformOne(PerformAll(start, effects), Discarded(j.op));
        effects := effects + [Discarded(j.op)];
        FullReplayGrows(journals, n);
        StillToReplay(before, journals, n, disk.journals);
      }
      assert journals[..|journals|] == journals;
      ReplaysFrom(journals, |journals|, []);
      assert effects == FullReplay(journals[..|journals|]) + [];
      EmptyIfIn(disk.journals, journals[|journals|..]);
      ok := true;
    }

    /** The old links of one journal, in order; `m` of them when it stops. */
    method ReplayLinks(j: Journal, ghost start: Disk, ghost head: seq<Effect>)
      returns (done: bool, ghost effects: seq<Effect>, ghost m: nat)
      requires disk == PerformAll(start, head)
      modifies this`disk, this`faults
      ensures m <= |j.oldSkills| && effects == head + Points(j.oldSkills[..m]) && disk == PerformAll(start, effects)
      ensures disk.generations == old(disk).generations && disk.journals == old(disk).journals
      ensures done ==> effects == head + Points(j.oldSkills)
      ensures Calm(old(faults)) ==> Calm(faults)
      ensures Calm(old(faults)) && GenerationsPresent(j, old(disk).generations) ==> done
    {
      effects, m := head, 0;
      assert head == head + Points(j.oldSkills[..0]);
      for i := 0 to |j.oldSkills|
        invariant effects == head + Points(j.oldSkills[..i]) && m == i
        invariant disk == PerformAll(start, effects) && disk.generations == old(disk).generations
        invariant disk.journals == old(disk).journals
        invariant Calm(old(faults)) ==> Calm(faults)
      {
        assert j.oldSkills[i] in j.oldSkills;
        var fault := Restore(j.oldSkills[i]);
        if !fault.Works? { return false, effects, i; }
        effects := Extend(start, effects, j.oldSkills, i);
        m := i + 1;
      }
      assert j.oldSkills[..|j.oldSkills|] == j.oldSkills;
      done := true;
    }

    /** The journal just replayed is gone, so only later ones are left. */
    static lemma StillToReplay(before: seq<Journal>, journals: seq<Journal>, n: nat, now: seq<Journal>)
      requires n < |journals| && (forall j :: j in before ==> j in journals[n..])
               && now == Without(before, journals[n].op)
      ensures forall j :: j in now ==> j in journals[n + 1..]
    {
      forall j | j in now ensures j in journals[n + 1..] {
        WithoutKeeps(before, journals[n].op, j);
        assert journals[n..] == [journals[n]] + journals[n + 1..];
      }
    }

    static lemma EmptyIfIn(a: seq<Journal>, b: seq<Journal>)
      requires forall j :: j in a ==> j in b
      ensures |b| == 0 ==> |a| == 0
    {
      if |a| > 0 {
        assert a[0] in b;
      }
    }

    static ghost predicate GenerationsPresent(j: Journal, generations: set<Target>) {
      forall s :: s in j.oldSkills && s.revision.Some? ==> Target(s.id, s.revision.value) in generations
    }

    static ghost predicate OldGenerationsPresent(d: Disk) {
      forall j :: j in d.journals ==> GenerationsPresent(j, d.generations)
    }

    static ghost function FullReplay(journals: seq<Journal>): seq<Effect> {
      if journals == [] then [] else
        Points(journals[0].oldSkills) + [Discarded(journals[0].op)] + FullReplay(journals[1..])
    }

    static lemma {:induction false} FullReplayGrows(journals: seq<Journal>, n: nat)
      requires n < |journals|
      ensures FullReplay(journals[..n + 1])
           == FullReplay(journals[..n]) + Points(journals[n].oldSkills) + [Discarded(journals[n].op)]
    {
      if n == 0 {
        assert journals[..1] == [journals[0]] && journals[..1][1..] == [];
      } else {
        FullReplayGrows(journals[1..], n - 1);
        assert journals[..n + 1][1..] == journals[1..][..n];
        assert journals[..n][1..] == journals[1..][..n - 1];
      }
    }

    static lemma {:induction false} ReplaysFrom(journals: seq<Journal>, n: nat, tail: seq<Effect>)
      requires n <= |journals|
      requires n == |journals| ==> tail == []
      requires n < |journals| ==>
                 exists m | 0 <= m <= |journals[n].oldSkills| :: tail == Points(journals[n].oldSkills[..m])
      ensures Replays(journals, FullReplay(journals[..n]) + tail)
      decreases n
    {
      if n > 0 {
        ReplaysFrom(journals[1..], n - 1, tail);
        var rest := FullReplay(journals[1..][..n - 1]) + tail;
        assert journals[..n][1..] == journals[1..][..n - 1];
        assert FullReplay(journals[..n]) + tail == Points(journals[0].oldSkills) + [Discarded(journals[0].op)] + rest;
      } else {
        assert FullReplay(journals[..0]) + tail == tail;
      }
    }

    static lemma {:induction false} WithoutKeeps(journals: seq<Journal>, op: OperationId, j: Journal)
      requires j in Without(journals, op)
      ensures j in journals && j.op != op
      decreases |journals|
    {
      if !(journals[0].op != op && j == journals[0]) {
        WithoutKeeps(journals[1..], op, j);
      }
    }

    /** A pack apply followed by any number of restarts, every one of them cut short or not:
        when the journal is gone the device is as before, rolled back, or committed. */
    method ApplyAcrossRestarts(op: OperationId, catalog: Catalog, restarts: seq<seq<Fault>>)
      requires disk.journals == []
      modifies this`disk, this`faults, this`quarantine
      ensures var d := old(disk).(generations := disk.generations);
              var plan := PlanFor(op, catalog, sources, old(disk));
              if disk.journals != [] then Interrupted(d, disk, JournalOf(plan))
              else disk == d || disk == Undone(d, plan.oldSkills) || disk == Done(d, plan)
    {
      ghost var plan := PlanFor(op, catalog, sources, disk);
      PlanIsPaired(op, catalog, sources, disk);
      var ending, effects := ApplyPackOnlyState(op, catalog);
      ghost var d := old(disk).(generations := disk.generations);
      ApplyOutcome(d, plan, effects, ending);
      for n := 0 to |restarts|
        invariant disk.generations == d.generations
        invariant || Interrupted(d, disk, JournalOf(plan))
                  || disk == d || disk == Undone(d, plan.oldSkills) || disk == Done(d, plan)
      {
        faults := restarts[n];
        ghost var f := disk;
        var _, boot := RecoverIncompleteApply();
        if Interrupted(d, f, JournalOf(plan)) {
          BootOutcome(d, f, JournalOf(plan), boot);
        }
      }
    }
  }
}
