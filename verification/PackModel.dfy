/** What a pack apply does to durable state, one atomic effect at a time, and what
    those effects add up to when the process is killed between any two of them. */
module PackModel {
  import opened Basics

  type ResourceId = nat
  type RevisionId = nat
  type OperationId = nat

  /** `~/.denju/skills/<owner>/<name>`, the canonical link of a skill. */
  datatype Path = Path(owner: string, name: string)

  /** `generations/<resource>/<revision>`, what a canonical link points at. */
  datatype Target = Target(id: ResourceId, revision: RevisionId)

  type Pointers = map<Path, Target>

  datatype Row = Row(
    id: ResourceId, path: Path, generation: nat, desired: RevisionId,
    rootTree: nat, harness: Option<string>, materialized: RevisionId)

  /** A row of the journal payload: `revision` None means "no link". */
  datatype SkillState = SkillState(id: ResourceId, path: Path, revision: Option<RevisionId>)

  datatype Journal = Journal(op: OperationId, oldSkills: seq<SkillState>, newSkills: seq<SkillState>)

  /** Durable local state; `journals` are the incomplete ones, oldest first. */
  datatype Disk = Disk(
    pointers: Pointers,
    generations: set<Target>,
    rows: map<ResourceId, Row>,
    conflicts: set<ResourceId>,
    journals: seq<Journal>)

  datatype Effect =
    | Opened(journal: Journal)
    | Pointed(state: SkillState)
    | Committed(op: OperationId, rows: seq<Row>, conflicts: set<ResourceId>)
    | Discarded(op: OperationId)

  function Lookup(p: Pointers, path: Path): Option<Target> {
    if path in p then Some(p[path]) else None
  }

  function TargetOf(s: SkillState): Option<Target> {
    match s.revision
    case None => None
    case Some(revision) => Some(Target(s.id, revision))
  }

  function Point(p: Pointers, s: SkillState): Pointers {
    match TargetOf(s)
    case None => p - {s.path}
    case Some(target) => p[s.path := target]
  }

  function PointAll(p: Pointers, states: seq<SkillState>): Pointers
    decreases |states|
  {
    if states == [] then p else PointAll(Point(p, states[0]), states[1..])
  }

  function Without(journals: seq<Journal>, op: OperationId): seq<Journal> {
    if journals == [] then []
    else (if journals[0].op == op then [] else [journals[0]]) + Without(journals[1..], op)
  }

  function RowMap(rows: seq<Row>): map<ResourceId, Row> {
    if rows == [] then map[] else RowMap(rows[..|rows| - 1])[rows[|rows| - 1].id := rows[|rows| - 1]]
  }

  function Perform(d: Disk, e: Effect): Disk {
    match e
    case Opened(journal) => d.(journals := d.journals + [journal])
    case Pointed(state) => d.(pointers := Point(d.pointers, state))
    case Committed(op, rows, conflicts) =>
      d.(rows := RowMap(rows), conflicts := conflicts, journals := Without(d.journals, op))
    case Discarded(op) => d.(journals := Without(d.journals, op))
  }

  function PerformAll(d: Disk, effects: seq<Effect>): Disk
    decreases |effects|
  {
    if effects == [] then d else PerformAll(Perform(d, effects[0]), effects[1..])
  }

  function Points(states: seq<SkillState>): seq<Effect> {
    seq(|states|, i requires 0 <= i < |states| => Pointed(states[i]))
  }

  function Paths(states: seq<SkillState>): set<Path> {
    set s | s in states :: s.path
  }

  ghost predicate AgreeOff(p: Pointers, q: Pointers, paths: set<Path>) {
    forall path :: path !in paths ==> Lookup(p, path) == Lookup(q, path)
  }

  /** The link at `s.path` is exactly what `s` records. */
  ghost predicate Shows(p: Pointers, s: SkillState) {
    Lookup(p, s.path) == TargetOf(s)
  }

  /** No later entry of `states` writes the path of entry `i` with another target. */
  ghost predicate Uncontested(states: seq<SkillState>, i: nat)
    requires i < |states|
  {
    states[i].path in Paths(states[i + 1..]) ==>
      TargetOf(LastFor(states[i + 1..], states[i].path)) == TargetOf(states[i])
  }

  ghost function LastFor(states: seq<SkillState>, path: Path): (s: SkillState)
    requires path in Paths(states)
    ensures s in states && s.path == path
  {
    var last := states[|states| - 1];
    if last.path == path then last else
      assert path in Paths(states[..|states| - 1]);
      LastFor(states[..|states| - 1], path)
  }

  // ----- folding effects -------------------------------------------------------

  lemma {:induction false} PerformAppend(d: Disk, a: seq<Effect>, b: seq<Effect>)
    ensures PerformAll(d, a + b) == PerformAll(PerformAll(d, a), b)
    decreases |a|
  {
    if a == [] {
      assert a + b == b;
    } else {
      PerformAppend(Perform(d, a[0]), a[1..], b);
      assert (a + b)[1..] == a[1..] + b;
    }
  }

  lemma {:induction false} PointAppend(p: Pointers, a: seq<SkillState>, b: seq<SkillState>)
    ensures PointAll(p, a + b) == PointAll(PointAll(p, a), b)
    decreases |a|
  {
    if a == [] {
      assert a + b == b;
    } else {
      PointAppend(Point(p, a[0]), a[1..], b);
      assert (a + b)[1..] == a[1..] + b;
    }
  }

  /** A run of link switches moves nothing but the links. */
  lemma {:induction false} PerformPoints(d: Disk, states: seq<SkillState>)
    ensures PerformAll(d, Points(states)) == d.(pointers := PointAll(d.pointers, states))
    decreases |states|
  {
    if states != [] {
      PerformPoints(Perform(d, Pointed(states[0])), states[1..]);
      assert Points(states)[1..] == Points(states[1..]);
    }
  }

  lemma {:induction false} PointStaysOff(p: Pointers, states: seq<SkillState>, paths: set<Path>)
    requires Paths(states) <= paths
    ensures AgreeOff(p, PointAll(p, states), paths)
    decreases |states|
  {
    if states != [] {
      assert states[0].path in Paths(states);
      assert Paths(states[1..]) <= Paths(states);
      PointStaysOff(Point(p, states[0]), states[1..], paths);
    }
  }

  /** Rewriting every journaled path forgets whatever was there: two link sets that
      differ only on those paths end up equal. This is why replaying a rollback from
      the start, after any number of interrupted replays, is harmless. */
  lemma {:induction false} PointForgets(p: Pointers, q: Pointers, states: seq<SkillState>)
    requires AgreeOff(p, q, Paths(states))
    ensures PointAll(p, states) == PointAll(q, states)
    decreases |states|
  {
    if states == [] {
      assert forall path :: path in p <==> path in q by {
        forall path ensures path in p <==> path in q {
          assert Lookup(p, path) == Lookup(q, path);
        }
      }
      forall path | path in p ensures p[path] == q[path] {
        assert Lookup(p, path) == Lookup(q, path);
      }
      assert p == q;
    } else {
      var p1, q1 := Point(p, states[0]), Point(q, states[0]);
      forall path | path !in Paths(states[1..]) ensures Lookup(p1, path) == Lookup(q1, path) {
        if path != states[0].path {
          assert path !in Paths(states);
          assert Lookup(p, path) == Lookup(q, path);
        }
      }
      PointForgets(p1, q1, states[1..]);
    }
  }

  lemma {:induction false} PathsSplit(states: seq<SkillState>)
    requires states != []
    ensures Paths(states) == Paths(states[..|states| - 1]) + {states[|states| - 1].path}
  {
    var n := |states| - 1;
    forall path | path in Paths(states) ensures path in Paths(states[..n]) + {states[n].path} {
      var s :| s in states && s.path == path;
      var i :| 0 <= i < |states| && states[i] == s;
      if i < n { assert states[..n][i] == s; }
    }
  }

  /** After the whole switch, a path shows the entry that wrote it last. */
  lemma {:induction false} LastWriterWins(p: Pointers, states: seq<SkillState>, path: Path)
    requires path in Paths(states)
    ensures Lookup(PointAll(p, states), path) == TargetOf(LastFor(states, path))
    decreases |states|
  {
    var n := |states| - 1;
    assert states == states[..n] + [states[n]];
    PointAppend(p, states[..n], [states[n]]);
    var before := PointAll(p, states[..n]);
    assert [states[n]][1..] == [];
    assert PointAll(before, [states[n]]) == Point(before, states[n]);
    if states[n].path != path {
      PathsSplit(states);
      LastWriterWins(p, states[..n], path);
    }
  }

  lemma TailPaths(states: seq<SkillState>, i: nat, path: Path)
    requires i <= |states| && path in Paths(states[i..])
    ensures path in Paths(states) && i < |states| && states[i..][|states| - i - 1] == states[|states| - 1]
    ensures states[i..][..|states| - i - 1] == states[..|states| - 1][i..]
  {
    var s :| s in states[i..] && s.path == path;
    assert s in states;
  }

  lemma {:induction false} LastForTail(states: seq<SkillState>, i: nat, path: Path)
    requires i <= |states| && path in Paths(states[i..])
    ensures path in Paths(states) && LastFor(states, path) == LastFor(states[i..], path)
    decreases |states|
  {
    TailPaths(states, i, path);
    var n := |states| - 1;
    if states[n].path != path {
      PathsSplit(states[i..]);
      PathsSplit(states);
      LastForTail(states[..n], i, path);
    }
  }

  /** Entry `i` is what its path shows after the switch exactly when no later entry
      takes the path over. Two resources journaled under one owner and name are the
      case that fails: the higher resource id wins. */
  lemma {:induction false} ShownIffUncontested(p: Pointers, states: seq<SkillState>, i: nat)
    requires i < |states|
    ensures Shows(PointAll(p, states), states[i]) <==> Uncontested(states, i)
  {
    var path := states[i].path;
    assert path in Paths(states);
    LastWriterWins(p, states, path);
    if path in Paths(states[i + 1..]) {
      LastForTail(states, i + 1, path);
    } else {
      assert states[i..][0] == states[i];
      assert path in Paths(states[i..]);
      LastForTail(states, i, path);
      forall k | 0 < k < |states[i..]| ensures states[i..][k].path != path {
        assert states[i + 1..][k - 1] == states[i..][k];
      }
      assert LastFor(states[i..], path) == states[i];
    }
  }

  /** Entry `i` has the last word on its path. */
  ghost predicate LastOn(states: seq<SkillState>, i: nat)
    requires i < |states|
  {
    forall j :: i < j < |states| ==> states[j].path != states[i].path
  }

  lemma {:induction false} LastIndex(states: seq<SkillState>, path: Path) returns (i: nat)
    requires path in Paths(states)
    ensures i < |states| && states[i].path == path && LastOn(states, i)
    decreases |states|
  {
    i := |states| - 1;
    if states[i].path != path {
      PathsSplit(states);
      i := LastIndex(states[..|states| - 1], path);
      assert states[..|states| - 1][i] == states[i];
      forall j | i < j < |states| ensures states[j].path != states[i].path {
        if j < |states| - 1 { assert states[..|states| - 1][j] == states[j]; }
      }
    }
  }

  lemma LastIsUncontested(states: seq<SkillState>, i: nat)
    requires i < |states| && LastOn(states, i)
    ensures Uncontested(states, i)
  {
    forall s | s in states[i + 1..] ensures s.path != states[i].path {
      var k :| 0 <= k < |states[i + 1..]| && states[i + 1..][k] == s;
      assert s == states[i + 1 + k];
    }
  }

  /** Replaying a journal is a no-op exactly when every entry that has the last word on its
      path recorded what the disk shows there. */
  lemma {:induction false} ReplayIsIdentityIff(p: Pointers, states: seq<SkillState>)
    ensures PointAll(p, states) == p <==>
            forall i :: 0 <= i < |states| && LastOn(states, i) ==> Shows(p, states[i])
  {
    var q := PointAll(p, states);
    forall i | 0 <= i < |states| && LastOn(states, i) ensures Shows(q, states[i]) {
      LastIsUncontested(states, i);
      ShownIffUncontested(p, states, i);
    }
    if forall i :: 0 <= i < |states| && LastOn(states, i) ==> Shows(p, states[i]) {
      PointStaysOff(p, states, Paths(states));
      forall path ensures Lookup(p, path) == Lookup(q, path) {
        if path in Paths(states) {
          var i := LastIndex(states, path);
          assert Shows(p, states[i]) && Shows(q, states[i]);
        }
      }
      PointForgets(p, q, []);
    }
  }

  // ----- what one apply, and one restart, can do -------------------------------

  /** Everything a pack apply decided before it touched a link. */
  datatype Plan = Plan(op: OperationId, oldSkills: seq<SkillState>, newSkills: seq<SkillState>,
                       rows: seq<Row>, conflicts: set<ResourceId>)

  function JournalOf(plan: Plan): Journal {
    Journal(plan.op, plan.oldSkills, plan.newSkills)
  }

  /** Old and new journal entries come in pairs under one identity. */
  ghost predicate Paired(plan: Plan) {
    && |plan.oldSkills| == |plan.newSkills|
    && forall i :: 0 <= i < |plan.oldSkills| ==>
         plan.oldSkills[i].id == plan.newSkills[i].id && plan.oldSkills[i].path == plan.newSkills[i].path
  }

  datatype Ending = Finished | RolledBack | Stopped

  /** The effects one apply of `plan` may leave: a full commit; a failed switch undone in
      process; or, killed or failing anywhere else, some prefix that keeps the journal. */
  ghost predicate ApplyRun(plan: Plan, effects: seq<Effect>, ending: Ending) {
    var start := [Opened(JournalOf(plan))];
    match ending
    case Finished =>
      effects == start + Points(plan.newSkills) + [Committed(plan.op, plan.rows, plan.conflicts)]
    case RolledBack =>
      exists k | 0 <= k <= |plan.newSkills| ::
        effects == start + Points(plan.newSkills[..k]) + Points(plan.oldSkills) + [Discarded(plan.op)]
    case Stopped =>
      effects == [] ||
      exists k, m | 0 <= k <= |plan.newSkills| && 0 <= m <= |plan.oldSkills| ::
        effects == start + Points(plan.newSkills[..k]) + Points(plan.oldSkills[..m])
  }

  /** The effects of one recovery at start-up: every journal replayed and removed in turn,
      or the same cut short inside some journal. */
  ghost predicate Replays(journals: seq<Journal>, effects: seq<Effect>)
    decreases |journals|
  {
    if journals == [] then effects == [] else
      var j := journals[0];
      || (exists m | 0 <= m <= |j.oldSkills| :: effects == Points(j.oldSkills[..m]))
      || (exists rest :: effects == Points(j.oldSkills) + [Discarded(j.op)] + rest && Replays(journals[1..], rest))
  }

  ghost predicate BootRun(d: Disk, effects: seq<Effect>) {
    Replays(d.journals, effects)
  }

  ghost predicate BootRuns(d: Disk, boots: seq<seq<Effect>>)
    decreases |boots|
  {
    boots == [] || (BootRun(d, boots[0]) && BootRuns(PerformAll(d, boots[0]), boots[1..]))
  }

  ghost function Boot(d: Disk, boots: seq<seq<Effect>>): Disk
    decreases |boots|
  {
    if boots == [] then d else Boot(PerformAll(d, boots[0]), boots[1..])
  }

  /** Between the journal and its removal: rows untouched, links astray only on
      journaled paths. */
  ghost predicate Interrupted(d: Disk, f: Disk, j: Journal) {
    && f == d.(pointers := f.pointers, journals := [j])
    && AgreeOff(d.pointers, f.pointers, Paths(j.oldSkills))
  }

  ghost function Undone(d: Disk, oldSkills: seq<SkillState>): Disk {
    d.(pointers := PointAll(d.pointers, oldSkills))
  }

  ghost function Done(d: Disk, plan: Plan): Disk {
    d.(pointers := PointAll(d.pointers, plan.newSkills), rows := RowMap(plan.rows), conflicts := plan.conflicts)
  }

  lemma {:induction false} PairedPaths(plan: Plan, k: nat)
    requires Paired(plan) && k <= |plan.newSkills|
    ensures Paths(plan.newSkills[..k]) <= Paths(plan.oldSkills)
  {
    forall path | path in Paths(plan.newSkills[..k]) ensures path in Paths(plan.oldSkills) {
      var s :| s in plan.newSkills[..k] && s.path == path;
      var i :| 0 <= i < k && plan.newSkills[i] == s;
      assert plan.oldSkills[i] in plan.oldSkills;
    }
  }

  lemma {:induction false} ReplayInterrupted(d: Disk, f: Disk, j: Journal, m: nat)
    requires Interrupted(d, f, j) && m <= |j.oldSkills|
    ensures Interrupted(d, PerformAll(f, Points(j.oldSkills[..m])), j)
    ensures m == |j.oldSkills| ==> PerformAll(f, Points(j.oldSkills[..m])).pointers == PointAll(d.pointers, j.oldSkills)
  {
    PerformPoints(f, j.oldSkills[..m]);
    forall path | path in Paths(j.oldSkills[..m]) ensures path in Paths(j.oldSkills) {
    }
    PointStaysOff(f.pointers, j.oldSkills[..m], Paths(j.oldSkills));
    var g := PerformAll(f, Points(j.oldSkills[..m]));
    forall path | path !in Paths(j.oldSkills) ensures Lookup(d.pointers, path) == Lookup(g.pointers, path) {
      assert Lookup(d.pointers, path) == Lookup(f.pointers, path);
      assert Lookup(f.pointers, path) == Lookup(PointAll(f.pointers, j.oldSkills[..m]), path);
    }
    if m == |j.oldSkills| {
      assert j.oldSkills[..m] == j.oldSkills;
      PointForgets(d.pointers, f.pointers, j.oldSkills);
    }
  }

  lemma {:induction false} OpenThenSwitch(d: Disk, plan: Plan, k: nat)
    requires d.journals == [] && Paired(plan) && k <= |plan.newSkills|
    ensures Interrupted(d, PerformAll(d, [Opened(JournalOf(plan))] + Points(plan.newSkills[..k])), JournalOf(plan))
    ensures PerformAll(d, [Opened(JournalOf(plan))] + Points(plan.newSkills[..k])).pointers
            == PointAll(d.pointers, plan.newSkills[..k])
  {
    var open := [Opened(JournalOf(plan))];
    PerformAppend(d, open, Points(plan.newSkills[..k]));
    var journaled := PerformAll(d, open);
    assert open[1..] == [];
    assert journaled == d.(journals := [JournalOf(plan)]);
    PerformPoints(journaled, plan.newSkills[..k]);
    PairedPaths(plan, k);
    PointStaysOff(d.pointers, plan.newSkills[..k], Paths(plan.oldSkills));
  }

  lemma PerformOne(d: Disk, e: Effect)
    ensures PerformAll(d, [e]) == Perform(d, e)
  {
    assert [e][1..] == [];
  }

  /** One apply, however it ends, either commits everything, undoes everything, or leaves
      a journal behind which everything else still agrees with the state before it. */
  lemma {:induction false} ApplyOutcome(d: Disk, plan: Plan, effects: seq<Effect>, ending: Ending)
    requires d.journals == [] && Paired(plan)
    requires ApplyRun(plan, effects, ending)
    ensures ending.Finished? ==> PerformAll(d, effects) == Done(d, plan)
    ensures ending.RolledBack? ==> PerformAll(d, effects) == Undone(d, plan.oldSkills)
    ensures ending.Stopped? ==>
              PerformAll(d, effects) == d || Interrupted(d, PerformAll(d, effects), JournalOf(plan))
  {
    var j := JournalOf(plan);
    var start := [Opened(j)];
    match ending {
      case Finished =>
        var all := plan.newSkills[..|plan.newSkills|];
        assert all == plan.newSkills;
        var commit := Committed(plan.op, plan.rows, plan.conflicts);
        OpenThenSwitch(d, plan, |plan.newSkills|);
        PerformAppend(d, start + Points(plan.newSkills), [commit]);
        PerformOne(PerformAll(d, start + Points(plan.newSkills)), commit);
        assert Without([j], plan.op) == Without([j][1..], plan.op);
      case RolledBack =>
        var k :| 0 <= k <= |plan.newSkills| &&
          effects == start + Points(plan.newSkills[..k]) + Points(plan.oldSkills) + [Discarded(plan.op)];
        var switched := PerformAll(d, start + Points(plan.newSkills[..k]));
        OpenThenSwitch(d, plan, k);
        PerformAppend(d, start + Points(plan.newSkills[..k]), Points(plan.oldSkills));
        assert plan.oldSkills[..|plan.oldSkills|] == plan.oldSkills;
        ReplayInterrupted(d, switched, j, |plan.oldSkills|);
        PerformAppend(d, start + Points(plan.newSkills[..k]) + Points(plan.oldSkills), [Discarded(plan.op)]);
        PerformOne(PerformAll(switched, Points(plan.oldSkills)), Discarded(plan.op));
        assert Without([j], plan.op) == Without([j][1..], plan.op);
      case Stopped =>
        if effects != [] {
          var k, m :| 0 <= k <= |plan.newSkills| && 0 <= m <= |plan.oldSkills| &&
            effects == start + Points(plan.newSkills[..k]) + Points(plan.oldSkills[..m]);
          OpenThenSwitch(d, plan, k);
          PerformAppend(d, start + Points(plan.newSkills[..k]), Points(plan.oldSkills[..m]));
          ReplayInterrupted(d, PerformAll(d, start + Points(plan.newSkills[..k])), j, m);
        }
    }
  }

  lemma {:induction false} BootOutcome(d: Disk, f: Disk, j: Journal, effects: seq<Effect>)
    requires d.journals == [] && Interrupted(d, f, j) && BootRun(f, effects)
    ensures PerformAll(f, effects) == Undone(d, j.oldSkills) || Interrupted(d, PerformAll(f, effects), j)
  {
    if rest :| effects == Points(j.oldSkills) + [Discarded(j.op)] + rest && Replays([], rest) {
      assert effects == Points(j.oldSkills) + [Discarded(j.op)];
      assert j.oldSkills[..|j.oldSkills|] == j.oldSkills;
      ReplayInterrupted(d, f, j, |j.oldSkills|);
      PerformAppend(f, Points(j.oldSkills), [Discarded(j.op)]);
      PerformOne(PerformAll(f, Points(j.oldSkills)), Discarded(j.op));
      assert Without([j], j.op) == Without([j][1..], j.op);
    } else {
      var m :| 0 <= m <= |j.oldSkills| && effects == Points(j.oldSkills[..m]);
      ReplayInterrupted(d, f, j, m);
    }
  }

  lemma {:induction false} NothingToRecover(d: Disk, boots: seq<seq<Effect>>)
    requires d.journals == [] && BootRuns(d, boots)
    ensures Boot(d, boots) == d
    decreases |boots|
  {
    if boots != [] {
      NothingToRecover(d, boots[1..]);
    }
  }

  lemma {:induction false} RecoveryOutcome(d: Disk, f: Disk, j: Journal, boots: seq<seq<Effect>>)
    requires d.journals == [] && Interrupted(d, f, j) && BootRuns(f, boots)
    ensures Boot(f, boots) == Undone(d, j.oldSkills) || Interrupted(d, Boot(f, boots), j)
    decreases |boots|
  {
    if boots != [] {
      BootOutcome(d, f, j, boots[0]);
      var g := PerformAll(f, boots[0]);
      if Interrupted(d, g, j) {
        RecoveryOutcome(d, g, j, boots[1..]);
      } else {
        NothingToRecover(g, boots[1..]);
      }
    }
  }

  /** Crash atomicity. Whatever cut the apply short, and however many recoveries were cut
      short after it, once no journal is left the rows, the recorded conflicts and every
      link are together in the rolled-back state or together in the journaled new state;
      until then the rows are the old ones and only journaled links may be astray. */
  lemma {:induction false} PackApplyIsAtomic(
      d: Disk, plan: Plan, effects: seq<Effect>, ending: Ending, boots: seq<seq<Effect>>)
    requires d.journals == [] && Paired(plan)
    requires ApplyRun(plan, effects, ending)
    requires BootRuns(PerformAll(d, effects), boots)
    ensures var f := Boot(PerformAll(d, effects), boots);
            if f.journals != [] then Interrupted(d, f, JournalOf(plan))
            else f == d || f == Undone(d, plan.oldSkills) || f == Done(d, plan)
    ensures Boot(PerformAll(d, effects), boots) == Done(d, plan) || ending != Finished
  {
    ApplyOutcome(d, plan, effects, ending);
    var f := PerformAll(d, effects);
    if f.journals == [] {
      NothingToRecover(f, boots);
    } else {
      RecoveryOutcome(d, f, JournalOf(plan), boots);
    }
  }

  /** The rolled-back state is the state before the apply exactly when the journal was
      faithful: whatever it records last for a path is what the link there showed. */
  lemma {:induction false} RollbackIsExactIff(d: Disk, oldSkills: seq<SkillState>)
    ensures Undone(d, oldSkills) == d <==>
            forall i :: 0 <= i < |oldSkills| && LastOn(oldSkills, i) ==> Shows(d.pointers, oldSkills[i])
  {
    ReplayIsIdentityIff(d.pointers, oldSkills);
  }
}
