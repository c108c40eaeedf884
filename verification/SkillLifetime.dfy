/** One owned skill from being listed on the account to disappearing from it and back. While it
    is listed it has the row, queue and workspace of `WorkspaceModel`; when it disappears, its
    row and every record under it are deleted, queued or not. */
module SkillLifetime {
  import opened Basics
  import opened WorkspaceModel

  /** `saves` are all the saves ever recorded, as they were queued. */
  datatype Life = Life(row: Option<Workspace>, tree: TreeId, reg: Registry, saves: set<Record>)

  datatype Turn =
    | Happens(e: Event)
    | Disappears                                              // no longer listed: rows cascade
    | Listed(generation: nat, revision: RevisionId)           // listed (again): a new baseline

  function AsQueued(records: seq<Record>): set<Record> {
    set rec | rec in records :: rec.(queued := true)
  }

  function Baseline(generation: nat, revision: RevisionId): Workspace {
    Workspace(generation, revision, revision, RootOf(revision), Clean, [], None)
  }

  /** Without a row the steps of a skill reach only the tree and the registry. */
  ghost function Turned(l: Life, t: Turn): Life {
    match t
    case Happens(e) =>
      (match l.row
       case Some(ws) =>
         var s := Step(System(ws, l.tree, l.reg), e);
         Life(Some(s.ws), s.tree, s.reg, l.saves + AsQueued(s.ws.records))
       case None =>
         var s := Step(System(Baseline(0, l.reg.head), l.tree, l.reg), e);
         l.(tree := s.tree, reg := s.reg))
    case Disappears => l.(row := None)
    case Listed(generation, revision) =>
      if l.row.None? then l.(row := Some(Baseline(generation, revision)), tree := RootOf(revision)) else l
  }

  ghost function Lived(l: Life, turns: seq<Turn>): Life
    decreases |turns|
  {
    if turns == [] then l else Lived(Turned(l, turns[0]), turns[1..])
  }

  /** The save is queued, or the registry keeps it. */
  ghost predicate Accounted(rec: Record, l: Life) {
    (l.row.Some? && rec in l.row.value.records) || Kept(rec, l.reg)
  }

  ghost predicate AllAccounted(l: Life) {
    forall rec :: rec in l.saves ==> Accounted(rec, l)
  }

  /** Rows and registry are well formed, and what is recorded is remembered as a save. */
  ghost predicate LifeOk(l: Life) {
    && RegistryOk(l.reg) && (forall rec :: rec in l.saves ==> rec.queued)
    && (l.row.Some? ==> OperationsDistinct(l.row.value.records) && AsQueued(l.row.value.records) <= l.saves)
  }

  lemma NothingRecordedIsLost(l: Life)
    requires LifeOk(l) && AllAccounted(l) && l.row.Some?
    ensures NothingLost(System(l.row.value, l.tree, l.reg))
  {
    var records := l.row.value.records;
    forall i | 0 <= i < |records| ensures records[i].queued || Kept(records[i], l.reg) {
      var rec := records[i].(queued := true);
      assert rec in AsQueued(records);
      if rec in records {
        var j :| 0 <= j < |records| && records[j] == rec;
        assert records[i].op == records[j].op;
      }
    }
  }

  lemma StepAccounts(l: Life, e: Event)
    requires LifeOk(l) && AllAccounted(l) && l.row.Some?
    ensures LifeOk(Turned(l, Happens(e))) && AllAccounted(Turned(l, Happens(e)))
  {
    var s := System(l.row.value, l.tree, l.reg);
    var after := Turned(l, Happens(e));
    NothingRecordedIsLost(l);
    StepLosesNothing(s, e);
    forall rec | rec in after.saves ensures Accounted(rec, after) {
      SaveStaysAccounted(l, e, rec);
    }
  }

  lemma SaveStaysAccounted(l: Life, e: Event, rec: Record)
    requires LifeOk(l) && AllAccounted(l) && l.row.Some? && rec in Turned(l, Happens(e)).saves
    requires var s := System(l.row.value, l.tree, l.reg);
             NothingLost(Step(s, e)) && Continues(s.ws.records, Step(s, e).ws.records) && Evolves(s.reg, Step(s, e).reg)
    ensures Accounted(rec, Turned(l, Happens(e)))
  {
    var before, after := l.row.value.records, Turned(l, Happens(e)).row.value.records;
    hide Step, OperationsDistinct, RegistryOk, Evolves;
    if rec in l.saves && Kept(rec, l.reg) {
      KeptForGood(rec, l.reg, Turned(l, Happens(e)).reg);
    } else {
      var i :| 0 <= i < |after| && after[i].(queued := true) == rec by {
        if rec in l.saves {
          var k :| 0 <= k < |before| && before[k] == rec;
          assert after[k].(queued := true) == rec;
        } else {
          var r :| r in after && r.(queued := true) == rec;
        }
      }
      assert after[i].queued ==> after[i] == rec;
    }
  }

  /** A disappearance loses nothing exactly when the registry already keeps every queued save. */
  lemma DisappearanceLosesNothingIff(l: Life)
    requires LifeOk(l) && AllAccounted(l) && l.row.Some?
    ensures AllAccounted(Turned(l, Disappears)) <==>
            forall rec :: rec in Queue(l.row.value.records) ==> Kept(rec, l.reg)
  {
    var records, after := l.row.value.records, Turned(l, Disappears);
    if AllAccounted(after) {
      forall rec | rec in Queue(records) ensures Kept(rec, l.reg) {
        QueuedIsSaved(records, rec);
        assert rec in l.saves;
      }
    }
    if forall rec :: rec in Queue(records) ==> Kept(rec, l.reg) {
      forall rec | rec in l.saves ensures Accounted(rec, after) {
        if rec in records {
          var i :| 0 <= i < |records| && records[i] == rec;
          QueueHas(records, i);
        }
      }
    }
  }

  lemma {:induction false} QueuedIsSaved(records: seq<Record>, rec: Record)
    requires rec in Queue(records)
    ensures rec in AsQueued(records)
    decreases |records|
  {
    var n := |records| - 1;
    assert records == records[..n] + [records[n]];
    if rec in Queue(records[..n]) {
      QueuedIsSaved(records[..n], rec);
    }
  }

  /** The guard of a safe disappearance: nothing is queued that the registry does not keep. */
  ghost predicate SafeTurn(l: Life, t: Turn) {
    t.Disappears? && l.row.Some? ==> forall rec :: rec in Queue(l.row.value.records) ==> Kept(rec, l.reg)
  }

  lemma TurnAccountsIff(l: Life, t: Turn)
    requires LifeOk(l) && AllAccounted(l)
    ensures LifeOk(Turned(l, t)) && (AllAccounted(Turned(l, t)) <==> SafeTurn(l, t))
  {
    match t {
      case Happens(e) =>
        if l.row.Some? {
          StepAccounts(l, e);
        } else {
          AbsentAccounts(l, e);
        }
      case Disappears => if l.row.Some? { DisappearanceLosesNothingIff(l); }
      case Listed(_, _) =>
    }
  }

  lemma AbsentAccounts(l: Life, e: Event)
    requires LifeOk(l) && AllAccounted(l) && l.row.None?
    ensures LifeOk(Turned(l, Happens(e))) && AllAccounted(Turned(l, Happens(e)))
  {
    var s, after := System(Baseline(0, l.reg.head), l.tree, l.reg), Turned(l, Happens(e));
    StepKeepsRegistry(s, e);
    forall rec | rec in after.saves ensures Kept(rec, after.reg) {
      KeptForGood(rec, l.reg, after.reg);
    }
  }

  ghost predicate AccountedThroughout(l: Life, turns: seq<Turn>)
    decreases |turns|
  {
    AllAccounted(l) && (turns == [] || AccountedThroughout(Turned(l, turns[0]), turns[1..]))
  }

  ghost predicate SafeThroughout(l: Life, turns: seq<Turn>)
    decreases |turns|
  {
    turns == [] || (SafeTurn(l, turns[0]) && SafeThroughout(Turned(l, turns[0]), turns[1..]))
  }

  /** Over every run, with the skill disappearing and coming back any number of times: every save
      ever recorded is queued or kept by the registry all along, if and only if at each
      disappearance the registry already keeps whatever is queued. */
  lemma {:induction false} NoSaveIsLostIff(l: Life, turns: seq<Turn>)
    requires LifeOk(l) && AllAccounted(l)
    ensures AccountedThroughout(l, turns) <==> SafeThroughout(l, turns)
    decreases |turns|
  {
    if turns != [] {
      TurnAccountsIff(l, turns[0]);
      if SafeTurn(l, turns[0]) {
        NoSaveIsLostIff(Turned(l, turns[0]), turns[1..]);
      }
    }
  }

  function StartRegistry(): Registry {
    Registry(7, Foreign(0, 100), 1, [Foreign(0, 100)], {Foreign(0, 100)}, map[], None)
  }

  /** A clean skill whose tree the user has just edited. */
  function JustEdited(): Life { Life(Some(Baseline(1, Foreign(0, 100))), 101, StartRegistry(), {}) }

  /** A save made offline, the disappearance, and the skill listed again: the save is neither
      recorded nor on the registry. */
  lemma DisappearanceCanLoseASave()
    ensures var after := Lived(JustEdited(), [Happens(Captured(7, 1)), Disappears, Listed(1, Foreign(0, 100))]);
            && LifeOk(JustEdited()) && AllAccounted(JustEdited())
            && after.row.Some? && after.tree == 100
            && exists rec :: rec in after.saves && rec.revision !in after.reg.stored
                             && forall r :: r in after.row.value.records ==> r.op != rec.op
  {
    var base := Foreign(0, 100);
    var rec := Record(1, Hashed(101, {base}, 7, 1), base, {base}, 1, 101, true);
    var l, t1, t2, t3 := JustEdited(), Happens(Captured(7, 1)), Disappears, Listed(1, base);
    assert Save(l.row.value, 101, 7, 1) == Some(rec);
    var l1 := Turned(l, t1);
    assert l1.row.value.records == [rec];
    assert rec in AsQueued([rec]);
    assert [t1, t2, t3][1..] == [t2, t3] && [t2, t3][1..] == [t3] && [t3][1..] == [];
    assert Lived(l, [t1, t2, t3]) == Lived(l1, [t2, t3]) == Lived(Turned(l1, t2), [t3]);
    assert Lived(Turned(l1, t2), [t3]) == Turned(Turned(l1, t2), t3);
    assert rec in l1.saves && rec.revision != base;
  }
}
