/** Rebuilding the one chain behind a local fork from the unordered rows it is stored in. */
module ForkHistory {
  import opened Basics
  import opened WorkspaceModel

  /** The revision continues `head`, and nothing else. */
  predicate Follows(rec: Record, head: RevisionId) {
    rec.parents == {head} && rec.head == head
  }

  /** A single-parent chain from `head`. */
  predicate ChainFrom(list: seq<Record>, head: RevisionId)
    decreases |list|
  {
    list == [] || (Follows(list[0], head) && ChainFrom(list[1..], list[0].revision))
  }

  ghost predicate IsHistory(list: seq<Record>, records: seq<Record>, upstream: RevisionId) {
    multiset(list) == multiset(records) && ChainFrom(list, upstream)
  }

  /** Revision ids are hashes: no two rows share one, and none is the upstream's. */
  ghost predicate DistinctIds(records: seq<Record>, upstream: RevisionId) {
    && (forall i, j :: 0 <= i < j < |records| ==> records[i].revision != records[j].revision)
    && (forall i :: 0 <= i < |records| ==> records[i].revision != upstream)
  }

  function HeadAt(list: seq<Record>, upstream: RevisionId, k: nat): RevisionId
    requires k <= |list|
  {
    if k == 0 then upstream else list[k - 1].revision
  }

  lemma {:induction false} ChainAt(list: seq<Record>, upstream: RevisionId, k: nat)
    requires ChainFrom(list, upstream) && k < |list|
    ensures Follows(list[k], HeadAt(list, upstream, k))
    decreases |list|
  {
    if k > 0 {
      ChainAt(list[1..], list[0].revision, k - 1);
      assert list[k] == list[1..][k - 1];
      if k > 1 { assert list[k - 1] == list[1..][k - 2]; }
    }
  }

  lemma {:induction false} ChainSnoc(list: seq<Record>, upstream: RevisionId, rec: Record)
    requires ChainFrom(list, upstream) && Follows(rec, HeadAt(list, upstream, |list|))
    ensures ChainFrom(list + [rec], upstream)
    decreases |list|
  {
    if list == [] {
      assert ([] + [rec])[1..] == [];
    } else {
      var n := |list|;
      if n > 1 { assert list[1..][n - 2] == list[n - 1]; }
      ChainSnoc(list[1..], list[0].revision, rec);
      assert (list + [rec])[1..] == list[1..] + [rec];
    }
  }

  /** In a chain with distinct ids only one row continues a given head. */
  lemma OnlyNextContinues(list: seq<Record>, upstream: RevisionId, k: nat, j: nat)
    requires ChainFrom(list, upstream) && DistinctIds(list, upstream)
    requires k <= j < |list| && Follows(list[j], HeadAt(list, upstream, k))
    ensures j == k
  {
    ChainAt(list, upstream, j);
  }

  lemma DistinctPermutation(list: seq<Record>, records: seq<Record>, upstream: RevisionId)
    requires multiset(list) == multiset(records) && DistinctIds(records, upstream)
    ensures DistinctIds(list, upstream)
  {
    forall i | 0 <= i < |list| ensures list[i].revision != upstream {
      assert list[i] in multiset(list);
      assert list[i] in multiset(records);
    }
    forall i, j | 0 <= i < j < |list| ensures list[i].revision != list[j].revision {
      var a, b := list[i], list[j];
      assert a in multiset(records) && b in multiset(records);
      if a.revision == b.revision {
        assert a == b;
        TwoCopies(list, i, j);
        OneCopy(records, upstream, a);
        assert false;
      }
    }
  }

  lemma TwoCopies(list: seq<Record>, i: nat, j: nat)
    requires i < j < |list| && list[i] == list[j]
    ensures multiset(list)[list[i]] >= 2
  {
    assert list == list[..i] + [list[i]] + list[i + 1..j] + [list[j]] + list[j + 1..];
  }

  lemma {:induction false} OneCopy(records: seq<Record>, upstream: RevisionId, rec: Record)
    requires DistinctIds(records, upstream)
    ensures multiset(records)[rec] <= 1
    decreases |records|
  {
    if records != [] {
      var n := |records| - 1;
      assert records == records[..n] + [records[n]];
      OneCopy(records[..n], upstream, rec);
      if records[n] == rec && rec in records[..n] {
        assert false;
      }
    }
  }

  /** There is at most one chain. */
  lemma {:induction false} HistoryIsUnique(a: seq<Record>, b: seq<Record>, records: seq<Record>, upstream: RevisionId,
                                           k: nat)
    requires IsHistory(a, records, upstream) && IsHistory(b, records, upstream) && DistinctIds(records, upstream)
    requires k <= |a|
    ensures |a| == |b| && a[..k] == b[..k]
  {
    assert |multiset(a)| == |a| && |multiset(b)| == |b|;
    if k > 0 {
      HistoryIsUnique(a, b, records, upstream, k - 1);
      DistinctPermutation(a, records, upstream);
      ChainAt(a, upstream, k - 1);
      ChainAt(b, upstream, k - 1);
      assert k > 1 ==> a[..k - 1][k - 2] == b[..k - 1][k - 2];
      assert b[k - 1] in multiset(b);
      assert b[k - 1] in multiset(a);
      var j :| 0 <= j < |a| && a[j] == b[k - 1];
      SameHeadSameIndex(a, upstream, k - 1, j);
    }
  }

  lemma SameHeadSameIndex(list: seq<Record>, upstream: RevisionId, k: nat, j: nat)
    requires ChainFrom(list, upstream) && DistinctIds(list, upstream)
    requires k < |list| && j < |list| && Follows(list[j], HeadAt(list, upstream, k))
    ensures j == k
  {
    if k <= j {
      OnlyNextContinues(list, upstream, k, j);
    } else {
      ChainAt(list, upstream, j);
      ChainAt(list, upstream, k);
      OnlyNextContinues(list, upstream, j, k);
    }
  }

  /** What is left of a chain whose first entries have been taken out of the rows. */
  lemma NextIsThere(chain: seq<Record>, k: nat, remaining: seq<Record>, upstream: RevisionId)
    requires ChainFrom(chain, upstream) && k <= |chain| && multiset(remaining) == multiset(chain[k..])
             && remaining != []
    ensures k < |chain| && chain[k] in remaining && Follows(chain[k], HeadAt(chain, upstream, k))
  {
    assert |multiset(remaining)| == |remaining| && |multiset(chain[k..])| == |chain[k..]|;
    ChainAt(chain, upstream, k);
    assert chain[k] in multiset(chain[k..]);
    assert chain[k] in multiset(remaining);
  }

  lemma RemoveAt(list: seq<Record>, i: nat)
    requires i < |list|
    ensures multiset(list[..i] + list[i + 1..]) == multiset(list) - multiset{list[i]}
    ensures multiset(list) == multiset{list[i]} + multiset(list[..i] + list[i + 1..])
  {
    assert list == list[..i] + [list[i]] + list[i + 1..];
  }

  lemma NoChain(upstream: RevisionId)
    ensures ChainFrom([], upstream) && HeadAt([], upstream, 0) == upstream
  {
  }

  /** The first row that continues the head, or the end. */
  function FirstFollower(rows: seq<Record>, head: RevisionId): (position: nat)
    ensures position <= |rows| && (position < |rows| ==> Follows(rows[position], head))
    ensures forall i :: 0 <= i < position ==> !Follows(rows[i], head)
  {
    if rows == [] || Follows(rows[0], head) then 0 else 1 + FirstFollower(rows[1..], head)
  }

  /** What taking the first follower again and again comes to. */
  function Rebuilt(rows: seq<Record>, head: RevisionId): Option<seq<Record>>
    decreases |rows|
  {
    if rows == [] then Some([]) else
      var p := FirstFollower(rows, head);
      if p == |rows| then None else Before([rows[p]], Rebuilt(rows[..p] + rows[p + 1..], rows[p].revision))
  }

  function Before(list: seq<Record>, rest: Option<seq<Record>>): Option<seq<Record>> {
    if rest.None? then None else Some(list + rest.value)
  }

  /** `position`: the first remaining row that continues the head. */
  method NextPosition(remaining: seq<Record>, head: RevisionId) returns (position: nat)
    ensures position == FirstFollower(remaining, head)
  {
    position := 0;
    while position < |remaining| && !Follows(remaining[position], head)
      invariant 0 <= position <= |remaining|
      invariant forall i :: 0 <= i < position ==> !Follows(remaining[i], head)
    {
      position := position + 1;
    }
    assert position == FirstFollower(remaining, head);
  }

  /** What is left while the chain is being rebuilt: the rows not yet ordered, and, if there is
      a chain, its rest. */
  ghost predicate Rebuilding(records: seq<Record>, upstream: RevisionId, ordered: seq<Record>, remaining: seq<Record>,
                             chain: Option<seq<Record>>) {
    && multiset(ordered) + multiset(remaining) == multiset(records) && ChainFrom(ordered, upstream)
    && (chain.Some? ==>
          |ordered| <= |chain.value| && ordered == chain.value[..|ordered|]
              && multiset(remaining) == multiset(chain.value[|ordered|..]))
  }

  lemma RebuildStep(records: seq<Record>, upstream: RevisionId, ordered: seq<Record>, remaining: seq<Record>,
                    chain: Option<seq<Record>>, position: nat)
    requires Rebuilding(records, upstream, ordered, remaining, chain) && position < |remaining|
    requires Follows(remaining[position], HeadAt(ordered, upstream, |ordered|))
    requires chain.Some? ==> ChainFrom(chain.value, upstream) && DistinctIds(chain.value, upstream)
    ensures Rebuilding(records, upstream, ordered + [remaining[position]],
                       remaining[..position] + remaining[position + 1..], chain)
  {
    hide Follows, DistinctIds, ChainFrom, HeadAt;
    var rec := remaining[position];
    if chain.Some? { RestOfChain(chain.value, upstream, ordered, remaining, position); }
    ChainSnoc(ordered, upstream, rec);
    MovesOver(ordered, remaining, position);
  }

  lemma MovesOver(ordered: seq<Record>, remaining: seq<Record>, position: nat)
    requires position < |remaining|
    ensures multiset(ordered + [remaining[position]]) + multiset(remaining[..position] + remaining[position + 1..])
            == multiset(ordered) + multiset(remaining)
  {
    RemoveAt(remaining, position);
  }

  lemma RestOfChain(chain: seq<Record>, upstream: RevisionId, ordered: seq<Record>, remaining: seq<Record>,
                    position: nat)
    requires position < |remaining| && |ordered| <= |chain| && ordered == chain[..|ordered|]
    requires multiset(remaining) == multiset(chain[|ordered|..]) && ChainFrom(chain, upstream)
             && DistinctIds(chain, upstream)
    requires Follows(remaining[position], HeadAt(ordered, upstream, |ordered|))
    ensures |ordered| < |chain| && ordered + [remaining[position]] == chain[..|ordered| + 1]
    ensures multiset(remaining[..position] + remaining[position + 1..]) == multiset(chain[|ordered| + 1..])
  {
    hide Follows, DistinctIds, ChainFrom, HeadAt;
    NextIsThere(chain, |ordered|, remaining, upstream);
    SameHead(chain, ordered, upstream);
    TakenIsNext(chain, |ordered|, remaining, position, upstream);
    RestAfterNext(chain, |ordered|, remaining, position);
  }

  lemma SameHead(chain: seq<Record>, ordered: seq<Record>, upstream: RevisionId)
    requires |ordered| <= |chain| && ordered == chain[..|ordered|]
    ensures HeadAt(ordered, upstream, |ordered|) == HeadAt(chain, upstream, |ordered|)
  {
  }

  /** While a chain exists, its next row is among the remaining ones. */
  lemma NeverStuck(records: seq<Record>, upstream: RevisionId, ordered: seq<Record>, remaining: seq<Record>,
                   chain: seq<Record>)
    requires Rebuilding(records, upstream, ordered, remaining, Some(chain)) && remaining != []
             && ChainFrom(chain, upstream)
    ensures exists i :: 0 <= i < |remaining| && Follows(remaining[i], HeadAt(ordered, upstream, |ordered|))
  {
    NextIsThere(chain, |ordered|, remaining, upstream);
    SameHead(chain, ordered, upstream);
  }

  lemma HeadMoves(ordered: seq<Record>, rec: Record, upstream: RevisionId)
    ensures HeadAt(ordered + [rec], upstream, |ordered + [rec]|) == rec.revision
  {
  }

  /** Takes, again and again, the first remaining row that continues the head. */
  method OrderedHistory(records: seq<Record>, upstream: RevisionId) returns (r: Option<seq<Record>>)
    ensures r.Some? ==> IsHistory(r.value, records, upstream)
    ensures DistinctIds(records, upstream) ==> (r.Some? <==> exists list :: IsHistory(list, records, upstream))
    ensures r == Rebuilt(records, upstream)
  {
    hide ChainFrom, DistinctIds, Follows, HeadAt, Rebuilt, Before, FirstFollower, Rebuilding;
    ghost var chain: Option<seq<Record>> := None;
    if DistinctIds(records, upstream) && exists list :: IsHistory(list, records, upstream) {
      ghost var list :| IsHistory(list, records, upstream);
      DistinctPermutation(list, records, upstream);
      chain := Some(list);
    }
    var remaining, ordered, head := records, [], upstream;
    NoChain(upstream);
    StartRebuilding(records, upstream, chain);
    BeforeNothing(Rebuilt(records, upstream));
    while remaining != []
      invariant Rebuilding(records, upstream, ordered, remaining, chain) && head == HeadAt(ordered, upstream, |ordered|)
      invariant Rebuilt(records, upstream) == Before(ordered, Rebuilt(remaining, head))
      decreases |remaining|
    {
      var position := NextPosition(remaining, head);
      RebuiltStep(ordered, remaining, head);
      if chain.Some? { NeverStuck(records, upstream, ordered, remaining, chain.value); }
      if position == |remaining| { return None; }
      RebuildStep(records, upstream, ordered, remaining, chain, position);
      var record := remaining[position];
      HeadMoves(ordered, record, upstream);
      remaining := remaining[..position] + remaining[position + 1..];
      head := record.revision;
      ordered := ordered + [record];
    }
    RebuiltDone(ordered, head);
    DoneRebuilding(records, upstream, ordered, chain);
    r := Some(ordered);
  }

  lemma StartRebuilding(records: seq<Record>, upstream: RevisionId, chain: Option<seq<Record>>)
    requires chain.Some? ==> multiset(chain.value) == multiset(records)
    ensures Rebuilding(records, upstream, [], records, chain)
  {
    if chain.Some? { assert chain.value[0..] == chain.value; }
  }

  lemma DoneRebuilding(records: seq<Record>, upstream: RevisionId, ordered: seq<Record>, chain: Option<seq<Record>>)
    requires Rebuilding(records, upstream, ordered, [], chain)
    ensures IsHistory(ordered, records, upstream)
  {
  }

  lemma BeforeNothing(r: Option<seq<Record>>)
    ensures Before([], r) == r
  {
    if r.Some? { assert [] + r.value == r.value; }
  }

  lemma RebuiltDone(ordered: seq<Record>, head: RevisionId)
    ensures Before(ordered, Rebuilt([], head)) == Some(ordered)
  {
    assert ordered + [] == ordered;
  }

  lemma {:induction false} RebuiltStep(ordered: seq<Record>, remaining: seq<Record>, head: RevisionId)
    requires remaining != []
    ensures var p := FirstFollower(remaining, head);
            Before(ordered, Rebuilt(remaining, head)) ==
              if p == |remaining| then None
              else Before(ordered + [remaining[p]], Rebuilt(remaining[..p] + remaining[p + 1..], remaining[p].revision))
  {
    var p := FirstFollower(remaining, head);
    if p < |remaining| {
      var rest := Rebuilt(remaining[..p] + remaining[p + 1..], remaining[p].revision);
      RebuiltUnfolds(remaining, head);
      hide Rebuilt, FirstFollower, Follows;
      BeforeTwice(ordered, [remaining[p]], rest);
    }
  }

  lemma {:induction false} RebuiltUnfolds(rows: seq<Record>, head: RevisionId)
    requires rows != [] && FirstFollower(rows, head) < |rows|
    ensures var p := FirstFollower(rows, head);
            Rebuilt(rows, head) == Before([rows[p]], Rebuilt(rows[..p] + rows[p + 1..], rows[p].revision))
  {
  }

  lemma BeforeTwice(a: seq<Record>, b: seq<Record>, rest: Option<seq<Record>>)
    ensures Before(a, Before(b, rest)) == Before(a + b, rest)
  {
    if rest.Some? { assert a + (b + rest.value) == (a + b) + rest.value; }
  }

  lemma TakenIsNext(chain: seq<Record>, k: nat, remaining: seq<Record>, position: nat, upstream: RevisionId)
    requires ChainFrom(chain, upstream) && DistinctIds(chain, upstream)
    requires k < |chain| && multiset(remaining) == multiset(chain[k..]) && position < |remaining|
    requires Follows(remaining[position], HeadAt(chain, upstream, k))
    ensures remaining[position] == chain[k]
  {
    hide ChainFrom, DistinctIds, Follows, HeadAt;
    assert remaining[position] in multiset(remaining);
    assert remaining[position] in multiset(chain[k..]);
    var j :| 0 <= j < |chain[k..]| && chain[k..][j] == remaining[position];
    assert chain[k + j] == remaining[position];
    OnlyNextContinues(chain, upstream, k, k + j);
  }

  lemma RestAfterNext(chain: seq<Record>, k: nat, remaining: seq<Record>, position: nat)
    requires k < |chain| && multiset(remaining) == multiset(chain[k..]) && position < |remaining|
    requires remaining[position] == chain[k]
    ensures chain[..k] + [chain[k]] == chain[..k + 1]
    ensures multiset(remaining[..position] + remaining[position + 1..]) == multiset(chain[k + 1..])
  {
    RemoveAt(remaining, position);
    assert chain[k..] == [chain[k]] + chain[k + 1..];
    assert multiset(chain[k..]) == multiset{chain[k]} + multiset(chain[k + 1..]);
  }

  function LoopStart(): Record { Record(1, Foreign(1, 1), Foreign(0, 0), {Foreign(0, 0)}, 1, 1, true) }

  function Looping(): Record { Record(2, Foreign(0, 0), Foreign(0, 0), {Foreign(0, 0)}, 1, 0, true) }

  lemma RebuiltOne(rec: Record, head: RevisionId)
    ensures Rebuilt([rec], head) == if Follows(rec, head) then Some([rec]) else None
  {
    assert [rec][..0] + [rec][1..] == [] && [rec][1..] == [];
    if Follows(rec, head) {
      assert FirstFollower([rec], head) == 0;
      RebuiltDone([rec], rec.revision);
    } else {
      assert FirstFollower([rec], head) == 1 + FirstFollower([], head);
    }
  }

  lemma RebuiltTwo(a: Record, b: Record, head: RevisionId)
    requires Follows(a, head)
    ensures Rebuilt([a, b], head) == if Follows(b, a.revision) then Some([a, b]) else None
  {
    RebuiltOne(b, a.revision);
    hide Follows;
    assert [a, b][..0] + [a, b][1..] == [b] && FirstFollower([a, b], head) == 0;
    assert [a] + [b] == [a, b];
  }

  /** Distinct ids are needed: when a row carries the upstream's own id, the first row that
      follows the head need not be the one that leaves a chain. These two rows are a chain, and
      found to be one only when they are listed in its order. */
  lemma RepeatedIdFails()
    ensures IsHistory([Looping(), LoopStart()], [LoopStart(), Looping()], Foreign(0, 0))
    ensures Rebuilt([LoopStart(), Looping()], Foreign(0, 0)) == None
    ensures Rebuilt([Looping(), LoopStart()], Foreign(0, 0)) == Some([Looping(), LoopStart()])
  {
    var x, y := LoopStart(), Looping();
    RebuiltTwo(x, y, Foreign(0, 0));
    RebuiltTwo(y, x, Foreign(0, 0));
    assert [y, x][1..] == [x] && [x][1..] == [];
    assert ChainFrom([x], Foreign(0, 0));
    assert multiset([y, x]) == multiset([x, y]);
  }
}
