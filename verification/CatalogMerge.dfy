/** Search results: what the registry found, with this device's own skills merged in. */
module CatalogMerge {
  import opened Basics

  type Id = string

  datatype Origin = Registry | Local

  datatype Item = Item(
    id: Id, locator: string, owner: string, name: string, description: string, topics: seq<string>, origin: Origin,
    generation: nat, starCount: nat, viewerStarred: bool, deprecated: bool, upstream: Option<string>, relevance: int)

  /** A skill of this device. */
  datatype Record = Record(
    id: Id, locator: string, owner: string, name: string, description: string, license: Option<string>,
    compatibility: Option<string>, generation: int, upstream: Option<string>)

  datatype SearchSort = Relevance | Stars

  // ----- relevance -------------------------------------------------------------------------

  function Lower(s: string): string {
    seq(|s|, i requires 0 <= i < |s| => if 'A' <= s[i] <= 'Z' then (s[i] as int + 32) as char else s[i])
  }

  function TrimStart(s: string): string {
    if s != [] && IsWhite(s[0]) then TrimStart(s[1..]) else s
  }

  function Trim(s: string): string {
    TrimEnd(TrimStart(s))
  }

  function TrimEnd(s: string): string {
    if s != [] && IsWhite(s[|s| - 1]) then TrimEnd(s[..|s| - 1]) else s
  }

  predicate Contains(text: string, part: string) {
    exists i | 0 <= i <= |text| :: StandsAt(text, part, i)
  }

  predicate StandsAt(text: string, part: string, i: nat) {
    i + |part| <= |text| && text[i..i + |part|] == part
  }

  function OrEmpty(s: Option<string>): string {
    if s.Some? then s.value else ""
  }

  function SearchText(r: Record): string {
    var text := Lower(r.owner + " " + r.name + " " + r.description + " "
                      + OrEmpty(r.license) + " " + OrEmpty(r.compatibility));
    if r.upstream.Some? then text + " " + Lower(r.upstream.value) else text
  }

  /** `local_relevance`. */
  function LocalRelevance(r: Record, query: string): (rank: int)
    ensures rank in {0, 2000, 7000, 10000, 12000}
    ensures Trim(query) == "" ==> rank == 0
  {
    var q := Lower(Trim(query));
    if q == "" then 0
    else if Lower(r.locator) == q then 12000
    else if Lower(r.name) == q then 10000
    else if q <= Lower(r.name) then 7000
    else if Contains(SearchText(r), q) then 2000
    else 0
  }

  /** A record takes part unless a query is given and it does not match. */
  predicate Relevant(r: Record, query: string) {
    Trim(query) == "" || LocalRelevance(r, query) != 0
  }

  // ----- order ----------------------------------------------------------------------------------

  /** -1, 0 or 1, character by character; the order of UTF-8 bytes is that of the characters. */
  function CompareStrings(a: string, b: string): (c: int)
    ensures c in {-1, 0, 1} && (c == 0 <==> a == b)
  {
    if a == [] then (if b == [] then 0 else -1)
    else if b == [] then 1
    else if a[0] != b[0] then (if a[0] < b[0] then -1 else 1)
    else
      var c := CompareStrings(a[1..], b[1..]);
      assert c == 0 ==> a == [a[0]] + a[1..] && b == [b[0]] + b[1..];
      c
  }

  function CompareInts(a: int, b: int): int {
    if a < b then -1 else if a > b then 1 else 0
  }

  function CompareBools(a: bool, b: bool): int {
    if a == b then 0 else if b then -1 else 1
  }

  function Then(first: int, second: int): int {
    if first != 0 then first else second
  }

  /** `catalog_order`. */
  function Compare(a: Item, b: Item, sort: SearchSort): int {
    var ranks := if sort.Relevance? then
                   Then(CompareInts(b.relevance, a.relevance), CompareInts(b.starCount, a.starCount))
                 else Then(CompareInts(b.starCount, a.starCount), CompareInts(b.relevance, a.relevance));
    Then(CompareBools(a.deprecated, b.deprecated),
         Then(ranks, Then(CompareStrings(a.locator, b.locator), CompareStrings(a.id, b.id))))
  }

  predicate Before(a: Item, b: Item, sort: SearchSort) {
    Compare(a, b, sort) < 0
  }

  lemma {:induction false} StringsAreOrdered(a: string, b: string, c: string)
    ensures CompareStrings(a, b) == -CompareStrings(b, a)
    ensures CompareStrings(a, b) <= 0 && CompareStrings(b, c) <= 0 ==> CompareStrings(a, c) <= 0
    ensures CompareStrings(a, b) < 0 && CompareStrings(b, c) < 0 ==> CompareStrings(a, c) < 0
    decreases |a|
  {
    if a != [] && b != [] {
      StringsAreOrdered(a[1..], b[1..], if c == [] then [] else c[1..]);
    }
  }

  /** The order is total on items with different ids: exactly one of two comes first. */
  lemma OrderIsTotal(a: Item, b: Item, sort: SearchSort)
    requires a.id != b.id
    ensures Before(a, b, sort) != Before(b, a, sort)
  {
    StringsAreOrdered(a.locator, b.locator, "");
    StringsAreOrdered(a.id, b.id, "");
  }

  lemma OrderIsTransitive(a: Item, b: Item, c: Item, sort: SearchSort)
    requires Before(a, b, sort) && Before(b, c, sort)
    ensures Before(a, c, sort)
  {
    StringsAreOrdered(a.locator, b.locator, c.locator);
    StringsAreOrdered(a.id, b.id, c.id);
  }

  ghost predicate StrictlySorted(items: seq<Item>, sort: SearchSort) {
    forall i, j :: 0 <= i < j < |items| ==> Before(items[i], items[j], sort)
  }

  ghost predicate DistinctItems(items: seq<Item>) {
    forall i, j :: 0 <= i < j < |items| ==> items[i].id != items[j].id
  }

  ghost predicate DistinctRecords(records: seq<Record>) {
    forall i, j :: 0 <= i < j < |records| ==> records[i].id != records[j].id
  }

  /** Two sorted lists of the same items are the same list. */
  lemma {:induction false} SortedIsUnique(a: seq<Item>, b: seq<Item>, sort: SearchSort)
    requires StrictlySorted(a, sort) && StrictlySorted(b, sort)
    requires forall x :: x in a <==> x in b
    ensures a == b
    decreases |a|
  {
    if a == [] {
      if b != [] { HasFirst(b); }
    } else {
      assert a[0] in b;
      assert b[0] in a;
      FirstIsLeast(a, b[0], sort);
      FirstIsLeast(b, a[0], sort);
      Irreflexive(a[0], b[0], sort);
      forall x ensures x in a[1..] <==> x in b[1..] {
        TailMembers(a, x, sort);
        TailMembers(b, x, sort);
      }
      SortedIsUnique(a[1..], b[1..], sort);
      assert a == [a[0]] + a[1..] && b == [b[0]] + b[1..];
    }
  }

  lemma HasFirst(b: seq<Item>)
    requires b != []
    ensures exists x :: x in b
  {
    assert b[0] in b;
  }

  lemma FirstIsLeast(a: seq<Item>, x: Item, sort: SearchSort)
    requires StrictlySorted(a, sort) && x in a
    ensures a[0] == x || Before(a[0], x, sort)
  {
  }

  lemma Irreflexive(a: Item, b: Item, sort: SearchSort)
    ensures !(Before(a, b, sort) && Before(b, a, sort))
  {
    if Before(a, b, sort) && Before(b, a, sort) {
      OrderIsTransitive(a, b, a, sort);
      StringsAreOrdered(a.locator, a.locator, "");
    }
  }

  lemma TailMembers(a: seq<Item>, x: Item, sort: SearchSort)
    requires StrictlySorted(a, sort) && a != []
    ensures x in a[1..] <==> x in a && x != a[0]
  {
    assert a == [a[0]] + a[1..];
    Irreflexive(a[0], a[0], sort);
    hide Before;
    forall y | y in a[1..] ensures y != a[0] {
      var k :| 0 <= k < |a[1..]| && a[1..][k] == y;
      assert Before(a[0], a[k + 1], sort);
    }
  }

  // ----- merging -------------------------------------------------------------------------------------

  function Position(items: seq<Item>, id: Id): (at: Option<nat>)
    ensures at.Some? ==> at.value < |items| && items[at.value].id == id
    ensures at.None? ==> forall i :: 0 <= i < |items| ==> items[i].id != id
  {
    if items == [] then None
    else if items[0].id == id then Some(0)
    else match Position(items[1..], id)
      case None =>
        assert items == [items[0]] + items[1..];
        None
      case Some(i) => Some(i + 1)
  }

  /** What a local record shows as: its own text, with the stars, topics and deprecation of its
      remote twin, and the better of both ranks. */
  function Shown(r: Record, twin: Option<Item>, query: string): Item {
    Item(r.id, r.locator, r.owner, r.name, r.description,
         if twin.Some? then twin.value.topics else [],
         Local,
         if r.generation >= 0 then r.generation else 0,
         if twin.Some? then twin.value.starCount else 0,
         twin.Some? && twin.value.viewerStarred,
         twin.Some? && twin.value.deprecated,
         if r.upstream.Some? then r.upstream else if twin.Some? then twin.value.upstream else None,
         if twin.Some? && twin.value.relevance > LocalRelevance(r, query) then twin.value.relevance
         else LocalRelevance(r, query))
  }

  function Twin(items: seq<Item>, id: Id): Option<Item> {
    match Position(items, id)
    case None => None
    case Some(i) => Some(items[i])
  }

  ghost predicate Overridden(local: seq<Record>, id: Id, query: string) {
    exists r :: r in local && r.id == id && Relevant(r, query)
  }

  /** An item of the merged result, when nothing is cut off: a relevant local record over its
      twin, or a remote item no such record stands for. */
  ghost predicate Belongs(x: Item, remote: seq<Item>, local: seq<Record>, query: string) {
    || (exists r :: r in local && Relevant(r, query) && x == Shown(r, Twin(remote, r.id), query))
    || (x in remote && !Overridden(local, x.id, query))
  }

  lemma TwinIsOnlyOne(items: seq<Item>, x: Item)
    requires DistinctItems(items) && x in items
    ensures Twin(items, x.id) == Some(x)
  {
  }

  /** How far the merge has come: `items` after the records of `local`. */
  ghost predicate Merged(items: seq<Item>, remote: seq<Item>, local: seq<Record>, query: string, cap: nat) {
    && DistinctItems(items) && |remote| <= |items|
    && |items| <= (if |remote| > cap then |remote| else cap)
    && (forall i :: 0 <= i < |remote| ==> items[i].id == remote[i].id)
    && (forall x :: x in items ==> Belongs(x, remote, local, query))
    && (forall x :: Belongs(x, remote, local, query) ==> x in items || (|items| >= cap && Twin(remote, x.id).None?))
  }

  lemma MergeStarts(remote: seq<Item>, query: string, cap: nat)
    requires DistinctItems(remote)
    ensures Merged(remote, remote, [], query, cap)
  {
  }

  /** A record that does not match changes nothing. */
  lemma MergeSkips(items: seq<Item>, remote: seq<Item>, local: seq<Record>, r: Record, query: string, cap: nat)
    requires Merged(items, remote, local, query, cap) && !Relevant(r, query)
    ensures Merged(items, remote, local + [r], query, cap)
  {
    forall x ensures Belongs(x, remote, local + [r], query) <==> Belongs(x, remote, local, query) {
      assert forall q :: q in local + [r] && Relevant(q, query) <==> q in local && Relevant(q, query);
    }
  }

  ghost predicate NewRecord(local: seq<Record>, r: Record) {
    forall q :: q in local ==> q.id != r.id
  }

  lemma BelongsStep(x: Item, remote: seq<Item>, local: seq<Record>, r: Record, query: string)
    requires NewRecord(local, r) && Relevant(r, query)
    ensures Belongs(x, remote, local + [r], query) <==>
            x == Shown(r, Twin(remote, r.id), query) || (Belongs(x, remote, local, query) && x.id != r.id)
  {
    assert forall q :: q in local + [r] <==> q in local || q == r;
    if x in remote && x.id == r.id {
      assert r in local + [r];
      assert Overridden(local + [r], x.id, query);
    }
    if Overridden(local, x.id, query) {
      var q :| q in local && q.id == x.id && Relevant(q, query);
      assert q in local + [r];
    }
  }

  lemma ShownKeepsId(r: Record, twin: Option<Item>, query: string)
    ensures Shown(r, twin, query).id == r.id
  {
  }

  lemma TwinInPlace(x: Item, remote: seq<Item>, local: seq<Record>, r: Record, query: string)
    requires DistinctItems(remote) && Belongs(x, remote, local, query) && NewRecord(local, r) && x.id == r.id
    ensures Twin(remote, r.id) == Some(x)
  {
    assert x in remote;
    TwinIsOnlyOne(remote, x);
  }

  /** A record with a remote twin takes its place. */
  lemma MergeReplaces(items: seq<Item>, remote: seq<Item>, local: seq<Record>, r: Record, query: string, cap: nat,
                      k: nat)
    requires DistinctItems(remote) && Merged(items, remote, local, query, cap)
    requires NewRecord(local, r) && Relevant(r, query) && k < |items| && items[k].id == r.id
    ensures Merged(items[k := Shown(r, Some(items[k]), query)], remote, local + [r], query, cap)
  {
    hide Belongs, Shown, Twin, NewRecord, Relevant;
    var y := Shown(r, Some(items[k]), query);
    var next := items[k := y];
    ShownKeepsId(r, Some(items[k]), query);
    assert items[k] in items;
    TwinInPlace(items[k], remote, local, r, query);
    forall x | x in next ensures Belongs(x, remote, local + [r], query) {
      BelongsStep(x, remote, local, r, query);
      var j :| 0 <= j < |next| && next[j] == x;
      if j != k { assert items[j] in items && items[j].id != items[k].id; }
    }
    forall x | Belongs(x, remote, local + [r], query) ensures x in next || (|next| >= cap && Twin(remote, x.id).None?) {
      BelongsStep(x, remote, local, r, query);
      if x == y {
        assert next[k] == x;
      } else if x in items {
        var j :| 0 <= j < |items| && items[j] == x;
        assert next[j] == x;
      }
    }
  }

  lemma MergedKeepsTwins(items: seq<Item>, remote: seq<Item>, local: seq<Record>, id: Id, query: string, cap: nat)
    requires Merged(items, remote, local, query, cap) && Position(items, id).None?
    ensures Twin(remote, id).None?
  {
  }

  lemma MergedItemHasTwin(items: seq<Item>, remote: seq<Item>, local: seq<Record>, r: Record, query: string, cap: nat,
                          k: nat)
    requires DistinctItems(remote) && Merged(items, remote, local, query, cap) && NewRecord(local, r)
    requires k < |items| && items[k].id == r.id
    ensures Twin(remote, r.id).Some?
  {
    assert items[k] in items;
    TwinInPlace(items[k], remote, local, r, query);
  }

  /** One without a twin is added while there is room. */
  lemma MergeAdds(items: seq<Item>, remote: seq<Item>, local: seq<Record>, r: Record, query: string, cap: nat)
    requires Merged(items, remote, local, query, cap) && NewRecord(local, r) && Relevant(r, query) && |items| < cap
    requires Twin(remote, r.id).None? && forall i :: 0 <= i < |items| ==> items[i].id != r.id
    ensures Merged(items + [Shown(r, None, query)], remote, local + [r], query, cap)
  {
    hide Belongs, Shown, NewRecord, Relevant, Twin;
    var y := Shown(r, None, query);
    ShownKeepsId(r, None, query);
    var next := items + [y];
    forall x | x in next ensures Belongs(x, remote, local + [r], query) {
      BelongsStep(x, remote, local, r, query);
    }
    forall x | Belongs(x, remote, local + [r], query) ensures x in next {
      BelongsStep(x, remote, local, r, query);
      if x == y { assert next[|items|] == x; }
    }
  }

  /** And dropped when there is none. */
  lemma MergeDrops(items: seq<Item>, remote: seq<Item>, local: seq<Record>, r: Record, query: string, cap: nat)
    requires Merged(items, remote, local, query, cap) && NewRecord(local, r) && Relevant(r, query) && cap <= |items|
    requires Twin(remote, r.id).None? && forall i :: 0 <= i < |items| ==> items[i].id != r.id
    ensures Merged(items, remote, local + [r], query, cap)
  {
    hide Belongs, Shown, NewRecord, Relevant, Twin;
    ShownKeepsId(r, None, query);
    forall x | x in items ensures Belongs(x, remote, local + [r], query) {
      BelongsStep(x, remote, local, r, query);
    }
    forall x | Belongs(x, remote, local + [r], query) ensures x in items || Twin(remote, x.id).None? {
      BelongsStep(x, remote, local, r, query);
    }
  }

  /** Stable insertion of one item; ids are distinct, so stability does not show. */
  function Insert(items: seq<Item>, x: Item, sort: SearchSort): seq<Item> {
    if items == [] || Compare(items[|items| - 1], x, sort) <= 0 then items + [x]
    else Insert(items[..|items| - 1], x, sort) + [items[|items| - 1]]
  }

  function Sort(items: seq<Item>, sort: SearchSort): seq<Item> {
    if items == [] then [] else Insert(Sort(items[..|items| - 1], sort), items[|items| - 1], sort)
  }

  lemma {:induction false} InsertSorts(items: seq<Item>, x: Item, sort: SearchSort)
    requires StrictlySorted(items, sort) && forall y :: y in items ==> y.id != x.id
    ensures StrictlySorted(Insert(items, x, sort), sort)
    ensures forall y :: y in Insert(items, x, sort) <==> y in items || y == x
    ensures |Insert(items, x, sort)| == |items| + 1
    decreases |items|
  {
    if items != [] {
      var n := |items| - 1;
      OrderIsTotal(items[n], x, sort);
      assert items == items[..n] + [items[n]];
      if Compare(items[n], x, sort) <= 0 {
        forall i | 0 <= i < n ensures Before(items[i], x, sort) { OrderIsTransitive(items[i], items[n], x, sort); }
      } else {
        InsertSorts(items[..n], x, sort);
        var front := Insert(items[..n], x, sort);
        forall y | y in front ensures Before(y, items[n], sort) {
        }
      }
    }
  }

  lemma {:induction false} SortSorts(items: seq<Item>, sort: SearchSort)
    requires DistinctItems(items)
    ensures StrictlySorted(Sort(items, sort), sort)
    ensures forall x :: x in Sort(items, sort) <==> x in items
    ensures |Sort(items, sort)| == |items|
    decreases |items|
  {
    if items != [] {
      var n := |items| - 1;
      SortSorts(items[..n], sort);
      assert items == items[..n] + [items[n]];
      hide Before, Insert;
      InsertSorts(Sort(items[..n], sort), items[n], sort);
    }
  }

  /** A record that would be a new item: it matches, and nothing remote has its id. */
  ghost predicate IsNew(r: Record, remote: seq<Item>, query: string) {
    Relevant(r, query) && Twin(remote, r.id).None?
  }

  /** Room goes to the records that come first: none is shown after one that was dropped. */
  ghost predicate FirstCome(items: seq<Item>, remote: seq<Item>, local: seq<Record>, query: string) {
    forall i, j | 0 <= i < j < |local| && IsNew(local[i], remote, query) && IsNew(local[j], remote, query) ::
      Shown(local[j], None, query) in items ==> Shown(local[i], None, query) in items
  }

  lemma FirstComeSkips(items: seq<Item>, remote: seq<Item>, local: seq<Record>, r: Record, query: string)
    requires FirstCome(items, remote, local, query) && !Relevant(r, query)
    ensures FirstCome(items, remote, local + [r], query)
  {
    hide Relevant, Shown, Twin;
  }

  lemma FirstComeReplaces(items: seq<Item>, remote: seq<Item>, local: seq<Record>, r: Record, query: string, k: nat)
    requires FirstCome(items, remote, local, query) && Twin(remote, r.id).Some?
    requires k < |items| && items[k].id == r.id
    ensures FirstCome(items[k := Shown(r, Some(items[k]), query)], remote, local + [r], query)
  {
    hide Relevant, Shown, Twin;
    var next := items[k := Shown(r, Some(items[k]), query)];
    forall q | q in local && IsNew(q, remote, query)
      ensures Shown(q, None, query) in items <==> Shown(q, None, query) in next
    {
      ShownKeepsId(q, None, query);
      ShownKeepsId(r, Some(items[k]), query);
      assert forall j :: 0 <= j < |items| && j != k ==> next[j] == items[j];
    }
  }

  lemma FirstComeAdds(items: seq<Item>, remote: seq<Item>, local: seq<Record>, r: Record, query: string, cap: nat)
    requires FirstCome(items, remote, local, query) && Merged(items, remote, local, query, cap) && |items| < cap
    ensures FirstCome(items + [Shown(r, None, query)], remote, local + [r], query)
  {
    hide Relevant, Shown, Twin;
    forall q | q in local && IsNew(q, remote, query) ensures Shown(q, None, query) in items {
      assert Belongs(Shown(q, None, query), remote, local, query);
    }
  }

  lemma FirstComeDrops(items: seq<Item>, remote: seq<Item>, local: seq<Record>, r: Record, query: string)
    requires FirstCome(items, remote, local, query) && forall i :: 0 <= i < |items| ==> items[i].id != r.id
    ensures FirstCome(items, remote, local + [r], query)
  {
    hide Relevant, Shown, Twin;
    ShownKeepsId(r, None, query);
  }

  /** The result of a merge: in order, with everything that belongs except new local records
      for which there was no room, and those are the last ones. */
  ghost predicate IsMergeOf(merged: seq<Item>, remote: seq<Item>, local: seq<Record>, query: string, sort: SearchSort,
                            cap: nat) {
    && StrictlySorted(merged, sort)
    && |remote| <= |merged| <= (if |remote| > cap then |remote| else cap)
    && (forall x :: x in merged ==> Belongs(x, remote, local, query))
    && (forall x :: Belongs(x, remote, local, query) ==> x in merged || (|merged| >= cap && Twin(remote, x.id).None?))
    && FirstCome(merged, remote, local, query)
  }

  lemma SortingKeepsMerge(items: seq<Item>, merged: seq<Item>, remote: seq<Item>, local: seq<Record>,
                          query: string, sort: SearchSort, cap: nat)
    requires Merged(items, remote, local, query, cap) && FirstCome(items, remote, local, query)
    requires StrictlySorted(merged, sort) && |merged| == |items| && forall x :: x in merged <==> x in items
    ensures IsMergeOf(merged, remote, local, query, sort, cap)
  {
    hide Belongs, Before, IsNew, Shown, Twin;
  }

  /** `merge_local_results`. */
  method MergeLocalResults(remote: seq<Item>, local: seq<Record>, query: string, sort: SearchSort, limit: nat)
    returns (merged: seq<Item>)
    requires DistinctItems(remote) && DistinctRecords(local)
    ensures IsMergeOf(merged, remote, local, query, sort, 2 * limit)
  {
    var maxItems := 2 * limit;
    var items := remote;
    MergeStarts(remote, query, maxItems);
    for i := 0 to |local|
      invariant Merged(items, remote, local[..i], query, maxItems)
      invariant FirstCome(items, remote, local[..i], query)
    {
      hide Merged, DistinctItems, Relevant, FirstCome;
      var r := local[i];
      assert local[..i + 1] == local[..i] + [r];
      RecordIsNew(local, i);
      if Trim(query) != "" && LocalRelevance(r, query) == 0 {
        assert !Relevant(r, query) by { NotRelevant(r, query); }
        MergeSkips(items, remote, local[..i], r, query, maxItems);
        FirstComeSkips(items, remote, local[..i], r, query);
      } else {
        assert Relevant(r, query) by { IsRelevant(r, query); }
        var existing := Position(items, r.id);
        if existing.Some? {
          MergeReplaces(items, remote, local[..i], r, query, maxItems, existing.value);
          assert Twin(remote, r.id).Some? by {
            MergedItemHasTwin(items, remote, local[..i], r, query, maxItems, existing.value);
          }
          FirstComeReplaces(items, remote, local[..i], r, query, existing.value);
          items := items[existing.value := Shown(r, Some(items[existing.value]), query)];
        } else {
          assert Twin(remote, r.id).None? by { MergedKeepsTwins(items, remote, local[..i], r.id, query, maxItems); }
          if |items| < maxItems {
            MergeAdds(items, remote, local[..i], r, query, maxItems);
            FirstComeAdds(items, remote, local[..i], r, query, maxItems);
            items := items + [Shown(r, None, query)];
          } else {
            MergeDrops(items, remote, local[..i], r, query, maxItems);
            FirstComeDrops(items, remote, local[..i], r, query);
          }
        }
      }
    }
    assert local[..|local|] == local;
    SortSorts(items, sort);
    merged := Sort(items, sort);
    SortingKeepsMerge(items, merged, remote, local, query, sort, maxItems);
  }

  lemma NotRelevant(r: Record, query: string)
    requires Trim(query) != "" && LocalRelevance(r, query) == 0
    ensures !Relevant(r, query)
  {
  }

  lemma IsRelevant(r: Record, query: string)
    requires !(Trim(query) != "" && LocalRelevance(r, query) == 0)
    ensures Relevant(r, query)
  {
  }

  lemma RecordIsNew(local: seq<Record>, i: nat)
    requires DistinctRecords(local) && i < |local|
    ensures NewRecord(local[..i], local[i])
  {
  }

  // ----- what the merge promises ---------------------------------------------------------------------

  /** No remote result is lost, and its stars, topics and deprecation are kept even where a
      local record now speaks for it. */
  lemma RemoteResultsSurvive(merged: seq<Item>, remote: seq<Item>, local: seq<Record>, query: string, sort: SearchSort,
                             cap: nat, k: nat)
    requires IsMergeOf(merged, remote, local, query, sort, cap) && DistinctItems(remote) && k < |remote|
    ensures exists x :: x in merged && x.id == remote[k].id && x.starCount == remote[k].starCount
                        && x.topics == remote[k].topics && x.deprecated == remote[k].deprecated
                        && x.viewerStarred == remote[k].viewerStarred && x.relevance >= remote[k].relevance
  {
    var item := remote[k];
    TwinIsOnlyOne(remote, item);
    if Overridden(local, item.id, query) {
      var r :| r in local && r.id == item.id && Relevant(r, query);
      var x := Shown(r, Twin(remote, r.id), query);
      assert Belongs(x, remote, local, query);
    } else {
      assert Belongs(item, remote, local, query);
    }
  }

  /** Ids stay distinct. */
  lemma IdsStayDistinct(merged: seq<Item>, remote: seq<Item>, local: seq<Record>, query: string, sort: SearchSort,
                        cap: nat)
    requires IsMergeOf(merged, remote, local, query, sort, cap) && DistinctItems(remote) && DistinctRecords(local)
    ensures DistinctItems(merged)
  {
    forall i, j | 0 <= i < j < |merged| ensures merged[i].id != merged[j].id {
      if merged[i].id == merged[j].id {
        assert merged[i] in merged && merged[j] in merged;
        OneItemAnId(merged[i], merged[j], remote, local, query);
        assert Before(merged[i], merged[j], sort);
        Irreflexive(merged[i], merged[j], sort);
      }
    }
  }

  lemma OneItemAnId(x: Item, y: Item, remote: seq<Item>, local: seq<Record>, query: string)
    requires DistinctItems(remote) && DistinctRecords(local) && x.id == y.id
    requires Belongs(x, remote, local, query) && Belongs(y, remote, local, query)
    ensures x == y
  {
    if r :| r in local && Relevant(r, query) && x == Shown(r, Twin(remote, r.id), query) {
      assert Overridden(local, y.id, query);
    } else if r :| r in local && Relevant(r, query) && y == Shown(r, Twin(remote, r.id), query) {
      assert Overridden(local, x.id, query);
    }
  }

  /** A relevant local record shows in its remote twin's place, always: it is in the result and
      the twin's own entry is not. */
  lemma LocalRecordsOverride(merged: seq<Item>, remote: seq<Item>, local: seq<Record>, query: string, sort: SearchSort,
                             cap: nat, r: Record)
    requires IsMergeOf(merged, remote, local, query, sort, cap) && DistinctItems(remote) && DistinctRecords(local)
    requires r in local && Relevant(r, query) && Twin(remote, r.id).Some?
    ensures forall x: Item :: x.id == r.id ==> (x in merged <==> x == Shown(r, Twin(remote, r.id), query))
  {
    var y := Shown(r, Twin(remote, r.id), query);
    assert Belongs(y, remote, local, query);
    forall x: Item | x.id == r.id && x in merged ensures x == y {
      OneItemAnId(x, y, remote, local, query);
    }
  }

  /** A local record that does not match the query and has no twin is not shown. */
  lemma OthersStayOut(merged: seq<Item>, remote: seq<Item>, local: seq<Record>, query: string, sort: SearchSort,
                      cap: nat, r: Record)
    requires IsMergeOf(merged, remote, local, query, sort, cap) && DistinctRecords(local)
    requires r in local && !Relevant(r, query) && Twin(remote, r.id).None?
    ensures forall x :: x in merged ==> x.id != r.id
  {
    forall x | x in merged ensures x.id != r.id {
      assert Belongs(x, remote, local, query);
    }
  }

  lemma SameBelongs(x: Item, remoteA: seq<Item>, remoteB: seq<Item>, localA: seq<Record>, localB: seq<Record>,
                    query: string)
    requires DistinctItems(remoteA) && DistinctItems(remoteB)
    requires forall y :: y in remoteA <==> y in remoteB
    requires forall r :: r in localA <==> r in localB
    requires Belongs(x, remoteA, localA, query)
    ensures Belongs(x, remoteB, localB, query)
  {
    if r :| r in localA && Relevant(r, query) && x == Shown(r, Twin(remoteA, r.id), query) {
      SameTwin(remoteA, remoteB, r.id);
    }
  }

  lemma SameTwin(a: seq<Item>, b: seq<Item>, id: Id)
    requires DistinctItems(a) && DistinctItems(b) && forall y :: y in a <==> y in b
    ensures Twin(a, id) == Twin(b, id)
  {
    TwinFound(a, b, id);
    TwinFound(b, a, id);
  }

  lemma TwinFound(a: seq<Item>, b: seq<Item>, id: Id)
    requires DistinctItems(b) && forall y :: y in a ==> y in b
    ensures Twin(a, id).Some? ==> Twin(b, id) == Twin(a, id)
  {
    var p := Position(a, id);
    if p.Some? {
      assert a[p.value] in a;
      TwinIsOnlyOne(b, a[p.value]);
    }
  }

  /** The cap has cut nothing off. With room left in the result, it never has. */
  ghost predicate NothingCut(merged: seq<Item>, remote: seq<Item>, local: seq<Record>, query: string) {
    forall x :: Belongs(x, remote, local, query) ==> x in merged
  }

  /** As long as nothing was cut off, neither the order of the remote results nor that of the
      local records matters. */
  lemma OrderOfInputsDoesNotMatter(a: seq<Item>, b: seq<Item>, remoteA: seq<Item>, remoteB: seq<Item>,
                                   localA: seq<Record>, localB: seq<Record>, query: string, sort: SearchSort, cap: nat)
    requires DistinctItems(remoteA) && DistinctItems(remoteB)
    requires forall y :: y in remoteA <==> y in remoteB
    requires forall r :: r in localA <==> r in localB
    requires IsMergeOf(a, remoteA, localA, query, sort, cap) && IsMergeOf(b, remoteB, localB, query, sort, cap)
    requires |a| < cap || NothingCut(a, remoteA, localA, query)
    requires |b| < cap || NothingCut(b, remoteB, localB, query)
    ensures a == b
  {
    hide Belongs, Before, FirstCome, Twin;
    forall x ensures x in a <==> x in b {
      if x in a {
        SameBelongs(x, remoteA, remoteB, localA, localB, query);
      }
      if x in b {
        SameBelongs(x, remoteB, remoteA, localB, localA, query);
      }
    }
    SortedIsUnique(a, b, sort);
  }
}
