/** Small shared definitions: optional values, what the environment may do to a
    durable step, and the key order in which a `BTreeMap` is walked. */
module Basics {

  datatype Option<+T> = None | Some(value: T)

  /** What happens to one durable step (a database transaction, a link rename,
      a registry call): it lands, it reports an error and leaves no trace, or the
      process is killed before it. */
  datatype Fault = Works | Fails | Dies

  ghost predicate Calm(faults: seq<Fault>) {
    forall i :: 0 <= i < |faults| ==> faults[i].Works?
  }

  /** A journal kept in `operation_journal` walks these states, in this order. */
  datatype JournalState = Planned | Staged | Verified | Switched | Complete

  function Rank(s: JournalState): nat {
    match s
    case Planned => 0
    case Staged => 1
    case Verified => 2
    case Switched => 3
    case Complete => 4
  }

  lemma LeastExists(s: set<nat>)
    requires s != {}
    ensures exists m :: m in s && forall x :: x in s ==> m <= x
  {
    var y :| y in s;
    if s != {y} {
      var rest := s - {y};
      LeastExists(rest);
      var m :| m in rest && forall x :: x in rest ==> m <= x;
      var least := if y < m then y else m;
      assert forall x :: x in s ==> x == y || x in rest;
      assert least in s && forall x :: x in s ==> least <= x;
    }
  }

  function Least(s: set<nat>): (m: nat)
    requires s != {}
    ensures m in s && forall x :: x in s ==> m <= x
  {
    LeastExists(s);
    var m :| m in s && forall x :: x in s ==> m <= x;
    m
  }

  /** The keys of an ordered map, smallest first. */
  function Ascending(s: set<nat>): (q: seq<nat>)
    ensures forall x :: x in q <==> x in s
    ensures forall i, j :: 0 <= i < j < |q| ==> q[i] < q[j]
  {
    if s == {} then [] else
      var m := Least(s);
      [m] + Ascending(s - {m})
  }

  /** Unicode white space, as `trim` and `split_whitespace` see it. */
  predicate IsWhite(c: char) {
    || '\t' <= c <= '\r' || c == ' ' || c == '\U{85}' || c == '\U{A0}' || c == '\U{1680}'
    || '\U{2000}' <= c <= '\U{200A}' || c == '\U{2028}' || c == '\U{2029}' || c == '\U{202F}'
    || c == '\U{205F}' || c == '\U{3000}'
  }
}
