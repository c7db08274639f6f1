/** The shape of a fan-out over a hash map: a list of recipients, in any
    order, that names every target exactly once and nobody else. Recipients
    are nicknames. */
module Multicast {

  /** `rs` has no repeats and its elements are exactly `targets`. */
  ghost predicate OncePerTarget(rs: seq<string>, targets: set<string>)
  {
    && (forall i, j :: 0 <= i < j < |rs| ==> rs[i] != rs[j])
    && (forall x :: x in rs <==> x in targets)
  }

  /** How many times `x` occurs in `rs`. */
  function Occurrences(rs: seq<string>, x: string): nat
  {
    if rs == [] then 0 else (if rs[0] == x then 1 else 0) + Occurrences(rs[1..], x)
  }

  /** Such a list delivers exactly one copy to each target, none to anyone
      else, and is as long as the target set is large. */
  lemma {:induction false} OncePerTargetCount(rs: seq<string>, targets: set<string>)
    requires OncePerTarget(rs, targets)
    ensures forall x :: Occurrences(rs, x) == if x in targets then 1 else 0
    ensures |rs| == |targets|
  {
    if rs == [] {
      assert forall x :: x !in targets by {
        forall x ensures x !in targets { assert x !in rs; }
      }
      assert targets == {};
    } else {
      var h := rs[0];
      var rest := rs[1..];
      assert h !in rest by {
        forall i | 0 <= i < |rest| ensures rest[i] != h { assert rs[i + 1] == rest[i]; }
      }
      assert forall x :: x in rest <==> x in targets - {h} by {
        forall x ensures x in rest <==> x in targets - {h} {
          assert x in rs <==> x == h || x in rest;
        }
      }
      assert forall i, j :: 0 <= i < j < |rest| ==> rest[i] != rest[j] by {
        forall i, j | 0 <= i < j < |rest| ensures rest[i] != rest[j] {
          assert rest[i] == rs[i + 1] && rest[j] == rs[j + 1];
        }
      }
      OncePerTargetCount(rest, targets - {h});
      assert h in targets;
      assert |targets - {h}| == |targets| - 1;
    }
  }

  /** Adding a fresh recipient to a list that covers `done` covers `done`
      plus that recipient. */
  lemma Extend(rs: seq<string>, done: set<string>, x: string)
    requires OncePerTarget(rs, done) && x !in done
    ensures OncePerTarget(rs + [x], done + {x})
  {
    var rs' := rs + [x];
    forall i, j | 0 <= i < j < |rs'| ensures rs'[i] != rs'[j] {
      if j == |rs| { assert rs'[i] == rs[i] && rs[i] in done; }
      else { assert rs'[i] == rs[i] && rs'[j] == rs[j]; }
    }
    forall y ensures y in rs' <==> y in done + {x} {
      assert y in rs' <==> y in rs || y == x;
    }
  }
}
