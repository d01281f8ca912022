/** Reachability along successor lists, for the searches that walk possibly cyclic graphs. */
module Reachability {

  ghost predicate IsPath<T(!new)>(next: T -> seq<T>, path: seq<T>) {
    path != [] && forall i :: 0 <= i < |path| - 1 ==> path[i + 1] in next(path[i])
  }

  ghost predicate Reachable<T(!new)>(next: T -> seq<T>, root: T, x: T) {
    exists path :: IsPath(next, path) && path[0] == root && path[|path| - 1] == x
  }

  lemma ReachRoot<T(!new)>(next: T -> seq<T>, root: T)
    ensures Reachable(next, root, root)
  {
    assert IsPath(next, [root]);
  }

  lemma ReachStep<T(!new)>(next: T -> seq<T>, root: T, x: T, y: T)
    requires Reachable(next, root, x) && y in next(x)
    ensures Reachable(next, root, y)
  {
    var path :| IsPath(next, path) && path[0] == root && path[|path| - 1] == x;
    assert IsPath(next, path + [y]);
  }

  lemma {:induction false} ClosedAlongPath<T(!new)>(next: T -> seq<T>, s: set<T>, path: seq<T>)
    requires IsPath(next, path) && path[0] in s
    requires forall x, y :: x in s && y in next(x) ==> y in s
    ensures path[|path| - 1] in s
  {
    if |path| > 1 {
      assert path[1] in next(path[0]);
      var rest := path[1..];
      forall i | 0 <= i < |rest| - 1 ensures rest[i + 1] in next(rest[i]) {
        assert rest[i] == path[i + 1] && path[i + 2] in next(path[i + 1]);
      }
      ClosedAlongPath(next, s, rest);
    }
  }

  /** A closed set that holds the root holds everything reachable. */
  lemma ClosedHoldsReachable<T(!new)>(next: T -> seq<T>, root: T, s: set<T>)
    requires root in s
    requires forall x, y :: x in s && y in next(x) ==> y in s
    ensures forall x :: Reachable(next, root, x) ==> x in s
  {
    forall x | Reachable(next, root, x) ensures x in s {
      var path :| IsPath(next, path) && path[0] == root && path[|path| - 1] == x;
      ClosedAlongPath(next, s, path);
    }
  }
}
