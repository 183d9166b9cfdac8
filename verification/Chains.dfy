/** Connected components of a finite set of undirected edges. */
module Chains {

  ghost predicate Adjacent<K(!new)>(edges: set<(K, K)>, x: K, y: K)
  {
    (x, y) in edges || (y, x) in edges
  }

  ghost predicate Path<K(!new)>(edges: set<(K, K)>, path: seq<K>, x: K, y: K)
  {
    path != [] && path[0] == x && path[|path| - 1] == y &&
    forall i :: 0 < i < |path| ==> Adjacent(edges, path[i - 1], path[i])
  }

  /** A chain of edges leads from one key to the other. */
  ghost predicate Linked<K(!new)>(edges: set<(K, K)>, x: K, y: K)
  {
    exists path :: Path(edges, path, x, y)
  }

  lemma LinkedReflexive<K(!new)>(edges: set<(K, K)>, x: K)
    ensures Linked(edges, x, x)
  {
    assert Path(edges, [x], x, x);
  }

  lemma LinkedStep<K(!new)>(edges: set<(K, K)>, x: K, y: K, z: K)
    requires Linked(edges, x, y) && Adjacent(edges, y, z)
    ensures Linked(edges, x, z)
  {
    var path :| Path(edges, path, x, y);
    assert Path(edges, path + [z], x, z);
  }

  lemma {:induction false} LinkedAlong<K(!new)>(edges: set<(K, K)>, x: K, y: K, z: K, path: seq<K>)
    requires Linked(edges, x, y) && Path(edges, path, y, z)
    ensures Linked(edges, x, z)
    decreases |path|
  {
    if |path| > 1 {
      var n := |path| - 1;
      assert Path(edges, path[..n], y, path[n - 1]);
      LinkedAlong(edges, x, y, path[n - 1], path[..n]);
      LinkedStep(edges, x, path[n - 1], z);
    }
  }

  lemma LinkedTransitive<K(!new)>(edges: set<(K, K)>, x: K, y: K, z: K)
    requires Linked(edges, x, y) && Linked(edges, y, z)
    ensures Linked(edges, x, z)
  {
    var path :| Path(edges, path, y, z);
    LinkedAlong(edges, x, y, z, path);
  }

  lemma {:induction false} LinkedBack<K(!new)>(edges: set<(K, K)>, x: K, y: K, path: seq<K>)
    requires Path(edges, path, x, y)
    ensures Linked(edges, y, x)
    decreases |path|
  {
    LinkedReflexive(edges, y);
    if |path| > 1 {
      var n := |path| - 1;
      assert Path(edges, path[..n], x, path[n - 1]);
      LinkedBack(edges, x, path[n - 1], path[..n]);
      assert Adjacent(edges, y, path[n - 1]);
      LinkedStep(edges, y, y, path[n - 1]);
      LinkedTransitive(edges, y, path[n - 1], x);
    }
  }

  lemma LinkedSymmetric<K(!new)>(edges: set<(K, K)>, x: K, y: K)
    requires Linked(edges, x, y)
    ensures Linked(edges, y, x)
  {
    var path :| Path(edges, path, x, y);
    LinkedBack(edges, x, y, path);
  }

  /** A set of keys closed under the edges holds on to every chain that enters it. */
  lemma {:induction false} LinkedInside<K(!new)>(edges: set<(K, K)>, keys: set<K>, x: K, y: K, path: seq<K>)
    requires Within(edges, keys) && x in keys && Path(edges, path, x, y)
    ensures y in keys
    decreases |path|
  {
    if |path| > 1 {
      var n := |path| - 1;
      assert Path(edges, path[..n], x, path[n - 1]);
      LinkedInside(edges, keys, x, path[n - 1], path[..n]);
      assert Adjacent(edges, path[n - 1], y);
    }
  }

  ghost predicate Within<K(!new)>(edges: set<(K, K)>, keys: set<K>)
  {
    forall e :: e in edges ==> e.0 in keys && e.1 in keys
  }

  lemma LinkedStays<K(!new)>(edges: set<(K, K)>, keys: set<K>, x: K, y: K)
    requires Within(edges, keys) && x in keys && Linked(edges, x, y)
    ensures y in keys
  {
    var path :| Path(edges, path, x, y);
    LinkedInside(edges, keys, x, y, path);
  }

  // ---------------------------------------------------------------- representatives

  /** Every key is linked to its representative. */
  ghost predicate Sound<K(!new)>(edges: set<(K, K)>, keys: set<K>, root: K -> K)
  {
    forall x :: x in keys ==> Linked(edges, x, root(x))
  }

  /** The ends of every edge share a representative. */
  ghost predicate Settled<K(!new)>(edges: set<(K, K)>, root: K -> K)
  {
    forall e :: e in edges ==> root(e.0) == root(e.1)
  }

  lemma {:induction false} PathSettled<K(!new)>(edges: set<(K, K)>, root: K -> K, x: K, y: K, path: seq<K>)
    requires Settled(edges, root) && Path(edges, path, x, y)
    ensures root(x) == root(y)
    decreases |path|
  {
    if |path| > 1 {
      var n := |path| - 1;
      assert Path(edges, path[..n], x, path[n - 1]);
      PathSettled(edges, root, x, path[n - 1], path[..n]);
      assert Adjacent(edges, path[n - 1], y);
    }
  }

  /** Two keys share a representative exactly when a chain links them. */
  lemma RootsAreComponents<K(!new)>(edges: set<(K, K)>, keys: set<K>, root: K -> K, x: K, y: K)
    requires Sound(edges, keys, root) && Settled(edges, root) && x in keys && y in keys
    ensures root(x) == root(y) <==> Linked(edges, x, y)
  {
    if root(x) == root(y) {
      LinkedSymmetric(edges, y, root(y));
      LinkedTransitive(edges, x, root(x), y);
    }
    if Linked(edges, x, y) {
      var path :| Path(edges, path, x, y);
      PathSettled(edges, root, x, y, path);
    }
  }

  /** Merging the components of two adjacent keys keeps every representative on a chain. */
  lemma MergeSound<K(!new)>(edges: set<(K, K)>, keys: set<K>, before: K -> K, after: K -> K, x: K, y: K)
    requires Sound(edges, keys, before) && x in keys && y in keys && Adjacent(edges, x, y)
    requires forall k :: after(k) == before(k) || (before(k) == before(y) && after(k) == before(x))
    ensures Sound(edges, keys, after)
  {
    forall k | k in keys
      ensures Linked(edges, k, after(k))
    {
      if after(k) != before(k) {
        // k - root(y) - y - x - root(x)
        LinkedSymmetric(edges, y, before(y));
        LinkedTransitive(edges, k, before(y), y);
        LinkedStep(edges, k, y, x);
        LinkedTransitive(edges, k, x, before(x));
      }
    }
  }

  lemma SettledStays<K(!new)>(edges: set<(K, K)>, before: K -> K, after: K -> K)
    requires Settled(edges, before) && forall k, l :: before(k) == before(l) ==> after(k) == after(l)
    ensures Settled(edges, after)
  {
  }
}
