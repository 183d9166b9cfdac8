/** The parent dictionaries of the program: union-find with path halving. */
module Forest {

  /** Following parents from `k` leads to its representative. */
  ghost predicate Leads<K(!new)>(parent: map<K, K>, root: K -> K, depth: K -> nat, k: K)
    requires k in parent
  {
    && parent[k] in parent && root(k) in parent
    && parent[root(k)] == root(k) && root(parent[k]) == root(k)
    && (parent[k] == k ==> root(k) == k)
    && (parent[k] != k ==> depth(parent[k]) < depth(k))
  }

  ghost predicate IsForest<K(!new)>(parent: map<K, K>, root: K -> K, depth: K -> nat)
  {
    forall k {:trigger Leads(parent, root, depth, k)} :: k in parent ==> Leads(parent, root, depth, k)
  }

  lemma Inside<K(!new)>(parent: map<K, K>, root: K -> K, depth: K -> nat, k: K)
    requires IsForest(parent, root, depth) && k in parent
    ensures parent[k] in parent && root(k) in parent && root(root(k)) == root(k)
    ensures parent[k] == k ==> root(k) == k
  {
    assert Leads(parent, root, depth, k) && Leads(parent, root, depth, root(k));
  }

  /** Skipping one ancestor keeps every representative. */
  lemma Halve<K(!new)>(parent: map<K, K>, root: K -> K, depth: K -> nat, k: K)
    requires IsForest(parent, root, depth) && k in parent && parent[k] != k
    ensures parent[k] in parent && parent[parent[k]] in parent
    ensures IsForest(parent[k := parent[parent[k]]], root, depth)
    ensures depth(parent[parent[k]]) < depth(k) && root(parent[parent[k]]) == root(k)
  {
    assert Leads(parent, root, depth, k) && Leads(parent, root, depth, parent[k]);
    var halved := parent[k := parent[parent[k]]];
    forall x | x in halved
      ensures Leads(halved, root, depth, x)
    {
      assert Leads(parent, root, depth, x) && Leads(parent, root, depth, root(x));
    }
  }

  /** Everything represented by `child` is now represented by `target`. */
  ghost function Merged<K(!new)>(root: K -> K, child: K, target: K): K -> K
  {
    (x: K) => if root(x) == child then target else root(x)
  }

  ghost function Lifted<K(!new)>(root: K -> K, depth: K -> nat, child: K, levels: nat): K -> nat
  {
    (x: K) => if root(x) == child then depth(x) + levels else depth(x)
  }

  lemma Hang<K(!new)>(parent: map<K, K>, root: K -> K, depth: K -> nat, child: K, target: K)
    requires IsForest(parent, root, depth) && child in parent && target in parent
    requires parent[child] == child && parent[target] == target && child != target
    ensures IsForest(parent[child := target], Merged(root, child, target),
      Lifted(root, depth, child, depth(target) + 1))
  {
    var p, r, d := parent[child := target], Merged(root, child, target), Lifted(root, depth, child, depth(target) + 1);
    assert Leads(parent, root, depth, child) && Leads(parent, root, depth, target);
    forall x | x in p
      ensures Leads(p, r, d, x)
    {
      assert Leads(parent, root, depth, x) && Leads(parent, root, depth, root(x));
    }
  }

  class Forest<K(==, !new)> {
    var parent: map<K, K>
    /** The representative of every key, and a bound on its distance from it. */
    ghost var root: K -> K
    ghost var depth: K -> nat

    ghost predicate Valid()
      reads this
    {
      IsForest(parent, root, depth)
    }

    constructor (keys: set<K>)
      ensures Valid() && parent.Keys == keys && forall k :: root(k) == k
    {
      parent := map k | k in keys :: k;
      root := (k: K) => k;
      depth := (k: K) => 0;
    }

    /** One step of the walk: halve the path at `k` and move past its parent. */
    method Skip(k: K) returns (next: K)
      requires Valid() && k in parent && parent[k] != k
      modifies this`parent
      ensures Valid() && parent.Keys == old(parent.Keys)
      ensures next in parent && root(next) == root(k) && depth(next) < depth(k)
    {
      Halve(parent, root, depth, k);
      parent := parent[k := parent[parent[k]]];
      next := parent[k];
    }

    /** Follow parents to the representative, halving the path on the way. */
    method Find(k: K) returns (r: K)
      requires Valid() && k in parent
      modifies this`parent
      ensures Valid() && parent.Keys == old(parent.Keys)
      ensures r == root(k) && r in parent && parent[r] == r && root(r) == r
    {
      r := k;
      while parent[r] != r
        invariant Valid() && parent.Keys == old(parent.Keys)
        invariant r in parent && root(r) == root(k)
        decreases depth(r)
      {
        r := Skip(r);
      }
      Inside(parent, root, depth, r);
    }

    /** Hang the tree of one representative below another. */
    method Link(child: K, target: K)
      requires Valid() && child in parent && target in parent
      requires root(child) == child && root(target) == target && child != target
      modifies this
      ensures Valid() && parent.Keys == old(parent.Keys)
      ensures root == Merged(old(root), child, target)
    {
      assert Leads(parent, root, depth, child) && Leads(parent, root, depth, target);
      Hang(parent, root, depth, child, target);
      parent := parent[child := target];
      depth := Lifted(root, depth, child, depth(target) + 1);
      root := Merged(root, child, target);
    }
  }
}
