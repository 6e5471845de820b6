/** Paths of the coordination trie: a node is named by the segments that lead to it from the root. */
module Paths {

  type Path = seq<string>

  /** `p` is a strict ancestor of `q`. */
  predicate Above(p: Path, q: Path) {
    |p| < |q| && q[..|p|] == p
  }

  /** The parent of a node other than the root. */
  function Up(p: Path): Path
    requires p != []
  {
    p[..|p| - 1]
  }

  lemma AboveTransitive(p: Path, q: Path, r: Path)
    requires Above(p, q) && Above(q, r)
    ensures Above(p, r)
  {
    assert r[..|p|] == r[..|q|][..|p|];
  }

  /** The strict ancestors of a node are its parent and the parent's strict ancestors. */
  lemma AboveIsUpOrHigher(p: Path, q: Path)
    requires q != []
    ensures Above(p, q) <==> (p == Up(q) || Above(p, Up(q)))
  {
    if |p| < |q| {
      assert q[..|p|] == Up(q)[..|p|];
    }
  }

  /** The ancestors of one node form a chain. */
  lemma AncestorsAreLinear(p: Path, q: Path, r: Path)
    requires Above(p, r) && Above(q, r)
    ensures p == q || Above(p, q) || Above(q, p)
  {
    if |p| < |q| {
      assert q[..|p|] == r[..|p|];
    } else if |q| < |p| {
      assert p[..|q|] == r[..|q|];
    } else {
      assert p == q;
    }
  }
}
