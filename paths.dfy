/**
 * Filesystem paths as sequences of segments. `path.join(base, "a/b")` is
 * modelled as `base + ["a", "b"]`; no normalisation of `.`, `..` or repeated
 * separators is done. The empty path stands for the current directory.
 */
module Paths {

  type Path = seq<string>

  /** q names p itself or one of p's ancestors (the empty path excepted). */
  predicate AncestorOrSelf(q: Path, p: Path) {
    0 < |q| <= |p| && p[..|q|] == q
  }

  /** The directory a non-empty path lives in. */
  function Parent(p: Path): Path
    requires |p| > 0
  {
    p[..|p| - 1]
  }

  /** Every non-empty leading part of p, p itself included: what `mkdir -p p` creates. */
  function Prefixes(p: Path): set<Path>
    decreases |p|
  {
    if |p| == 0 then {} else Prefixes(Parent(p)) + {p}
  }

  /** The members of `Prefixes(p)` are exactly p and its ancestors. */
  lemma {:induction false} PrefixesMember(q: Path, p: Path)
    ensures q in Prefixes(p) <==> AncestorOrSelf(q, p)
    decreases |p|
  {
    if |p| > 0 {
      PrefixesMember(q, Parent(p));
      if AncestorOrSelf(q, p) && q != p {
        assert |q| < |p|;
        assert Parent(p)[..|q|] == p[..|q|];
      }
      if AncestorOrSelf(q, Parent(p)) {
        assert p[..|q|] == Parent(p)[..|q|];
      }
    }
  }

  /** Creating `p + [s]` recursively creates what creating p does, and then `p + [s]`. */
  lemma PrefixesSnoc(p: Path, s: string)
    ensures Prefixes(p + [s]) == Prefixes(p) + {p + [s]}
  {
    assert Parent(p + [s]) == p;
  }

  /** Nothing longer than p is among its prefixes. */
  lemma PrefixesBounded(q: Path, p: Path)
    requires q in Prefixes(p)
    ensures 0 < |q| <= |p|
  {
    PrefixesMember(q, p);
  }

  /** The ancestors of an ancestor of p are ancestors of p. */
  lemma {:induction false} PrefixesClosed(q: Path, p: Path)
    requires q in Prefixes(p)
    ensures Prefixes(q) <= Prefixes(p)
    decreases |p|
  {
    if q != p {
      PrefixesClosed(q, Parent(p));
    }
  }

  /** Extending a path keeps all of its ancestors. */
  lemma {:induction false} PrefixesOfExtension(p: Path, rest: Path)
    ensures Prefixes(p) <= Prefixes(p + rest)
    decreases |rest|
  {
    if |rest| > 0 {
      var init := rest[..|rest| - 1];
      assert Parent(p + rest) == p + init;
      PrefixesOfExtension(p, init);
    } else {
      assert p + rest == p;
    }
  }

  /** Every directory's parent (other than the current directory) is in ds too. */
  predicate ParentClosed(ds: set<Path>) {
    forall p {:trigger Parent(p)} :: p in ds && |p| > 1 ==> Parent(p) in ds
  }

  /** What `mkdir -p p` creates is closed under taking parents. */
  lemma PrefixesParentClosed(p: Path)
    ensures ParentClosed(Prefixes(p))
  {
    forall q | q in Prefixes(p) && |q| > 1 ensures Parent(q) in Prefixes(p) {
      PrefixesMember(q, p);
      PrefixesMember(Parent(q), p);
      assert p[..|q| - 1] == p[..|q|][..|q| - 1];
    }
  }

  /** In a parent-closed set, every ancestor of a member is a member. */
  lemma {:induction false} ParentClosedHasPrefixes(ds: set<Path>, p: Path)
    requires ParentClosed(ds) && p in ds
    ensures Prefixes(p) <= ds
    decreases |p|
  {
    if |p| > 1 {
      ParentClosedHasPrefixes(ds, Parent(p));
    } else {
      assert |p| == 1 ==> Prefixes(Parent(p)) == {};
    }
  }

  /** The string `path.join` produces: the segments separated by "/". */
  function Render(p: Path): string
  {
    if |p| == 0 then ""
    else if |p| == 1 then p[0]
    else Render(p[..|p| - 1]) + "/" + p[|p| - 1]
  }

  /** Appending one segment to a non-empty path appends a separator and the segment. */
  lemma RenderSnoc(p: Path, s: string)
    requires |p| > 0
    ensures Render(p + [s]) == Render(p) + "/" + s
  {
    assert (p + [s])[..|p|] == p;
  }

  /** `join(base, rest)` is `base`, a separator, then `rest`, when both are given. */
  lemma {:induction false} RenderJoin(base: Path, rest: Path)
    requires |base| > 0 && |rest| > 0
    ensures Render(base + rest) == Render(base) + "/" + Render(rest)
    decreases |rest|
  {
    if |rest| == 1 {
      assert (base + rest)[..|base + rest| - 1] == base;
    } else {
      var init := rest[..|rest| - 1];
      assert (base + rest)[..|base + rest| - 1] == base + init;
      RenderJoin(base, init);
    }
  }

  /** A rendered non-empty path ends with its last segment. */
  lemma {:induction false} RenderEndsWithLast(p: Path)
    requires |p| > 0
    ensures |Render(p)| >= |p[|p| - 1]|
    ensures Render(p)[|Render(p)| - |p[|p| - 1]|..] == p[|p| - 1]
  {
    if |p| > 1 {
      var r, last := Render(p[..|p| - 1]) + "/", p[|p| - 1];
      assert Render(p) == r + last;
      assert (r + last)[|r|..] == last;
    }
  }
}
