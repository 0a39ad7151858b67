/**
 The two unique-slug searches: sibling slugs of the org tree, and document names
 in a vault folder, which carry an extension while they are compared.
 */
module UniqueSlug {
  import opened Text

  function Numbered(base: string, n: nat): string {
    base + "-" + Digits(n)
  }

  lemma NumberedInjective(base: string, ext: string, m: nat, n: nat)
    requires Numbered(base, m) + ext == Numbered(base, n) + ext
    ensures m == n
  {
    var a, b := Numbered(base, m), Numbered(base, n);
    assert |a| == |b|;
    assert a == (a + ext)[..|a|] && b == (b + ext)[..|b|];
    assert Digits(m) == a[|base| + 1..] && Digits(n) == b[|base| + 1..];
    DigitsRead(m);
    DigitsRead(n);
  }

  // `slug` is the base if that is free, and otherwise the base with the least
  // number from 2 on that is.
  ghost predicate IsFirstFree(base: string, ext: string, taken: set<string>, slug: string) {
    || (slug == base && base + ext !in taken)
    || (base + ext in taken && exists n: nat :: IsLeast(base, ext, taken, n) && slug == Numbered(base, n))
  }

  ghost predicate IsLeast(base: string, ext: string, taken: set<string>, n: nat) {
    n >= 2 && Numbered(base, n) + ext !in taken && forall m: nat :: 2 <= m < n ==> Numbered(base, m) + ext in taken
  }

  lemma FirstFreeUnique(base: string, ext: string, taken: set<string>, a: string, b: string)
    requires IsFirstFree(base, ext, taken, a) && IsFirstFree(base, ext, taken, b)
    ensures a == b
  {
    if base + ext in taken {
      var m: nat :| IsLeast(base, ext, taken, m) && a == Numbered(base, m);
      var n: nat :| IsLeast(base, ext, taken, n) && b == Numbered(base, n);
      assert m == n;
    }
  }

  /** The search ends, since every candidate it rejects is another member of a
      finite set, and returns the first free name. */
  method FindFree(base: string, ext: string, taken: set<string>) returns (slug: string)
    ensures IsFirstFree(base, ext, taken, slug)
  {
    if base + ext !in taken { return base; }
    var n: nat := 2;
    ghost var tried: set<string> := {};
    while Numbered(base, n) + ext in taken
      invariant n >= 2 && tried <= taken && |tried| == n - 2
      invariant forall m: nat :: 2 <= m < n ==> Numbered(base, m) + ext in taken
      invariant forall t :: t in tried ==> exists m: nat :: 2 <= m < n && t == Numbered(base, m) + ext
      decreases |taken| - |tried|
    {
      assert Numbered(base, n) + ext !in tried by {
        if Numbered(base, n) + ext in tried {
          var m: nat :| 2 <= m < n && Numbered(base, n) + ext == Numbered(base, m) + ext;
          NumberedInjective(base, ext, n, m);
        }
      }
      tried := tried + {Numbered(base, n) + ext};
      SubsetSize(tried, taken);
      n := n + 1;
    }
    assert IsLeast(base, ext, taken, n);
    return Numbered(base, n);
  }

  lemma SubsetSize(a: set<string>, b: set<string>)
    requires a <= b
    ensures |a| <= |b|
  {
    assert b == a + (b - a);
  }

  // The name the search returns, as a value.
  ghost function FirstFree(base: string, ext: string, taken: set<string>): (slug: string)
    ensures IsFirstFree(base, ext, taken, slug)
  {
    FirstFreeExists(base, ext, taken);
    var slug :| IsFirstFree(base, ext, taken, slug);
    slug
  }

  lemma FirstFreeExists(base: string, ext: string, taken: set<string>)
    ensures exists slug :: IsFirstFree(base, ext, taken, slug)
  {
    if base + ext !in taken {
      assert IsFirstFree(base, ext, taken, base);
    } else {
      var n := LeastFrom(base, ext, taken, {}, 2);
      assert IsFirstFree(base, ext, taken, Numbered(base, n));
    }
  }

  lemma {:induction false} LeastFrom(base: string, ext: string, taken: set<string>, tried: set<string>, k: nat)
      returns (n: nat)
    requires k >= 2 && tried <= taken
    requires forall m: nat :: 2 <= m < k ==> Numbered(base, m) + ext in taken
    requires forall t :: t in tried ==> exists m: nat :: 2 <= m < k && t == Numbered(base, m) + ext
    ensures IsLeast(base, ext, taken, n)
    decreases |taken| - |tried|
  {
    SubsetSize(tried, taken);
    if Numbered(base, k) + ext !in taken {
      n := k;
    } else {
      assert Numbered(base, k) + ext !in tried by {
        if Numbered(base, k) + ext in tried {
          var m: nat :| 2 <= m < k && Numbered(base, k) + ext == Numbered(base, m) + ext;
          NumberedInjective(base, ext, k, m);
        }
      }
      var more := tried + {Numbered(base, k) + ext};
      SubsetSize(more, taken);
      n := LeastFrom(base, ext, taken, more, k + 1);
    }
  }
}
