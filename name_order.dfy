/** The order in which migration files are applied: Go's `<` on file names and
    the in-place sort of the directory listing (main.go:116-118). */
module NameOrder {

  /** Go's `<` on strings: lexicographic, a proper prefix first. Go compares the
      UTF-8 bytes; UTF-8 preserves code-point order, so comparing characters by
      code point gives the same answer. */
  predicate Below(a: string, b: string)
  {
    if a == [] then b != []
    else if b == [] then false
    else a[0] < b[0] || (a[0] == b[0] && Below(a[1..], b[1..]))
  }

  /** Go's `<=` on strings. */
  predicate AtMost(a: string, b: string)
  {
    a == b || Below(a, b)
  }

  /** Ascending name order, as `sort.Slice` with `dir[i].Name() < dir[j].Name()` leaves it. */
  predicate Sorted(names: seq<string>)
  {
    forall i, j :: 0 <= i < j < |names| ==> AtMost(names[i], names[j])
  }

  lemma {:induction false} BelowIrreflexive(a: string)
    ensures !Below(a, a)
  {
    if a != [] {
      BelowIrreflexive(a[1..]);
    }
  }

  lemma {:induction false} BelowTransitive(a: string, b: string, c: string)
    requires Below(a, b) && Below(b, c)
    ensures Below(a, c)
  {
    if a != [] && a[0] == b[0] && b[0] == c[0] {
      BelowTransitive(a[1..], b[1..], c[1..]);
    }
  }

  /** Any two distinct names are ordered one way or the other. */
  lemma {:induction false} BelowTotal(a: string, b: string)
    requires a != b
    ensures Below(a, b) || Below(b, a)
  {
    if a != [] && b != [] && a[0] == b[0] {
      assert a == [a[0]] + a[1..] && b == [b[0]] + b[1..];
      BelowTotal(a[1..], b[1..]);
    }
  }

  /** The comparison the sort performs decides `<=` in the other direction. */
  lemma NotBelowIsAtMost(a: string, b: string)
    requires !Below(a, b)
    ensures AtMost(b, a)
  {
    if a != b {
      BelowTotal(a, b);
    }
  }

  lemma AtMostTransitive(a: string, b: string, c: string)
    requires AtMost(a, b) && AtMost(b, c)
    ensures AtMost(a, c)
  {
    if a != b && b != c {
      BelowTransitive(a, b, c);
    }
  }

  /** `<` is a strict order: never both ways. */
  lemma BelowAsymmetric(a: string, b: string)
    requires Below(a, b)
    ensures !Below(b, a)
  {
    if Below(b, a) {
      BelowTransitive(a, b, a);
      BelowIrreflexive(a);
    }
  }

  /** Sorts the directory listing in place by name (main.go:116-118). Go's
      `sort.Slice` switches to insertion sort on short slices; the model uses
      insertion sort throughout, and promises what `sort.Slice` promises: the
      entries end up in ascending order and are a permutation of the listing. */
  method SortByName(dir: array<string>)
    modifies dir
    ensures Sorted(dir[..])
    ensures multiset(dir[..]) == multiset(old(dir[..]))
  {
    var i := 0;
    while i < dir.Length
      invariant 0 <= i <= dir.Length
      invariant forall k, l :: 0 <= k < l < i ==> AtMost(dir[k], dir[l])
      invariant multiset(dir[..]) == multiset(old(dir[..]))
    {
      var j := i;
      while j > 0 && Below(dir[j], dir[j - 1])
        invariant 0 <= j <= i
        invariant forall k, l :: 0 <= k < l <= i && k != j && l != j ==> AtMost(dir[k], dir[l])
        invariant forall l :: j < l <= i ==> Below(dir[j], dir[l])
        invariant multiset(dir[..]) == multiset(old(dir[..]))
      {
        dir[j - 1], dir[j] := dir[j], dir[j - 1];
        j := j - 1;
      }
      if j > 0 {
        NotBelowIsAtMost(dir[j], dir[j - 1]);
      }
      forall k, l | 0 <= k < l <= i
        ensures AtMost(dir[k], dir[l])
      {
        if l == j && k < j - 1 {
          AtMostTransitive(dir[k], dir[j - 1], dir[j]);
        }
      }
      i := i + 1;
    }
  }
}
