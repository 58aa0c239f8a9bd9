/**
 * Insertion-ordered sets of distinct values, kept as sequences.
 *
 * A JavaScript `Set` iterates (and `Array.from` copies) in insertion order;
 * the model keeps that order by storing the set as a sequence in which no
 * value occurs twice.
 */
module OrderedSets {

  /** No value occurs twice in `s`. */
  predicate NoDup<T(==)>(s: seq<T>) {
    forall i, j :: 0 <= i < j < |s| ==> s[i] != s[j]
  }

  /** The values of `s`, as a set. */
  function Elements<T>(s: seq<T>): set<T> {
    set x | x in s
  }

  /** Extending a sequence by one value extends its elements by that value. */
  lemma ElementsSnoc<T>(s: seq<T>, i: nat)
    requires i < |s|
    ensures Elements(s[..i + 1]) == Elements(s[..i]) + {s[i]}
  {
    assert s[..i + 1] == s[..i] + [s[i]];
  }

  /** In a sequence without duplicates a value does not occur before its own position. */
  lemma NotBefore<T>(s: seq<T>, i: nat)
    requires NoDup(s) && i < |s|
    ensures s[i] !in s[..i]
  {
    forall k | 0 <= k < i ensures s[k] != s[i] { }
  }

  /** The values of a concatenation are those of its parts. */
  lemma ElementsConcat<T>(a: seq<T>, b: seq<T>)
    ensures Elements(a + b) == Elements(a) + Elements(b)
  {
    assert forall y :: y in a + b <==> y in a || y in b;
  }

  /** Two distinct-valued sequences with no value in common concatenate to one. */
  lemma NoDupConcat<T>(a: seq<T>, b: seq<T>)
    requires NoDup(a) && NoDup(b) && Elements(a) !! Elements(b)
    ensures NoDup(a + b)
  {
    var c := a + b;
    forall i, j | 0 <= i < j < |c| ensures c[i] != c[j] {
      if j < |a| {
        assert c[i] == a[i] && c[j] == a[j];
      } else if |a| <= i {
        assert c[i] == b[i - |a|] && c[j] == b[j - |a|];
      } else {
        assert c[i] == a[i] && c[i] in Elements(a);
        assert c[j] == b[j - |a|] && c[j] in Elements(b);
      }
    }
  }

  /** The front and back parts of a distinct-valued sequence are distinct-valued. */
  lemma NoDupSplit<T>(s: seq<T>, k: nat)
    requires NoDup(s) && k <= |s|
    ensures NoDup(s[..k]) && NoDup(s[k..]) && Elements(s[..k]) !! Elements(s[k..])
  {
    var a, b := s[..k], s[k..];
    assert forall i | 0 <= i < |a| :: a[i] == s[i];
    assert forall i | 0 <= i < |b| :: b[i] == s[k + i];
  }

  /** `Set.add`: a value not yet present goes to the end; a present one changes nothing. */
  function Add<T(==)>(s: seq<T>, x: T): (r: seq<T>)
    ensures x in r
    ensures x in s ==> r == s
    ensures x !in s ==> r == s + [x]
  {
    if x in s then s else s + [x]
  }

  /** Adding keeps every value distinct and adds exactly `x`. */
  lemma AddSpec<T>(s: seq<T>, x: T)
    ensures Elements(Add(s, x)) == Elements(s) + {x}
    ensures NoDup(s) ==> NoDup(Add(s, x))
  {
    if x !in s {
      ElementsConcat(s, [x]);
      if NoDup(s) {
        NoDupConcat(s, [x]);
      }
    }
  }

  /** `Set.delete`: removes the value; a no-op when it is absent. */
  function Delete<T(==)>(s: seq<T>, x: T): (r: seq<T>)
    ensures x !in s ==> r == s
    ensures |r| <= |s|
  {
    if s == [] then []
    else if s[0] == x then s[1..]
    else [s[0]] + Delete(s[1..], x)
  }

  /** Deleting never adds a value; on distinct values it removes exactly `x` and keeps the rest distinct. */
  lemma {:induction false} DeleteSpec<T>(s: seq<T>, x: T)
    ensures Elements(Delete(s, x)) <= Elements(s)
    ensures NoDup(s) ==> NoDup(Delete(s, x)) && Elements(Delete(s, x)) == Elements(s) - {x}
  {
    if s != [] {
      var t := s[1..];
      assert s == [s[0]] + t;
      ElementsConcat([s[0]], t);
      if NoDup(s) {
        NoDupSplit(s, 1);
        assert s[..1] == [s[0]] && s[1..] == t;
      }
      if s[0] != x {
        DeleteSpec(t, x);
        var d := Delete(t, x);
        ElementsConcat([s[0]], d);
        if NoDup(s) {
          NoDupConcat([s[0]], d);
        }
      }
    }
  }

  /** The values of `s` that are not in `d`, in their original order. */
  function Without<T(==)>(s: seq<T>, d: set<T>): (r: seq<T>)
    ensures |r| <= |s|
  {
    if s == [] then []
    else
      var n := |s| - 1;
      Without(s[..n], d) + (if s[n] in d then [] else [s[n]])
  }

  /** Filtering one value more appends it, unless it is filtered out. */
  lemma WithoutSnoc<T>(s: seq<T>, d: set<T>, i: nat)
    requires i < |s|
    ensures Without(s[..i + 1], d) == Without(s[..i], d) + (if s[i] in d then [] else [s[i]])
  {
    assert s[..i + 1][..i] == s[..i];
  }

  /** Filtering keeps exactly the values outside `d`, and keeps them distinct. */
  lemma {:induction false} WithoutSpec<T>(s: seq<T>, d: set<T>)
    ensures Elements(Without(s, d)) == Elements(s) - d
    ensures NoDup(s) ==> NoDup(Without(s, d))
  {
    if s != [] {
      var n := |s| - 1;
      var last := if s[n] in d then [] else [s[n]];
      assert s == s[..n] + [s[n]];
      ElementsConcat(s[..n], [s[n]]);
      WithoutSpec(s[..n], d);
      ElementsConcat(Without(s[..n], d), last);
      if NoDup(s) {
        NoDupSplit(s, n);
        assert s[n..] == [s[n]];
        NoDupConcat(Without(s[..n], d), last);
      }
    }
  }

  /** Deleting a value that the front part does not hold only touches the back part. */
  lemma {:induction false} DeleteAfter<T>(a: seq<T>, b: seq<T>, x: T)
    requires x !in a
    ensures Delete(a + b, x) == a + Delete(b, x)
  {
    if a == [] {
      assert a + b == b;
    } else {
      var t := a[1..];
      assert a == [a[0]] + t && a[0] != x && x !in t;
      assert a + b == [a[0]] + (t + b);
      DeleteAfter(t, b, x);
      assert [a[0]] + (t + Delete(b, x)) == a + Delete(b, x);
    }
  }
}
