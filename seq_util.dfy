/** Sequence helpers shared by the pipeline: duplicate-freedom, first
    occurrences, and the insertion-ordered de-duplication that
    `Array.from(new Set(xs))` performs in JavaScript. */
module SeqUtil {

  /** No element occurs twice. */
  predicate NoDup<T(==)>(s: seq<T>) {
    forall i, j :: 0 <= i < j < |s| ==> s[i] != s[j]
  }

  /** Index of the first occurrence of `x` in `s`. */
  function FirstIndex<T(==)>(s: seq<T>, x: T): (i: nat)
    requires x in s
    ensures i < |s| && s[i] == x && x !in s[..i]
  {
    if s[0] == x then 0
    else
      var k := FirstIndex(s[1..], x);
      assert s[..k + 1] == [s[0]] + s[1..][..k];
      1 + k
  }

  /** The elements of `s` in order of first occurrence, each once: the
      iteration order of a JavaScript `Set` built from `s`. */
  function Dedupe<T(==,!new)>(s: seq<T>): (r: seq<T>)
    ensures NoDup(r)
    ensures forall x :: x in r <==> x in s
    ensures |r| <= |s|
  {
    if s == [] then []
    else
      var p := Dedupe(s[..|s| - 1]);
      assert s == s[..|s| - 1] + [s[|s| - 1]];
      if s[|s| - 1] in p then p else p + [s[|s| - 1]]
  }

  /** The first occurrence is the only position holding `x` with no `x` before it. */
  lemma {:induction false} FirstIndexUnique<T>(s: seq<T>, x: T, k: nat)
    requires k < |s| && s[k] == x && x !in s[..k]
    ensures FirstIndex(s, x) == k
  {
    if k > 0 {
      assert s[..k][0] == s[0];
      assert s[1..][..k - 1] == s[..k][1..];
      FirstIndexUnique(s[1..], x, k - 1);
    }
  }

  lemma FirstIndexInPrefix<T>(a: seq<T>, b: seq<T>, x: T)
    requires x in a
    ensures FirstIndex(a + b, x) == FirstIndex(a, x)
  {
    var i := FirstIndex(a, x);
    assert (a + b)[..i] == a[..i];
    FirstIndexUnique(a + b, x, i);
  }

  /** `Dedupe` keeps the order of first occurrences: an element listed
      earlier in the result first occurs earlier in the input. */
  lemma {:induction false} DedupeKeepsFirstOccurrenceOrder<T(!new)>(s: seq<T>, i: nat, j: nat)
    requires i < j < |Dedupe(s)|
    ensures FirstIndex(s, Dedupe(s)[i]) < FirstIndex(s, Dedupe(s)[j])
  {
    var n := |s|;
    var init := s[..n - 1];
    var last := s[n - 1];
    var p := Dedupe(init);
    assert s == init + [last];
    if j < |p| {
      DedupeKeepsFirstOccurrenceOrder(init, i, j);
      FirstIndexInPrefix(init, [last], p[i]);
      FirstIndexInPrefix(init, [last], p[j]);
    } else {
      assert last !in init;
      FirstIndexInPrefix(init, [last], p[i]);
      var k := FirstIndex(s, last);
      assert last !in s[..k];
      assert s[..n - 1] == init;
    }
  }

  /** De-duplicating a longer input only appends: `Dedupe(a)` is a prefix
      of `Dedupe(a + b)`. */
  lemma {:induction false} DedupeExtends<T(!new)>(a: seq<T>, b: seq<T>)
    ensures |Dedupe(a)| <= |Dedupe(a + b)|
    ensures Dedupe(a + b)[..|Dedupe(a)|] == Dedupe(a)
  {
    if b == [] {
      assert a + b == a;
    } else {
      var b' := b[..|b| - 1];
      assert (a + b)[..|a + b| - 1] == a + b';
      DedupeExtends(a, b');
    }
  }

  /** A duplicate-free input is its own de-duplication. */
  lemma {:induction false} DedupeOfNoDup<T(!new)>(s: seq<T>)
    requires NoDup(s)
    ensures Dedupe(s) == s
  {
    if s != [] {
      var init := s[..|s| - 1];
      assert NoDup(init);
      DedupeOfNoDup(init);
      assert s[|s| - 1] !in init;
      assert s == init + [s[|s| - 1]];
    }
  }

  lemma NoDupConcat<T>(a: seq<T>, b: seq<T>)
    requires NoDup(a) && NoDup(b)
    requires forall x :: x in a ==> x !in b
    ensures NoDup(a + b)
  {
    forall i, j | 0 <= i < j < |a + b| ensures (a + b)[i] != (a + b)[j] {
      if i < |a| && |a| <= j {
        assert (a + b)[i] in a && (a + b)[j] == b[j - |a|];
      }
    }
  }

  /** A sequence has at most as many distinct elements as it has positions. */
  lemma {:induction false} ElementsBound<T>(s: seq<T>)
    ensures |set x | x in s| <= |s|
  {
    if s != [] {
      var init := s[..|s| - 1];
      ElementsBound(init);
      assert s == init + [s[|s| - 1]];
      assert (set x | x in s) == (set x | x in init) + {s[|s| - 1]};
    }
  }
}
