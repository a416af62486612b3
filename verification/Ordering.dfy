/** The strict order that every ORDER BY clause and every keyset filter relies on.
    A key is a tuple of numbers and texts; texts compare bytewise and tuples
    lexicographically. */
module Ordering {

  datatype Field = Num(n: int) | Text(s: string)

  type Key = seq<Field>

  predicate TextLess(a: string, b: string) {
    b != [] && (a == [] || a[0] < b[0] || (a[0] == b[0] && TextLess(a[1..], b[1..])))
  }

  predicate FieldLess(a: Field, b: Field) {
    match (a, b)
    case (Num(x), Num(y)) => x < y
    case (Text(x), Text(y)) => TextLess(x, y)
    case (Num(_), Text(_)) => true
    case (Text(_), Num(_)) => false
  }

  predicate KeyLess(a: Key, b: Key) {
    b != [] && (a == [] || FieldLess(a[0], b[0]) || (a[0] == b[0] && KeyLess(a[1..], b[1..])))
  }

  lemma {:induction false} TextTotal(a: string, b: string)
    ensures TextLess(a, b) || a == b || TextLess(b, a)
    ensures !(TextLess(a, b) && TextLess(b, a))
    ensures !TextLess(a, a)
  {
    if a != [] {
      TextTotal(a[1..], a[1..]);
      if b != [] {
        TextTotal(a[1..], b[1..]);
        assert a == [a[0]] + a[1..] && b == [b[0]] + b[1..];
      }
    }
  }

  lemma SamePrefixHead(a: string, b: string, k: int)
    requires 0 < k <= |a| && k <= |b| && a[..k] == b[..k]
    ensures a[0] == b[0]
  {
    assert a[..k][0] == b[..k][0];
  }

  /** Texts compare at the first place where they differ; a proper beginning comes first. */
  lemma {:induction false} TextLessAtFirstDifference(a: string, b: string)
    ensures TextLess(a, b) <==>
              exists k :: 0 <= k <= |a| && k < |b| && a[..k] == b[..k] && (k < |a| ==> a[k] < b[k])
    decreases |a|
  {
    if a != [] && b != [] && a[0] == b[0] {
      TextLessAtFirstDifference(a[1..], b[1..]);
      if TextLess(a, b) {
        var k :| && 0 <= k <= |a| - 1 && k < |b| - 1 && a[1..][..k] == b[1..][..k]
                 && (k < |a| - 1 ==> a[1..][k] < b[1..][k]);
        assert a[..k + 1] == [a[0]] + a[1..][..k] && b[..k + 1] == [b[0]] + b[1..][..k];
      }
      forall k | 0 <= k <= |a| && k < |b| && a[..k] == b[..k] && (k < |a| ==> a[k] < b[k])
        ensures TextLess(a, b)
      {
        assert a[1..][..k - 1] == a[..k][1..] && b[1..][..k - 1] == b[..k][1..];
      }
    } else if TextLess(a, b) {
      assert a[..0] == b[..0];
    } else {
      forall k | 0 <= k <= |a| && k < |b| && a[..k] == b[..k] && (k < |a| ==> a[k] < b[k])
        ensures k == 0
      {
        if 0 < k {
          SamePrefixHead(a, b, k);
        }
      }
    }
  }

  lemma {:induction false} TextTransitive(a: string, b: string, c: string)
    requires TextLess(a, b) && TextLess(b, c)
    ensures TextLess(a, c)
  {
    if a != [] && a[0] == b[0] == c[0] {
      TextTransitive(a[1..], b[1..], c[1..]);
    }
  }

  lemma FieldTotal(a: Field, b: Field)
    ensures FieldLess(a, b) || a == b || FieldLess(b, a)
    ensures !(FieldLess(a, b) && FieldLess(b, a))
    ensures !FieldLess(a, a)
  {
    if a.Text? {
      TextTotal(a.s, a.s);
      if b.Text? {
        TextTotal(a.s, b.s);
      }
    }
  }

  lemma FieldTransitive(a: Field, b: Field, c: Field)
    requires FieldLess(a, b) && FieldLess(b, c)
    ensures FieldLess(a, c)
  {
    if a.Text? && b.Text? && c.Text? {
      TextTransitive(a.s, b.s, c.s);
    }
  }

  /** Any two different keys are ordered one way and not the other. */
  lemma {:induction false} KeyTotal(a: Key, b: Key)
    ensures KeyLess(a, b) || a == b || KeyLess(b, a)
    ensures !(KeyLess(a, b) && KeyLess(b, a))
    ensures !KeyLess(a, a)
  {
    if a != [] {
      FieldTotal(a[0], a[0]);
      KeyTotal(a[1..], a[1..]);
      if b != [] {
        FieldTotal(a[0], b[0]);
        KeyTotal(a[1..], b[1..]);
        assert a == [a[0]] + a[1..] && b == [b[0]] + b[1..];
      }
    }
  }

  lemma {:induction false} KeyTransitive(a: Key, b: Key, c: Key)
    requires KeyLess(a, b) && KeyLess(b, c)
    ensures KeyLess(a, c)
  {
    if a != [] {
      if FieldLess(a[0], b[0]) && FieldLess(b[0], c[0]) {
        FieldTransitive(a[0], b[0], c[0]);
      }
      if a[0] == b[0] == c[0] && !FieldLess(a[0], b[0]) && !FieldLess(b[0], c[0]) {
        KeyTransitive(a[1..], b[1..], c[1..]);
      } else if a[0] == b[0] == c[0] {
        FieldTotal(a[0], a[0]);
      }
    }
  }

  predicate IsLeast(s: set<Key>, m: Key) {
    m in s && forall k :: k in s && k != m ==> KeyLess(m, k)
  }

  lemma LeastExists(s: set<Key>)
    requires s != {}
    ensures exists m :: IsLeast(s, m)
    decreases |s|
  {
    var k :| k in s;
    var rest := s - {k};
    if rest == {} {
      assert s == {k};
      assert IsLeast(s, k);
    } else {
      LeastExists(rest);
      var m :| IsLeast(rest, m);
      KeyTotal(k, m);
      if KeyLess(k, m) {
        forall j | j in s && j != k
          ensures KeyLess(k, j)
        {
          if j != m {
            KeyTransitive(k, m, j);
          }
        }
        assert IsLeast(s, k);
      } else {
        assert IsLeast(s, m);
      }
    }
  }

  lemma LeastUnique(s: set<Key>, a: Key, b: Key)
    requires IsLeast(s, a) && IsLeast(s, b)
    ensures a == b
  {
    KeyTotal(a, b);
  }

  /** ORDER BY key LIMIT 1. */
  function Least(s: set<Key>): (m: Key)
    requires s != {}
    ensures IsLeast(s, m)
  {
    LeastExists(s);
    assert forall a, b :: IsLeast(s, a) && IsLeast(s, b) ==> a == b by {
      forall a, b | IsLeast(s, a) && IsLeast(s, b) ensures a == b { LeastUnique(s, a, b); }
    }
    var m :| m in s && IsLeast(s, m);
    m
  }

  ghost predicate Ascending(keys: seq<Key>) {
    forall i, j :: 0 <= i < j < |keys| ==> KeyLess(keys[i], keys[j])
  }

  /** ORDER BY key. */
  function SortedKeys(s: set<Key>): (r: seq<Key>)
    ensures |r| == |s|
    ensures forall k :: k in r <==> k in s
    ensures Ascending(r)
    decreases |s|
  {
    if s == {} then []
    else
      var m := Least(s);
      [m] + SortedKeys(s - {m})
  }

  /** An ascending listing of a set is unique, so ORDER BY has one answer. */
  lemma {:induction false} AscendingUnique(a: seq<Key>, b: seq<Key>)
    requires Ascending(a) && Ascending(b)
    requires forall k :: k in a <==> k in b
    ensures a == b
    decreases |a|
  {
    if a == [] {
      assert forall i :: 0 <= i < |b| ==> b[i] in b;
    } else {
      assert a[0] in b && b != [];
      assert b[0] in a;
      KeyTotal(a[0], b[0]);
      assert a[0] == b[0];
      forall k
        ensures k in a[1..] <==> k in b[1..]
      {
        KeyTotal(a[0], a[0]);
        assert k in a <==> k == a[0] || k in a[1..];
        assert k in b <==> k == b[0] || k in b[1..];
      }
      AscendingUnique(a[1..], b[1..]);
    }
  }

  /** Removing one element removes it once from the multiset. */
  lemma RemovedOne<T>(b: seq<T>, i: int)
    requires 0 <= i < |b|
    ensures multiset(b[..i] + b[i + 1..]) == multiset(b) - multiset{b[i]}
  {
    assert b == b[..i] + ([b[i]] + b[i + 1..]);
  }

  // ---------------------------------------------------------------- sorting by a key

  ghost predicate OrderedBy<T>(xs: seq<T>, key: T -> Key) {
    forall i, j :: 0 <= i < j < |xs| ==> !KeyLess(key(xs[j]), key(xs[i]))
  }

  function InsertBy<T>(x: T, xs: seq<T>, key: T -> Key): (r: seq<T>)
    ensures multiset(r) == multiset{x} + multiset(xs)
    decreases |xs|
  {
    if xs == [] || !KeyLess(key(xs[0]), key(x)) then [x] + xs
    else
      assert xs == [xs[0]] + xs[1..];
      [xs[0]] + InsertBy(x, xs[1..], key)
  }

  /** A stable sort. */
  function SortBy<T>(xs: seq<T>, key: T -> Key): (r: seq<T>)
    ensures multiset(r) == multiset(xs)
    ensures |r| == |xs|
    decreases |xs|
  {
    if xs == [] then []
    else
      assert xs == [xs[0]] + xs[1..];
      var r := InsertBy(xs[0], SortBy(xs[1..], key), key);
      SameSize(r, xs);
      r
  }

  lemma {:induction false} SameSize<T>(a: seq<T>, b: seq<T>)
    requires multiset(a) == multiset(b)
    ensures |a| == |b|
  {
    assert |multiset(a)| == |a| && |multiset(b)| == |b|;
  }

  lemma NotLessTransitive(a: Key, b: Key, c: Key)
    requires !KeyLess(b, a) && !KeyLess(c, b)
    ensures !KeyLess(c, a)
  {
    KeyTotal(a, b);
    KeyTotal(b, c);
    if KeyLess(c, a) {
      if a == b || b == c {
      } else {
        KeyTransitive(a, b, c);
        KeyTotal(a, c);
      }
    }
  }

  lemma {:induction false} InsertOrdered<T>(x: T, xs: seq<T>, key: T -> Key)
    requires OrderedBy(xs, key)
    ensures OrderedBy(InsertBy(x, xs, key), key)
    decreases |xs|
  {
    var r := InsertBy(x, xs, key);
    if xs == [] {
    } else if !KeyLess(key(xs[0]), key(x)) {
      forall j | 0 < j < |r|
        ensures !KeyLess(key(r[j]), key(x))
      {
        if 1 < j {
          NotLessTransitive(key(x), key(xs[0]), key(xs[j - 1]));
        }
      }
    } else {
      InsertOrdered(x, xs[1..], key);
      var rest := InsertBy(x, xs[1..], key);
      KeyTotal(key(x), key(xs[0]));
      forall j | 0 < j < |r|
        ensures !KeyLess(key(r[j]), key(r[0]))
      {
        assert r[j] in multiset(rest);
        assert r[j] == x || r[j] in xs[1..];
      }
    }
  }

  lemma {:induction false} SortOrdered<T>(xs: seq<T>, key: T -> Key)
    ensures OrderedBy(SortBy(xs, key), key)
    decreases |xs|
  {
    if xs != [] {
      SortOrdered(xs[1..], key);
      InsertOrdered(xs[0], SortBy(xs[1..], key), key);
    }
  }

  /** Sorting what is in order changes nothing. */
  lemma {:induction false} SortIdentity<T>(xs: seq<T>, key: T -> Key)
    requires OrderedBy(xs, key)
    ensures SortBy(xs, key) == xs
    decreases |xs|
  {
    if xs != [] {
      SortIdentity(xs[1..], key);
      assert xs == [xs[0]] + xs[1..];
    }
  }

  lemma SortMembers<T>(xs: seq<T>, key: T -> Key)
    ensures forall x :: x in SortBy(xs, key) <==> x in xs
  {
    forall x
      ensures x in SortBy(xs, key) <==> x in xs
    {
      assert x in SortBy(xs, key) <==> x in multiset(SortBy(xs, key));
      assert x in xs <==> x in multiset(xs);
    }
  }

  predicate StrictlyBy<T(!new)>(xs: seq<T>, key: T -> Key) {
    forall i, j :: 0 <= i < j < |xs| ==> KeyLess(key(xs[i]), key(xs[j]))
  }

  lemma {:induction false} InsertStrict<T(!new)>(x: T, xs: seq<T>, key: T -> Key)
    requires StrictlyBy(xs, key) && forall i :: 0 <= i < |xs| ==> key(xs[i]) != key(x)
    ensures StrictlyBy(InsertBy(x, xs, key), key)
    decreases |xs|
  {
    hide KeyLess;
    if xs != [] {
      KeyTotal(key(x), key(xs[0]));
      if KeyLess(key(xs[0]), key(x)) {
        var rest := InsertBy(x, xs[1..], key);
        InsertStrict(x, xs[1..], key);
        forall i | 0 <= i < |rest|
          ensures KeyLess(key(xs[0]), key(rest[i]))
        {
          assert rest[i] in multiset(rest);
          assert rest[i] == x || rest[i] in xs[1..];
        }
      } else {
        forall i | 0 <= i < |xs|
          ensures KeyLess(key(x), key(xs[i]))
        {
          if 0 < i {
            KeyTransitive(key(x), key(xs[0]), key(xs[i]));
          }
        }
      }
    }
  }

  predicate DistinctBy<T(!new)>(xs: seq<T>, key: T -> Key) {
    forall i, j :: 0 <= i < j < |xs| ==> key(xs[i]) != key(xs[j])
  }

  /** Elements with different keys sort into strict order. */
  lemma {:induction false} SortStrict<T(!new)>(xs: seq<T>, key: T -> Key)
    requires DistinctBy(xs, key)
    ensures StrictlyBy(SortBy(xs, key), key)
    decreases |xs|
  {
    hide KeyLess, StrictlyBy;
    if xs == [] {
      NothingStrict(key);
    } else {
      var rest := SortBy(xs[1..], key);
      assert DistinctBy(xs[1..], key);
      SortStrict(xs[1..], key);
      forall i | 0 <= i < |rest|
        ensures key(rest[i]) != key(xs[0])
      {
        assert rest[i] in multiset(rest);
        assert rest[i] in multiset(xs[1..]);
        var j :| 0 <= j < |xs[1..]| && xs[1..][j] == rest[i];
        assert xs[j + 1] == rest[i];
      }
      InsertStrict(xs[0], rest, key);
    }
  }

  lemma NothingStrict<T(!new)>(key: T -> Key)
    ensures StrictlyBy([], key)
  {
  }

  function Mapped<A, B>(xs: seq<A>, f: A -> B): (r: seq<B>)
    ensures |r| == |xs|
    ensures forall i :: 0 <= i < |xs| ==> r[i] == f(xs[i])
  {
    seq(|xs|, i requires 0 <= i < |xs| => f(xs[i]))
  }

  lemma MappedConcat<A, B>(a: seq<A>, b: seq<A>, f: A -> B)
    ensures Mapped(a + b, f) == Mapped(a, f) + Mapped(b, f)
  {
  }

  lemma MappedCons<A, B>(a: A, b: seq<A>, f: A -> B)
    ensures Mapped([a] + b, f) == [f(a)] + Mapped(b, f)
  {
  }

  lemma {:induction false} InsertMapped<T>(x: T, xs: seq<T>, f: T -> T, key: T -> Key)
    requires key(f(x)) == key(x) && forall i :: 0 <= i < |xs| ==> key(f(xs[i])) == key(xs[i])
    ensures InsertBy(f(x), Mapped(xs, f), key) == Mapped(InsertBy(x, xs, key), f)
    decreases |xs|
  {
    hide KeyLess, Mapped;
    if xs == [] || !KeyLess(key(xs[0]), key(x)) {
      MappedCons(x, xs, f);
    } else {
      var rest := InsertBy(x, xs[1..], key);
      InsertMapped(x, xs[1..], f, key);
      MappedCons(xs[0], xs[1..], f);
      assert xs == [xs[0]] + xs[1..];
      assert Mapped(xs, f)[1..] == Mapped(xs[1..], f);
      MappedCons(xs[0], rest, f);
    }
  }

  ghost predicate KeepsKeys<T>(xs: seq<T>, f: T -> T, key: T -> Key) {
    forall i :: 0 <= i < |xs| ==> key(f(xs[i])) == key(xs[i])
  }

  lemma KeepsKeysSorted<T>(xs: seq<T>, f: T -> T, key: T -> Key)
    requires KeepsKeys(xs, f, key)
    ensures KeepsKeys(SortBy(xs, key), f, key)
  {
    var rest := SortBy(xs, key);
    forall i | 0 <= i < |rest|
      ensures key(f(rest[i])) == key(rest[i])
    {
      assert rest[i] in multiset(rest);
      assert rest[i] in multiset(xs);
    }
  }

  /** Sorting commutes with any change that leaves the keys alone. */
  lemma {:induction false} SortMapped<T>(xs: seq<T>, f: T -> T, key: T -> Key)
    requires KeepsKeys(xs, f, key)
    ensures SortBy(Mapped(xs, f), key) == Mapped(SortBy(xs, key), f)
    decreases |xs|
  {
    hide InsertBy;
    if xs != [] {
      assert KeepsKeys(xs[1..], f, key);
      SortMapped(xs[1..], f, key);
      assert Mapped(xs, f)[1..] == Mapped(xs[1..], f);
      KeepsKeysSorted(xs[1..], f, key);
      InsertMapped(xs[0], SortBy(xs[1..], key), f, key);
    }
  }
}
