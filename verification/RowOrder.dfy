/**
 The order reminders are said in: by instant, then by id
 (internal/brain/render.go, groups; internal/brain/digest_checkin.go, openCheckins).
 */
module RowOrder {

  datatype Key = Key(at: int, id: string)

  predicate StringLess(a: string, b: string) {
    if b == "" then false
    else if a == "" then true
    else a[0] < b[0] || (a[0] == b[0] && StringLess(a[1..], b[1..]))
  }

  predicate Less(a: Key, b: Key) {
    a.at < b.at || (a.at == b.at && StringLess(a.id, b.id))
  }

  ghost predicate Sorted<T>(s: seq<T>, key: T -> Key) {
    forall i, j :: 0 <= i < j < |s| ==> !Less(key(s[j]), key(s[i]))
  }

  lemma {:induction false} StringLessIsTotal(a: string, b: string)
    ensures StringLess(a, b) || StringLess(b, a) || a == b
    ensures !(StringLess(a, b) && StringLess(b, a))
  {
    if a != "" && b != "" {
      StringLessIsTotal(a[1..], b[1..]);
      assert a == [a[0]] + a[1..] && b == [b[0]] + b[1..];
    }
  }

  lemma {:induction false} StringLessIsTransitive(a: string, b: string, c: string)
    requires !StringLess(b, a) && !StringLess(c, b)
    ensures !StringLess(c, a)
  {
    if a != "" && b != "" && c != "" && a[0] == b[0] == c[0] {
      StringLessIsTransitive(a[1..], b[1..], c[1..]);
    }
  }

  lemma NotLessIsTransitive(a: Key, b: Key, c: Key)
    requires !Less(b, a) && !Less(c, b)
    ensures !Less(c, a)
  {
    if a.at == b.at == c.at {
      StringLessIsTransitive(a.id, b.id, c.id);
    }
  }

  lemma LessIsTotal(a: Key, b: Key)
    ensures Less(a, b) ==> !Less(b, a)
    ensures !Less(a, b) && !Less(b, a) ==> a == b
  {
    StringLessIsTotal(a.id, b.id);
  }

  method Sort<T>(s: seq<T>, key: T -> Key) returns (r: seq<T>)
    ensures Sorted(r, key) && multiset(r) == multiset(s)
  {
    r := [];
    for i := 0 to |s|
      invariant Sorted(r, key) && multiset(r) == multiset(s[..i])
    {
      assert s[..i + 1] == s[..i] + [s[i]];
      r := Insert(r, s[i], key);
    }
    assert s[..|s|] == s;
  }

  method Insert<T>(s: seq<T>, x: T, key: T -> Key) returns (r: seq<T>)
    requires Sorted(s, key)
    ensures Sorted(r, key) && multiset(r) == multiset(s) + multiset{x}
  {
    var k := |s|;
    while k > 0 && Less(key(x), key(s[k - 1]))
      invariant 0 <= k <= |s|
      invariant forall j :: k <= j < |s| ==> Less(key(x), key(s[j]))
    {
      k := k - 1;
    }
    assert s == s[..k] + s[k..];
    r := s[..k] + [x] + s[k..];
    InsertedInOrder(s, x, k, key);
  }

  lemma InsertedInOrder<T>(s: seq<T>, x: T, k: nat, key: T -> Key)
    requires Sorted(s, key) && k <= |s|
    requires k > 0 ==> !Less(key(x), key(s[k - 1]))
    requires forall j :: k <= j < |s| ==> Less(key(x), key(s[j]))
    ensures Sorted(s[..k] + [x] + s[k..], key)
  {
    hide Less;
    var r := s[..k] + [x] + s[k..];
    forall i, j | 0 <= i < j < |r|
      ensures !Less(key(r[j]), key(r[i]))
    {
      if j == k {
        if i < k - 1 {
          NotLessIsTransitive(key(s[i]), key(s[k - 1]), key(x));
        }
      } else if i == k {
        LessIsTotal(key(x), key(s[j - 1]));
      }
    }
  }

  /** What is sorted by keys that tell its elements apart is sorted in one way. */
  lemma {:induction false} SortedOnce<T>(a: seq<T>, b: seq<T>, key: T -> Key)
    requires Sorted(a, key) && Sorted(b, key) && forall x :: x in a <==> x in b
    requires forall i, j :: 0 <= i < j < |a| ==> key(a[i]) != key(a[j])
    requires forall i, j :: 0 <= i < j < |b| ==> key(b[i]) != key(b[j])
    ensures a == b
  {
    assert a != [] ==> a[0] in b;
    assert b != [] ==> b[0] in a;
    if a != [] {
      var m, n := |a| - 1, |b| - 1;
      var x, y := a[m], b[n];
      assert x in a && y in b;
      assert x in b && y in a;
      var i :| 0 <= i < |b| && b[i] == x;
      var j :| 0 <= j < |a| && a[j] == y;
      LessIsTotal(key(x), key(y));
      assert key(x) == key(y) && i == n;
      forall z
        ensures z in a[..m] <==> z in b[..n]
      {
        assert z in a <==> z in a[..m] || z == x;
        assert z in b <==> z in b[..n] || z == x;
      }
      SortedOnce(a[..m], b[..n], key);
      assert a == a[..m] + [x] && b == b[..n] + [y];
    }
  }
}
