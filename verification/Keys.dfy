/** Strings in the order Go's sort.Strings gives them, and the sorts built on it. */
module Keys {

  type Key = string

  function Itself(k: Key): Key { k }

  /** internal/graph/spec.go:139 */
  predicate KeyPattern(k: Key) {
    && 1 <= |k| <= 64
    && 'a' <= k[0] <= 'z'
    && forall i :: 1 <= i < |k| ==> 'a' <= k[i] <= 'z' || '0' <= k[i] <= '9' || k[i] == '_' || k[i] == '-'
  }

  /** internal/graph/memory.go:148-158 */
  predicate JobHash(s: string) {
    |s| == 64 && forall i :: 0 <= i < |s| ==> '0' <= s[i] <= '9' || 'a' <= s[i] <= 'f'
  }

  /** internal/job/spec.go:146-148 */
  predicate Ref(s: string) {
    && 0 < |s| <= 128
    && s[0] != '-'
    && forall i :: 0 <= i < |s| ==> s[i] != '\0' && s[i] != '\r' && s[i] != '\n'
  }

  /** Strict lexicographic order. */
  predicate Before(a: Key, b: Key) {
    if b == "" then false
    else if a == "" then true
    else if a[0] != b[0] then a[0] < b[0]
    else Before(a[1..], b[1..])
  }

  lemma {:induction false} BeforeIrreflexive(a: Key)
    ensures !Before(a, a)
  {
    if a != "" {
      BeforeIrreflexive(a[1..]);
    }
  }

  lemma {:induction false} BeforeTransitive(a: Key, b: Key, c: Key)
    requires Before(a, b) && Before(b, c)
    ensures Before(a, c)
  {
    if a != "" && a[0] == b[0] == c[0] {
      BeforeTransitive(a[1..], b[1..], c[1..]);
    }
  }

  lemma {:induction false} BeforeTotal(a: Key, b: Key)
    ensures a == b || Before(a, b) || Before(b, a)
  {
    if a != "" && b != "" && a[0] == b[0] {
      BeforeTotal(a[1..], b[1..]);
      assert a == [a[0]] + a[1..] && b == [b[0]] + b[1..];
    }
  }

  lemma BeforeOrder()
    ensures forall a: Key :: !Before(a, a)
    ensures forall a: Key, b: Key, c: Key :: Before(a, b) && Before(b, c) ==> Before(a, c)
    ensures forall a: Key, b: Key :: a == b || Before(a, b) || Before(b, a)
  {
    forall a: Key ensures !Before(a, a) { BeforeIrreflexive(a); }
    forall a: Key, b: Key, c: Key | Before(a, b) && Before(b, c) ensures Before(a, c) { BeforeTransitive(a, b, c); }
    forall a: Key, b: Key ensures a == b || Before(a, b) || Before(b, a) { BeforeTotal(a, b); }
  }

  /** Nothing later sorts strictly before something earlier. */
  ghost predicate Ascends<T>(s: seq<T>, key: T -> Key) {
    forall i, j :: 0 <= i < j < |s| ==> !Before(key(s[j]), key(s[i]))
  }

  ghost predicate DistinctKeys<T>(s: seq<T>, key: T -> Key) {
    forall i, j :: 0 <= i < j < |s| ==> key(s[i]) != key(s[j])
  }

  function Insert<T>(x: T, s: seq<T>, key: T -> Key): seq<T> {
    if s == [] then [x]
    else if Before(key(s[0]), key(x)) then [s[0]] + Insert(x, s[1..], key)
    else [x] + s
  }

  /** sort.Slice by a string key; with distinct keys every sorting algorithm agrees with it. */
  function SortBy<T>(s: seq<T>, key: T -> Key): seq<T> {
    if s == [] then [] else Insert(s[0], SortBy(s[1..], key), key)
  }

  lemma {:induction false} InsertPermutes<T>(x: T, s: seq<T>, key: T -> Key)
    ensures multiset(Insert(x, s, key)) == multiset{x} + multiset(s)
  {
    if s != [] && Before(key(s[0]), key(x)) {
      InsertPermutes(x, s[1..], key);
      assert s == [s[0]] + s[1..];
    }
  }

  lemma {:induction false} SortByPermutes<T>(s: seq<T>, key: T -> Key)
    ensures multiset(SortBy(s, key)) == multiset(s)
    ensures |SortBy(s, key)| == |s|
    ensures forall x :: x in SortBy(s, key) <==> x in s
  {
    if s != [] {
      SortByPermutes(s[1..], key);
      InsertPermutes(s[0], SortBy(s[1..], key), key);
      assert s == [s[0]] + s[1..];
    }
    SameElements(SortBy(s, key), s);
  }

  lemma SameElements<T>(s: seq<T>, t: seq<T>)
    requires multiset(s) == multiset(t)
    ensures |s| == |t|
    ensures forall x :: x in s <==> x in t
  {
    assert |multiset(s)| == |s| && |multiset(t)| == |t|;
    forall x ensures x in s <==> x in t {
      assert x in s <==> x in multiset(s);
      assert x in t <==> x in multiset(t);
    }
  }

  lemma {:induction false} InsertAscends<T>(x: T, s: seq<T>, key: T -> Key)
    requires Ascends(s, key)
    ensures Ascends(Insert(x, s, key), key)
  {
    BeforeOrder();
    if s != [] && Before(key(s[0]), key(x)) {
      var rest := Insert(x, s[1..], key);
      InsertAscends(x, s[1..], key);
      InsertPermutes(x, s[1..], key);
      forall j | 0 <= j < |rest| ensures !Before(key(rest[j]), key(s[0])) {
        assert rest[j] in multiset(rest);
        assert rest[j] == x || rest[j] in s[1..];
      }
    }
  }

  lemma {:induction false} SortByAscends<T>(s: seq<T>, key: T -> Key)
    ensures Ascends(SortBy(s, key), key)
  {
    if s != [] {
      SortByAscends(s[1..], key);
      InsertAscends(s[0], SortBy(s[1..], key), key);
    }
  }

  /** Sorting is idempotent: what already ascends is left alone. */
  lemma {:induction false} SortByFixes<T>(s: seq<T>, key: T -> Key)
    requires Ascends(s, key)
    ensures SortBy(s, key) == s
  {
    if s != [] {
      SortByFixes(s[1..], key);
      assert s == [s[0]] + s[1..];
      if |s| > 1 {
        if Before(key(s[1]), key(s[0])) {
          assert false;
        }
        FrontInsert(s[0], s[1..], key);
      }
    }
  }

  lemma {:induction false} FrontInsert<T>(x: T, s: seq<T>, key: T -> Key)
    requires s != [] ==> !Before(key(s[0]), key(x))
    ensures Insert(x, s, key) == [x] + s
  {
  }

  /** Order independence: a set of elements with distinct keys has one ascending enumeration. */
  lemma {:induction false} AscendingUnique<T>(s: seq<T>, t: seq<T>, key: T -> Key)
    requires Ascends(s, key) && Ascends(t, key)
    requires DistinctKeys(s, key) && DistinctKeys(t, key)
    requires forall x :: x in s <==> x in t
    ensures s == t
  {
    EmptyTogether(s, t);
    if s != [] {
      SameFirst(s, t, key);
      forall x ensures x in s[1..] <==> x in t[1..] {
        NotFirst(s, x, key);
        NotFirst(t, x, key);
      }
      AscendingUnique(s[1..], t[1..], key);
      assert s == [s[0]] + s[1..] && t == [t[0]] + t[1..];
    }
  }

  lemma EmptyTogether<T>(s: seq<T>, t: seq<T>)
    requires forall x :: x in s <==> x in t
    ensures s == [] <==> t == []
  {
    if s != [] {
      assert s[0] in s;
    }
    if t != [] {
      assert t[0] in t;
    }
  }

  lemma SameFirst<T>(s: seq<T>, t: seq<T>, key: T -> Key)
    requires s != [] && t != []
    requires Ascends(s, key) && Ascends(t, key) && DistinctKeys(s, key)
    requires forall x :: x in s <==> x in t
    ensures s[0] == t[0]
  {
    assert s[0] in s && t[0] in t;
    var i :| 0 <= i < |t| && t[i] == s[0];
    var j :| 0 <= j < |s| && s[j] == t[0];
    BeforeTotal(key(s[0]), key(t[0]));
    assert key(s[0]) == key(t[0]);
  }

  lemma NotFirst<T>(s: seq<T>, x: T, key: T -> Key)
    requires s != [] && DistinctKeys(s, key)
    ensures x in s[1..] <==> x in s && x != s[0]
  {
    if x in s[1..] {
      var k :| 1 <= k < |s| && s[k] == x;
      assert key(s[0]) != key(s[k]);
    }
  }

  lemma SortBySameSet<T>(s: seq<T>, t: seq<T>, key: T -> Key)
    requires DistinctKeys(s, key) && DistinctKeys(t, key)
    requires forall x :: x in s <==> x in t
    ensures SortBy(s, key) == SortBy(t, key)
  {
    SortByPermutes(s, key);
    SortByPermutes(t, key);
    SortByAscends(s, key);
    SortByAscends(t, key);
    DistinctPermutes(s, SortBy(s, key), key);
    DistinctPermutes(t, SortBy(t, key), key);
    AscendingUnique(SortBy(s, key), SortBy(t, key), key);
  }

  /** Where the first element of one list stands in a rearrangement of it. */
  lemma TakenOut<T>(s: seq<T>, t: seq<T>) returns (i: nat)
    requires multiset(s) == multiset(t) && s != []
    ensures i < |t| && t[i] == s[0]
    ensures multiset(s[1..]) == multiset(t[..i] + t[i + 1..])
  {
    SameElements(s, t);
    assert s[0] in s;
    i :| 0 <= i < |t| && t[i] == s[0];
    var rest := t[..i] + t[i + 1..];
    assert s == [s[0]] + s[1..];
    assert t == t[..i] + [t[i]] + t[i + 1..];
    assert multiset(s) == multiset{s[0]} + multiset(s[1..]);
    assert multiset(t) == multiset{t[i]} + multiset(rest);
    assert multiset(s[1..]) == multiset(s) - multiset{s[0]};
    assert multiset(rest) == multiset(t) - multiset{t[i]};
  }

  lemma {:induction false} DistinctPermutes<T>(s: seq<T>, t: seq<T>, key: T -> Key)
    requires DistinctKeys(s, key)
    requires multiset(s) == multiset(t)
    ensures DistinctKeys(t, key)
  {
    forall i, j | 0 <= i < j < |t| ensures key(t[i]) != key(t[j]) {
      SameElements(s, t);
      assert t[i] in t && t[j] in t;
      var a :| 0 <= a < |s| && s[a] == t[i];
      var b :| 0 <= b < |s| && s[b] == t[j];
      if a == b {
        TwiceCounts(t, i, j);
        Once(s, t[i], key);
        assert false;
      }
    }
  }

  lemma {:induction false} Once<T>(s: seq<T>, x: T, key: T -> Key)
    requires DistinctKeys(s, key)
    ensures multiset(s)[x] <= 1
  {
    if s != [] {
      Once(s[1..], x, key);
      assert s == [s[0]] + s[1..];
      assert forall k :: 1 <= k < |s| ==> key(s[0]) != key(s[k]);
      assert s[0] !in s[1..];
    }
  }

  lemma TwiceCounts<T>(t: seq<T>, i: int, j: int)
    requires 0 <= i < j < |t| && t[i] == t[j]
    ensures multiset(t)[t[i]] >= 2
  {
    assert t == t[..i + 1] + t[i + 1..];
    assert t[i] in t[..i + 1] && t[j] in t[i + 1..];
  }

  /** The ascending enumeration of a finite set, as a loop over a Go map yields after sorting. */
  function Enumerate(s: set<Key>): (r: seq<Key>)
    ensures forall k :: k in r <==> k in s
    ensures Ascends(r, Itself)
    ensures DistinctKeys(r, Itself)
    ensures |r| == |s|
  {
    if s == {} then []
    else
      var k := Least(s);
      var rest := Enumerate(s - {k});
      LeastFirst(s, k, rest);
      [k] + rest
  }

  lemma LeastFirst(s: set<Key>, k: Key, rest: seq<Key>)
    requires k in s && forall x :: x in s ==> x == k || Before(k, x)
    requires forall x :: x in rest <==> x in s - {k}
    requires Ascends(rest, Itself) && DistinctKeys(rest, Itself)
    ensures Ascends([k] + rest, Itself) && DistinctKeys([k] + rest, Itself)
  {
    var all := [k] + rest;
    forall i, j | 0 <= i < j < |all| ensures !Before(Itself(all[j]), Itself(all[i])) && Itself(all[i]) != Itself(all[j]) {
      assert all[j] == rest[j - 1] && rest[j - 1] in rest;
      if i == 0 {
        if Before(all[j], k) {
          BeforeTransitive(k, all[j], k);
          BeforeIrreflexive(k);
          assert false;
        }
      } else {
        assert all[i] == rest[i - 1];
      }
    }
  }

  function Least(s: set<Key>): (k: Key)
    requires s != {}
    ensures k in s && forall x :: x in s ==> x == k || Before(k, x)
  {
    BeforeOrder();
    LeastExists(s);
    var k :| k in s && forall x :: x in s ==> x == k || Before(k, x);
    k
  }

  lemma {:induction false} LeastExists(s: set<Key>)
    requires s != {}
    ensures exists k :: k in s && forall x :: x in s ==> x == k || Before(k, x)
  {
    var y :| y in s;
    var rest := s - {y};
    if rest == {} {
      assert forall x :: x in s ==> x == y || x in rest;
    } else {
      LeastExists(rest);
      var k :| k in rest && forall x :: x in rest ==> x == k || Before(k, x);
      BeforeTotal(y, k);
      var least := if Before(y, k) then y else k;
      forall x | x in s ensures x == least || Before(least, x) {
        if x != y && x != k && Before(y, k) {
          BeforeTransitive(y, k, x);
        }
      }
    }
  }

  lemma TailAscends(s: seq<string>)
    requires Ascends(s, Itself) && s != []
    ensures Ascends(s[1..], Itself)
  {
  }

  lemma TailCounts(s: seq<string>)
    requires s != []
    ensures multiset(s[1..]) == multiset(s) - multiset{s[0]}
  {
    assert s == [s[0]] + s[1..];
  }

  lemma {:induction false} SortedUnique(s: seq<string>, t: seq<string>)
    requires Ascends(s, Itself) && Ascends(t, Itself) && multiset(s) == multiset(t)
    ensures s == t
  {
    if s == [] {
      SameElements(s, t);
    } else {
      FirstLeast(s, t);
      FirstLeast(t, s);
      BeforeOrder();
      TailAscends(s);
      TailAscends(t);
      TailCounts(s);
      TailCounts(t);
      SortedUnique(s[1..], t[1..]);
      assert s == [s[0]] + s[1..] && t == [t[0]] + t[1..];
    }
  }

  lemma FirstLeast(s: seq<string>, t: seq<string>)
    requires Ascends(s, Itself) && multiset(s) == multiset(t) && s != []
    ensures t != [] && !Before(t[0], s[0])
  {
    SameElements(s, t);
    BeforeOrder();
    assert t[0] in t;
    var i :| 0 <= i < |s| && s[i] == t[0];
    assert i > 0 ==> !Before(Itself(s[i]), Itself(s[0]));
  }
}
