/** Strict total orders, and the one ascending listing of a finite set. */
module Orders {

  ghost predicate StrictTotal<T(!new)>(less: (T, T) -> bool) {
    && (forall x :: !less(x, x))
    && (forall x, y :: less(x, y) || less(y, x) || x == y)
    && (forall x, y, z :: less(x, y) && less(y, z) ==> less(x, z))
  }

  predicate Ascending<T>(less: (T, T) -> bool, s: seq<T>) {
    forall i, j | 0 <= i < j < |s| :: less(s[i], s[j])
  }

  function Elements<T>(s: seq<T>): set<T> {
    set i | 0 <= i < |s| :: s[i]
  }

  function Insert<T(==)>(less: (T, T) -> bool, s: seq<T>, x: T): seq<T> {
    if s == [] || less(s[|s| - 1], x) then s + [x] else Insert(less, s[..|s| - 1], x) + [s[|s| - 1]]
  }

  lemma {:induction false} InsertElements<T(!new)>(less: (T, T) -> bool, s: seq<T>, x: T)
    ensures Elements(Insert(less, s, x)) == Elements(s) + {x}
    ensures |Insert(less, s, x)| == |s| + 1
  {
    if !(s == [] || less(s[|s| - 1], x)) {
      InsertElements(less, s[..|s| - 1], x);
      ElementsSnoc(Insert(less, s[..|s| - 1], x), s[|s| - 1]);
      ElementsSnoc(s[..|s| - 1], s[|s| - 1]);
      assert s == s[..|s| - 1] + [s[|s| - 1]];
    } else {
      ElementsSnoc(s, x);
    }
  }

  lemma ElementsSnoc<T>(s: seq<T>, x: T)
    ensures Elements(s + [x]) == Elements(s) + {x}
  {
    var t := s + [x];
    forall y | y in Elements(s) + {x} ensures y in Elements(t) {
      if y == x {
        assert t[|s|] == x;
      } else {
        var i :| 0 <= i < |s| && s[i] == y;
        assert t[i] == y;
      }
    }
  }

  lemma {:induction false} InsertAscending<T(!new)>(less: (T, T) -> bool, s: seq<T>, x: T)
    requires StrictTotal(less) && Ascending(less, s) && x !in Elements(s)
    ensures Ascending(less, Insert(less, s, x))
  {
    if s == [] {
    } else if less(s[|s| - 1], x) {
      var t := s + [x];
      forall i, j | 0 <= i < j < |t| ensures less(t[i], t[j]) {
        if j == |s| && i < |s| - 1 {
          assert less(s[i], s[|s| - 1]);
        }
      }
    } else {
      var front, last := s[..|s| - 1], s[|s| - 1];
      assert s == front + [last];
      ElementsSnoc(front, last);
      InsertAscending(less, front, x);
      InsertElements(less, front, x);
      var t := Insert(less, front, x);
      forall i | 0 <= i < |t| ensures less(t[i], last) {
        assert t[i] in Elements(t);
        if t[i] != x {
          var k :| 0 <= k < |front| && front[k] == t[i];
          assert less(s[k], s[|s| - 1]);
        } else {
          assert last in Elements(s);
        }
      }
    }
  }

  lemma NoElements<T>(s: seq<T>)
    ensures Elements(s) == {} <==> s == []
  {
    if s != [] {
      assert s[0] in Elements(s);
    }
  }

  /** Two ascending listings of the same set are the same listing. */
  lemma {:induction false} AscendingUnique<T(!new)>(less: (T, T) -> bool, a: seq<T>, b: seq<T>)
    requires StrictTotal(less) && Ascending(less, a) && Ascending(less, b) && Elements(a) == Elements(b)
    ensures a == b
  {
    NoElements(a);
    NoElements(b);
    if a == [] {
    } else {
      var n, m := |a| - 1, |b| - 1;
      assert a[n] in Elements(a) && b[m] in Elements(b);
      var i :| 0 <= i < |b| && b[i] == a[n];
      var j :| 0 <= j < |a| && a[j] == b[m];
      assert a[n] == b[m];
      FrontElements(less, a);
      FrontElements(less, b);
      AscendingUnique(less, a[..n], b[..m]);
      assert a == a[..n] + [a[n]] && b == b[..m] + [b[m]];
    }
  }

  lemma FrontElements<T(!new)>(less: (T, T) -> bool, s: seq<T>)
    requires StrictTotal(less) && Ascending(less, s) && s != []
    ensures Elements(s[..|s| - 1]) == Elements(s) - {s[|s| - 1]}
  {
    var front, last := s[..|s| - 1], s[|s| - 1];
    assert s == front + [last];
    ElementsSnoc(front, last);
    forall i | 0 <= i < |front| ensures front[i] != last {
      assert less(s[i], s[|s| - 1]);
    }
  }

  /** The ascending listing of a finite set. */
  ghost function Listing<T(!new)>(less: (T, T) -> bool, elements: set<T>): (s: seq<T>)
    requires StrictTotal(less)
    ensures Ascending(less, s) && Elements(s) == elements
  {
    if elements == {} then
      []
    else
      var x :| x in elements;
      var rest := Listing(less, elements - {x});
      InsertElements(less, rest, x);
      InsertAscending(less, rest, x);
      Insert(less, rest, x)
  }

  predicate IntLess(a: int, b: int) { a < b }

  predicate CharLess(a: char, b: char) { a < b }

  /** Lexicographic order, as Python compares strings and tuples. */
  predicate SeqLess<T(==)>(less: (T, T) -> bool, a: seq<T>, b: seq<T>) {
    b != [] && (a == [] || less(a[0], b[0]) || (a[0] == b[0] && SeqLess(less, a[1..], b[1..])))
  }

  /** Equal up to some place, where the first ends or has the smaller element. */
  predicate LessFrom<T(==)>(less: (T, T) -> bool, a: seq<T>, b: seq<T>, k: nat) {
    k <= |a| && k < |b| && a[..k] == b[..k] && (k == |a| || less(a[k], b[k]))
  }

  lemma {:induction false} SeqLessIs<T(!new)>(less: (T, T) -> bool, a: seq<T>, b: seq<T>)
    ensures SeqLess(less, a, b) <==> exists k: nat :: LessFrom(less, a, b, k)
    decreases |a|
  {
    if b == [] {
    } else if a == [] {
      assert LessFrom(less, a, b, 0);
    } else {
      SeqLessIs(less, a[1..], b[1..]);
      assert a == [a[0]] + a[1..] && b == [b[0]] + b[1..];
      if less(a[0], b[0]) {
        assert LessFrom(less, a, b, 0);
      } else {
        if k: nat :| LessFrom(less, a[1..], b[1..], k) && a[0] == b[0] {
          assert a[..k + 1] == [a[0]] + a[1..][..k] && b[..k + 1] == [b[0]] + b[1..][..k];
          assert LessFrom(less, a, b, k + 1);
        }
        if k: nat :| LessFrom(less, a, b, k) {
          assert k > 0 && a[..k][0] == b[..k][0];
          assert a[1..][..k - 1] == a[..k][1..] && b[1..][..k - 1] == b[..k][1..];
          assert LessFrom(less, a[1..], b[1..], k - 1);
        }
      }
    }
  }

  /** Strings by their characters, the first difference deciding, and a prefix before what it begins. */
  lemma StringLessIs(a: string, b: string)
    ensures StringLess(a, b) <==>
            exists k: nat :: k <= |a| && k < |b| && a[..k] == b[..k] && (k == |a| || a[k] < b[k])
  {
    SeqLessIs(CharLess, a, b);
    if k: nat :| k <= |a| && k < |b| && a[..k] == b[..k] && (k == |a| || a[k] < b[k]) {
      assert LessFrom(CharLess, a, b, k);
    }
    if k: nat :| LessFrom(CharLess, a, b, k) {
      assert k <= |a| && k < |b| && a[..k] == b[..k] && (k == |a| || a[k] < b[k]);
    }
  }

  predicate StringLess(a: string, b: string) { SeqLess(CharLess, a, b) }

  predicate TupleLess(a: seq<string>, b: seq<string>) { SeqLess(StringLess, a, b) }

  lemma {:induction false} SeqLessLaws<T(!new)>(less: (T, T) -> bool, a: seq<T>, b: seq<T>, c: seq<T>)
    requires StrictTotal(less)
    ensures !SeqLess(less, a, a)
    ensures SeqLess(less, a, b) || SeqLess(less, b, a) || a == b
    ensures SeqLess(less, a, b) && SeqLess(less, b, c) ==> SeqLess(less, a, c)
    decreases |a|
  {
    if a == [] {
    } else {
      SeqLessLaws(less, a[1..], if b == [] then [] else b[1..], if c == [] then [] else c[1..]);
      assert a == [a[0]] + a[1..];
      assert b != [] ==> b == [b[0]] + b[1..];
    }
  }

  lemma StringOrder()
    ensures StrictTotal(StringLess)
  {
    assert StrictTotal(CharLess);
    forall a: string, b: string, c: string
      ensures !StringLess(a, a)
      ensures StringLess(a, b) || StringLess(b, a) || a == b
      ensures StringLess(a, b) && StringLess(b, c) ==> StringLess(a, c)
    {
      SeqLessLaws(CharLess, a, b, c);
    }
  }

  lemma TupleOrder()
    ensures StrictTotal(TupleLess)
  {
    StringOrder();
    forall a: seq<string>, b: seq<string>, c: seq<string>
      ensures !TupleLess(a, a)
      ensures TupleLess(a, b) || TupleLess(b, a) || a == b
      ensures TupleLess(a, b) && TupleLess(b, c) ==> TupleLess(a, c)
    {
      SeqLessLaws(StringLess, a, b, c);
    }
  }

  /** sorted(keys) */
  method Sorted<T(==,!new)>(less: (T, T) -> bool, keys: set<T>) returns (listed: seq<T>)
    requires StrictTotal(less)
    ensures listed == Listing(less, keys)
  {
    listed := [];
    var rest := keys;
    while exists key :: key in rest
      invariant rest <= keys && Ascending(less, listed) && Elements(listed) == keys - rest
      decreases rest
    {
      var key :| key in rest;
      InsertElements(less, listed, key);
      InsertAscending(less, listed, key);
      listed := Insert(less, listed, key);
      rest := rest - {key};
    }
    AscendingUnique(less, listed, Listing(less, keys));
  }
}
