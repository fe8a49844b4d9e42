/**
 * Keyed sequences: the `filter(x => x.id !== id)` idiom that the quotation
 * form uses both for its line items and for its saved quotes.
 */
module Lists {

  /** Some element of `s` carries key `k`. */
  predicate HasKey<T, K(==)>(s: seq<T>, key: T -> K, k: K) {
    exists i :: 0 <= i < |s| && key(s[i]) == k
  }

  /** No two elements of `s` carry the same key. */
  predicate UniqueKeys<T, K(==)>(s: seq<T>, key: T -> K) {
    forall i, j :: 0 <= i < j < |s| ==> key(s[i]) != key(s[j])
  }

  /** `s` with every element whose key is `k` dropped, the rest in their original order. */
  function Without<T, K(==)>(s: seq<T>, key: T -> K, k: K): (r: seq<T>)
    ensures |r| <= |s|
    ensures forall x :: x in r ==> x in s && key(x) != k
    ensures forall i :: 0 <= i < |s| && key(s[i]) != k ==> s[i] in r
  {
    if s == [] then []
    else
      var rest := Without(s[1..], key, k);
      assert forall i :: 1 <= i < |s| ==> s[i] == s[1..][i - 1];
      if key(s[0]) == k then rest else [s[0]] + rest
  }

  /** Dropping a key that no element carries changes nothing. */
  lemma {:induction false} WithoutAbsent<T, K>(s: seq<T>, key: T -> K, k: K)
    requires !HasKey(s, key, k)
    ensures Without(s, key, k) == s
  {
    if s != [] {
      assert key(s[0]) != k;
      assert !HasKey(s[1..], key, k) by {
        forall i | 0 <= i < |s[1..]| ensures key(s[1..][i]) != k {
          assert s[1..][i] == s[i + 1];
        }
      }
      WithoutAbsent(s[1..], key, k);
      assert s == [s[0]] + s[1..];
    }
  }

  /** Filtering distributes over concatenation, which pins down the order it keeps. */
  lemma {:induction false} WithoutAppend<T, K>(a: seq<T>, b: seq<T>, key: T -> K, k: K)
    ensures Without(a + b, key, k) == Without(a, key, k) + Without(b, key, k)
  {
    if a == [] {
      assert a + b == b;
    } else {
      assert (a + b)[0] == a[0];
      assert (a + b)[1..] == a[1..] + b;
      WithoutAppend(a[1..], b, key, k);
    }
  }

  /**
   * With unique keys, dropping the key of the element at `j` removes exactly that
   * element: the result is everything before it followed by everything after it.
   */
  lemma WithoutUnique<T, K>(s: seq<T>, key: T -> K, j: int)
    requires UniqueKeys(s, key)
    requires 0 <= j < |s|
    ensures Without(s, key, key(s[j])) == s[..j] + s[j + 1..]
    ensures |Without(s, key, key(s[j]))| == |s| - 1
  {
    var k := key(s[j]);
    assert s == s[..j] + ([s[j]] + s[j + 1..]);
    assert !HasKey(s[..j], key, k) by {
      forall i | 0 <= i < j ensures key(s[..j][i]) != k {
        assert s[..j][i] == s[i];
      }
    }
    var after := s[j + 1..];
    assert !HasKey(after, key, k) by {
      forall i | 0 <= i < |after| ensures key(after[i]) != k {
        assert after[i] == s[j + 1 + i];
      }
    }
    WithoutAppend(s[..j], [s[j]] + s[j + 1..], key, k);
    WithoutAppend([s[j]], s[j + 1..], key, k);
    WithoutAbsent(s[..j], key, k);
    WithoutAbsent(s[j + 1..], key, k);
    assert Without([s[j]], key, k) == [];
  }

  /** Filtering never creates a duplicate key. */
  lemma {:induction false} WithoutKeepsUnique<T, K>(s: seq<T>, key: T -> K, k: K)
    requires UniqueKeys(s, key)
    ensures UniqueKeys(Without(s, key, k), key)
  {
    if s != [] {
      var tail := s[1..];
      assert UniqueKeys(tail, key) by {
        forall i, j | 0 <= i < j < |tail| ensures key(tail[i]) != key(tail[j]) {
          assert tail[i] == s[i + 1] && tail[j] == s[j + 1];
        }
      }
      WithoutKeepsUnique(tail, key, k);
      var rest := Without(tail, key, k);
      if key(s[0]) != k {
        forall x | x in rest ensures key(x) != key(s[0]) {
          assert x in tail;
          var i :| 0 <= i < |tail| && tail[i] == x;
          assert tail[i] == s[i + 1];
        }
        var r := [s[0]] + rest;
        forall i, j | 0 <= i < j < |r| ensures key(r[i]) != key(r[j]) {
          if i == 0 {
            assert r[j] == rest[j - 1] && r[j] in rest;
          } else {
            assert r[i] == rest[i - 1] && r[j] == rest[j - 1];
          }
        }
      }
    }
  }
}
