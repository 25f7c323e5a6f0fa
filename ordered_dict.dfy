/** Python's `dict` as the services use it: an association list in insertion
    order. Assigning to a key that is already present replaces its value in
    place and keeps its position; assigning to a new key appends it; `del`
    removes the key. `values()` and iteration follow that order. */
module OrderedDict {
  import opened Common

  type Dict<V> = seq<(string, V)>

  predicate KeysDistinct<V>(d: Dict<V>)
  {
    forall i, j :: 0 <= i < j < |d| ==> d[i].0 != d[j].0
  }

  function Keys<V>(d: Dict<V>): (r: seq<string>)
    ensures |r| == |d| && forall i :: 0 <= i < |d| ==> r[i] == d[i].0
  {
    seq(|d|, i requires 0 <= i < |d| => d[i].0)
  }

  /** `d.values()`. */
  function Values<V>(d: Dict<V>): (r: seq<V>)
    ensures |r| == |d| && forall i :: 0 <= i < |d| ==> r[i] == d[i].1
  {
    seq(|d|, i requires 0 <= i < |d| => d[i].1)
  }

  /** `k in d`. */
  predicate HasKey<V>(d: Dict<V>, k: string)
  {
    exists i :: 0 <= i < |d| && d[i].0 == k
  }

  /** `d.get(k)`. */
  function Get<V>(d: Dict<V>, k: string): Option<V>
  {
    if d == [] then None
    else if d[0].0 == k then Some(d[0].1)
    else Get(d[1..], k)
  }

  /** `d[k] = v`. */
  function Put<V>(d: Dict<V>, k: string, v: V): Dict<V>
  {
    if d == [] then [(k, v)]
    else if d[0].0 == k then [(k, v)] + d[1..]
    else [d[0]] + Put(d[1..], k, v)
  }

  /** `del d[k]` (a missing key leaves `d` as it is). */
  function Remove<V>(d: Dict<V>, k: string): Dict<V>
  {
    if d == [] then []
    else if d[0].0 == k then Remove(d[1..], k)
    else [d[0]] + Remove(d[1..], k)
  }

  // ---------------------------------------------------------------------
  // Lookup

  /** `get` finds exactly the keys that are present. */
  lemma {:induction false} GetSomeIffHasKey<V>(d: Dict<V>, k: string)
    ensures Get(d, k).Some? <==> HasKey(d, k)
  {
    if d != [] && d[0].0 != k {
      GetSomeIffHasKey(d[1..], k);
      assert Keys(d) == [d[0].0] + Keys(d[1..]);
    }
  }

  /** With distinct keys, `get` returns the value stored beside the key. */
  lemma {:induction false} GetAt<V>(d: Dict<V>, i: int)
    requires KeysDistinct(d) && 0 <= i < |d|
    ensures Get(d, d[i].0) == Some(d[i].1)
  {
    if i > 0 {
      GetAt(d[1..], i - 1);
    }
  }

  /** A value that `get` returns was stored under that key. */
  lemma {:induction false} GetSomeIsStored<V>(d: Dict<V>, k: string)
    requires Get(d, k).Some?
    ensures (k, Get(d, k).value) in d
  {
    if d[0].0 != k {
      GetSomeIsStored(d[1..], k);
    }
  }

  // ---------------------------------------------------------------------
  // Assignment

  /** After `d[k] = v`, `k` maps to `v` and every other key maps to what it
      did before. */
  lemma {:induction false} GetPut<V>(d: Dict<V>, k: string, v: V, k': string)
    ensures Get(Put(d, k, v), k') == if k' == k then Some(v) else Get(d, k')
  {
    if d != [] && d[0].0 != k {
      GetPut(d[1..], k, v, k');
    }
  }

  /** The keys after `d[k] = v` are the old keys and `k`. */
  lemma HasKeyPut<V>(d: Dict<V>, k: string, v: V, k': string)
    ensures HasKey(Put(d, k, v), k') <==> k' == k || HasKey(d, k')
  {
    GetPut(d, k, v, k');
    GetSomeIffHasKey(Put(d, k, v), k');
    GetSomeIffHasKey(d, k');
  }

  /** Assigning to a new key appends it at the end. */
  lemma {:induction false} PutNewAppends<V>(d: Dict<V>, k: string, v: V)
    requires !HasKey(d, k)
    ensures Put(d, k, v) == d + [(k, v)]
  {
    if d != [] {
      assert Keys(d) == [d[0].0] + Keys(d[1..]);
      PutNewAppends(d[1..], k, v);
    }
  }

  /** Assigning to a present key keeps every position: only the value at
      that key's position changes. */
  lemma {:induction false} PutExistingInPlace<V>(d: Dict<V>, i: int, v: V)
    requires KeysDistinct(d) && 0 <= i < |d|
    ensures Put(d, d[i].0, v) == d[i := (d[i].0, v)]
  {
    var k := d[i].0;
    if i == 0 {
      assert Put(d, k, v) == [(k, v)] + d[1..];
    } else {
      assert d[0].0 != k;
      PutExistingInPlace(d[1..], i - 1, v);
      assert Put(d, k, v) == [d[0]] + d[1..][i - 1 := (k, v)];
    }
  }

  /** Assignment grows the dictionary by one entry exactly when the key is
      new. */
  lemma {:induction false} PutLength<V>(d: Dict<V>, k: string, v: V)
    ensures |Put(d, k, v)| == if HasKey(d, k) then |d| else |d| + 1
  {
    if d != [] && d[0].0 != k {
      PutLength(d[1..], k, v);
      if HasKey(d, k) {
        var m :| 0 <= m < |d| && d[m].0 == k;
        assert d[1..][m - 1].0 == k;
      } else {
        assert !HasKey(d[1..], k) by {
          forall m | 0 <= m < |d[1..]| ensures d[1..][m].0 != k {
            assert d[m + 1].0 != k;
          }
        }
      }
    }
  }

  /** Every key after `d[k] = v` is `k` or a key that was already present. */
  lemma {:induction false} KeysOfPut<V>(d: Dict<V>, k: string, v: V, j: int)
    requires 0 <= j < |Put(d, k, v)|
    ensures Put(d, k, v)[j].0 == k || HasKey(d, Put(d, k, v)[j].0)
  {
    if d != [] && j > 0 {
      if d[0].0 == k {
        assert Put(d, k, v)[j] == d[j];
      } else {
        KeysOfPut(d[1..], k, v, j - 1);
        var key := Put(d, k, v)[j].0;
        if key != k {
          var m :| 0 <= m < |d[1..]| && d[1..][m].0 == key;
          assert d[m + 1].0 == key;
        }
      }
    }
  }

  /** Every entry after `d[k] = v` is the new one or an entry of `d`. */
  lemma {:induction false} EntriesOfPut<V>(d: Dict<V>, k: string, v: V, j: int)
    requires 0 <= j < |Put(d, k, v)|
    ensures Put(d, k, v)[j] == (k, v) || Put(d, k, v)[j] in d
  {
    if d != [] && j > 0 {
      if d[0].0 == k {
        assert Put(d, k, v)[j] == d[j];
      } else {
        EntriesOfPut(d[1..], k, v, j - 1);
        assert Put(d, k, v)[j] == Put(d[1..], k, v)[j - 1];
      }
    }
  }

  lemma {:induction false} PutKeepsKeysDistinct<V>(d: Dict<V>, k: string, v: V)
    requires KeysDistinct(d)
    ensures KeysDistinct(Put(d, k, v))
  {
    if d != [] {
      var r := Put(d, k, v);
      if d[0].0 == k {
        assert r == [(k, v)] + d[1..];
      } else {
        PutKeepsKeysDistinct(d[1..], k, v);
        assert r == [d[0]] + Put(d[1..], k, v);
        forall j | 0 < j < |r| ensures r[0].0 != r[j].0 {
          KeysOfPut(d[1..], k, v, j - 1);
          if r[j].0 != k {
            var m :| 0 <= m < |d[1..]| && d[1..][m].0 == r[j].0;
            assert d[m + 1].0 == r[j].0;
          }
        }
      }
    }
  }

  // ---------------------------------------------------------------------
  // Deletion

  lemma {:induction false} GetRemove<V>(d: Dict<V>, k: string, k': string)
    ensures Get(Remove(d, k), k') == if k' == k then None else Get(d, k')
  {
    if d != [] {
      GetRemove(d[1..], k, k');
    }
  }

  /** Deleting a key keeps exactly the entries under other keys (their order
      is `RemoveKeepsOrder`). */
  lemma {:induction false} RemoveFilters<V>(d: Dict<V>, k: string)
    ensures forall e :: e in Remove(d, k) <==> e in d && e.0 != k
    ensures |Remove(d, k)| <= |d|
  {
    if d != [] {
      RemoveFilters(d[1..], k);
    }
  }

  /** Deleting a key keeps the other entries in their order: it works entry
      by entry, dropping an entry under `k` and keeping any other, so the
      result of a concatenation is the concatenation of the results. */
  lemma {:induction false} RemoveKeepsOrder<V>(a: Dict<V>, b: Dict<V>, k: string)
    ensures Remove(a + b, k) == Remove(a, k) + Remove(b, k)
    ensures |a| == 1 ==> Remove(a, k) == if a[0].0 == k then [] else a
  {
    if a == [] {
      assert a + b == b;
    } else {
      assert (a + b)[0] == a[0];
      assert (a + b)[1..] == a[1..] + b;
      RemoveKeepsOrder(a[1..], b, k);
      if |a| == 1 {
        assert a[1..] == [];
      }
    }
  }

  /** Deleting an absent key changes nothing. */
  lemma {:induction false} RemoveAbsent<V>(d: Dict<V>, k: string)
    requires !HasKey(d, k)
    ensures Remove(d, k) == d
  {
    if d != [] {
      assert d[0].0 != k;
      assert !HasKey(d[1..], k) by {
        forall m | 0 <= m < |d[1..]| ensures d[1..][m].0 != k {
          assert d[m + 1].0 != k;
        }
      }
      RemoveAbsent(d[1..], k);
    }
  }

  /** With distinct keys, deleting a present key removes exactly one entry. */
  lemma {:induction false} RemovePresentSize<V>(d: Dict<V>, k: string)
    requires KeysDistinct(d) && HasKey(d, k)
    ensures |Remove(d, k)| == |d| - 1
  {
    if d[0].0 == k {
      assert !HasKey(d[1..], k) by {
        forall j | 0 <= j < |d[1..]| ensures d[1..][j].0 != k {
          assert d[j + 1].0 != d[0].0;
        }
      }
      RemoveAbsent(d[1..], k);
    } else {
      var m :| 0 <= m < |d| && d[m].0 == k;
      assert d[1..][m - 1].0 == k;
      RemovePresentSize(d[1..], k);
    }
  }

  /** Every entry left after `del d[k]` was an entry of `d` with another key. */
  lemma {:induction false} EntriesOfRemove<V>(d: Dict<V>, k: string, j: int)
    requires 0 <= j < |Remove(d, k)|
    ensures Remove(d, k)[j].0 != k
    ensures exists m :: 0 <= m < |d| && d[m] == Remove(d, k)[j]
  {
    if d[0].0 == k {
      EntriesOfRemove(d[1..], k, j);
      var m :| 0 <= m < |d[1..]| && d[1..][m] == Remove(d, k)[j];
      assert d[m + 1] == Remove(d, k)[j];
    } else if j > 0 {
      EntriesOfRemove(d[1..], k, j - 1);
      var m :| 0 <= m < |d[1..]| && d[1..][m] == Remove(d, k)[j];
      assert d[m + 1] == Remove(d, k)[j];
    } else {
      assert d[0] == Remove(d, k)[j];
    }
  }

  lemma {:induction false} RemoveKeepsKeysDistinct<V>(d: Dict<V>, k: string)
    requires KeysDistinct(d)
    ensures KeysDistinct(Remove(d, k))
  {
    if d != [] {
      RemoveKeepsKeysDistinct(d[1..], k);
      if d[0].0 != k {
        var r := Remove(d, k);
        assert r == [d[0]] + Remove(d[1..], k);
        forall j | 0 < j < |r| ensures r[0].0 != r[j].0 {
          EntriesOfRemove(d[1..], k, j - 1);
          var m :| 0 <= m < |d[1..]| && d[1..][m] == r[j];
          assert d[m + 1] == r[j];
        }
      }
    }
  }
}
