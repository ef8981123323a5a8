/** Dictionaries as sorted lists of pairs: how the verification-plan tool makes its files stable
    (prep_to_save), and how it gets the dictionaries back (post_load). */
module VpSorted {
  import opened VpNumbers

  /** `sorted(m.items(), key = first)`. */
  ghost predicate SortedItems<V(!new)>(m: map<string, V>, s: seq<(string, V)>) {
    && (forall i, j :: 0 <= i < j < |s| ==> Before(s[i].0, s[j].0))
    && (forall i :: 0 <= i < |s| ==> s[i].0 in m && m[s[i].0] == s[i].1)
    && (forall k :: k in m ==> HasKey(s, k))
  }

  ghost predicate HasKey<V(!new)>(s: seq<(string, V)>, k: string) {
    exists i :: 0 <= i < |s| && s[i].0 == k
  }

  /** Storing the pairs one after the other into a dictionary. */
  function Stored<V>(m: map<string, V>, s: seq<(string, V)>): map<string, V> {
    if s == [] then m else Stored(m, s[..|s| - 1])[s[|s| - 1].0 := s[|s| - 1].1]
  }

  lemma {:induction false} StoredKeys<V(!new)>(s: seq<(string, V)>, k: string)
    ensures k in Stored(map[], s) <==> HasKey(s, k)
  {
    if s != [] {
      var n := |s| - 1;
      StoredKeys(s[..n], k);
      if HasKey(s[..n], k) {
        var i :| 0 <= i < n && s[..n][i].0 == k;
        assert s[i].0 == k;
      }
      if HasKey(s, k) && s[n].0 != k {
        var i :| 0 <= i < |s| && s[i].0 == k;
        assert s[..n][i].0 == k;
      }
    }
  }

  lemma {:induction false} StoredValues<V(!new)>(m: map<string, V>, s: seq<(string, V)>, k: string)
    requires forall i :: 0 <= i < |s| ==> s[i].0 in m && m[s[i].0] == s[i].1
    requires k in Stored(map[], s)
    ensures k in m && Stored(map[], s)[k] == m[k]
  {
    if s != [] {
      var n := |s| - 1;
      if k != s[n].0 {
        StoredValues(m, s[..n], k);
      }
    }
  }

  /** The sorted list gives the dictionary back. */
  lemma SortedGivesBack<V(!new)>(m: map<string, V>, s: seq<(string, V)>)
    requires SortedItems(m, s)
    ensures Stored(map[], s) == m
  {
    forall k ensures k in Stored(map[], s) <==> k in m {
      StoredKeys(s, k);
    }
    forall k | k in m ensures Stored(map[], s)[k] == m[k] {
      StoredValues(m, s, k);
    }
  }

  /** There is one sorted list. */
  lemma {:induction false} SortedOnce<V(!new)>(m: map<string, V>, s: seq<(string, V)>, t: seq<(string, V)>)
    requires SortedItems(m, s) && SortedItems(m, t)
    ensures s == t
    decreases |s|
  {
    NoItems(m, s);
    NoItems(m, t);
    if s != [] {
      FirstIsSame(m, s, t);
      RestSorted(m, s);
      RestSorted(m, t);
      SortedOnce(m - {s[0].0}, s[1..], t[1..]);
    }
  }

  lemma NoItems<V(!new)>(m: map<string, V>, s: seq<(string, V)>)
    requires SortedItems(m, s)
    ensures s == [] <==> m == map[]
  {
    if s == [] {
      forall k ensures k !in m {
        assert !HasKey(s, k);
      }
    } else {
      assert s[0].0 in m;
    }
  }

  lemma FirstIsSame<V(!new)>(m: map<string, V>, s: seq<(string, V)>, t: seq<(string, V)>)
    requires SortedItems(m, s) && SortedItems(m, t) && s != [] && t != []
    ensures s[0] == t[0]
  {
    assert s[0].0 in m && t[0].0 in m && HasKey(t, s[0].0) && HasKey(s, t[0].0);
    var i :| 0 <= i < |t| && t[i].0 == s[0].0;
    var j :| 0 <= j < |s| && s[j].0 == t[0].0;
    OneIsBefore(s[0].0, t[0].0);
  }

  lemma RestSorted<V(!new)>(m: map<string, V>, s: seq<(string, V)>)
    requires SortedItems(m, s) && s != []
    ensures SortedItems(m - {s[0].0}, s[1..])
  {
    forall i | 0 <= i < |s[1..]| ensures s[1..][i].0 in m - {s[0].0} && (m - {s[0].0})[s[1..][i].0] == s[1..][i].1 {
      OneIsBefore(s[0].0, s[i + 1].0);
    }
    forall k | k in m - {s[0].0} ensures HasKey(s[1..], k) {
      assert HasKey(s, k);
      var i :| 0 <= i < |s| && s[i].0 == k;
      assert s[1..][i - 1].0 == k;
    }
  }

  ghost predicate IsMin(key: string, keys: set<string>) {
    key in keys && forall k :: k in keys ==> k == key || Before(key, k)
  }

  method MinKey(keys: set<string>) returns (key: string)
    requires keys != {}
    ensures IsMin(key, keys)
  {
    key :| key in keys;
    var todo := keys - {key};
    while todo != {}
      invariant todo <= keys && key in keys
      invariant forall k :: k in keys - todo ==> k == key || Before(key, k)
      decreases todo
    {
      var k :| k in todo;
      OneIsBefore(key, k);
      if Before(k, key) {
        forall j | j in keys - todo ensures j == k || Before(k, j) {
          if j != key {
            BeforeTransitive(k, key, j);
          }
        }
        key := k;
      }
      todo := todo - {k};
    }
  }

  /** What is taken from the front is in order, what is left comes after it. */
  ghost predicate Taken<V(!new)>(m: map<string, V>, s: seq<(string, V)>, todo: set<string>) {
    && todo <= m.Keys
    && (forall i, j :: 0 <= i < j < |s| ==> Before(s[i].0, s[j].0))
    && (forall i :: 0 <= i < |s| ==> s[i].0 in m && m[s[i].0] == s[i].1)
    && (forall i, k :: 0 <= i < |s| && k in todo ==> Before(s[i].0, k))
    && (forall k :: k in m && k !in todo ==> HasKey(s, k))
  }

  lemma TakeOne<V(!new)>(m: map<string, V>, s: seq<(string, V)>, todo: set<string>, key: string)
    requires Taken(m, s, todo) && IsMin(key, todo)
    ensures Taken(m, s + [(key, m[key])], todo - {key})
  {
    var s' := s + [(key, m[key])];
    forall k | k in m && k !in todo - {key} ensures HasKey(s', k) {
      if k == key {
        assert s'[|s|].0 == k;
      } else {
        assert HasKey(s, k);
        var i :| 0 <= i < |s| && s[i].0 == k;
        assert s'[i].0 == k;
      }
    }
  }

  method SortItems<V(!new)>(m: map<string, V>) returns (s: seq<(string, V)>)
    ensures SortedItems(m, s)
  {
    s := [];
    var todo := m.Keys;
    while todo != {}
      invariant Taken(m, s, todo)
      decreases todo
    {
      var key := MinKey(todo);
      TakeOne(m, s, todo, key);
      s := s + [(key, m[key])];
      todo := todo - {key};
    }
  }

  /** The same for a dictionary with every value converted. */
  function Converted<V, U>(m: map<string, V>, f: V -> U): map<string, U> {
    map k | k in m :: f(m[k])
  }

  function ConvertedList<V, U>(s: seq<(string, V)>, f: V -> U): seq<(string, U)> {
    seq(|s|, i requires 0 <= i < |s| => (s[i].0, f(s[i].1)))
  }

  lemma ConvertedSorted<V(!new), U(!new)>(m: map<string, V>, s: seq<(string, V)>, f: V -> U)
    requires SortedItems(m, s)
    ensures SortedItems(Converted(m, f), ConvertedList(s, f))
  {
    var t := ConvertedList(s, f);
    forall k | k in m ensures HasKey(t, k) {
      assert HasKey(s, k);
      var i :| 0 <= i < |s| && s[i].0 == k;
      assert t[i].0 == k;
    }
  }

  /** Storing what is there already changes nothing. */
  lemma {:induction false} StoredAgain<V(!new)>(m: map<string, V>, s: seq<(string, V)>)
    requires forall i :: 0 <= i < |s| ==> s[i].0 in m && m[s[i].0] == s[i].1
    ensures Stored(m, s) == m
  {
    if s != [] {
      StoredAgain(m, s[..|s| - 1]);
    }
  }

  lemma {:induction false} StoredMerge<V>(m: map<string, V>, s: seq<(string, V)>)
    ensures Stored(m, s) == m + Stored(map[], s)
  {
    if s != [] {
      StoredMerge(m, s[..|s| - 1]);
    }
  }

  /** Storing over a dictionary with the same keys. */
  lemma StoredOver<V(!new)>(before: seq<(string, V)>, s: seq<(string, V)>)
    requires |before| == |s| && forall i :: 0 <= i < |s| ==> before[i].0 == s[i].0
    ensures Stored(Stored(map[], before), s) == Stored(map[], s)
  {
    StoredMerge(Stored(map[], before), s);
    forall k | k in Stored(map[], before) ensures k in Stored(map[], s) {
      StoredKeys(before, k);
      StoredKeys(s, k);
      var i :| 0 <= i < |before| && before[i].0 == k;
      assert s[i].0 == k;
    }
  }
}
