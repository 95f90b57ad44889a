/**
 * In-memory stand-ins for the record store's table operations, over a table
 * held as a sequence of rows: `find`, `filter`, `.update(...).eq(key, id)`,
 * `.delete().eq(key, id)`. `key` gives a row's id column.
 */
module Tables {
  import opened Wrappers

  /** `t.find(x => key(x) === id)`: the first row with that id, if any. */
  function FindById<T>(t: seq<T>, key: T -> int, id: int): (r: Option<T>)
    ensures r.Some? ==> r.value in t && key(r.value) == id
    ensures r.None? <==> forall x :: x in t ==> key(x) != id
  {
    if t == [] then None
    else if key(t[0]) == id then Some(t[0])
    else FindById(t[1..], key, id)
  }

  /** `t.filter(p)`: the rows satisfying `p`, in their order. */
  function Filter<T>(t: seq<T>, p: T -> bool): (r: seq<T>)
    ensures forall x :: x in r ==> x in t && p(x)
    ensures forall x :: x in t && p(x) ==> x in r
    ensures |r| <= |t|
  {
    if t == [] then []
    else if p(t[0]) then [t[0]] + Filter(t[1..], p)
    else Filter(t[1..], p)
  }

  /** `.update(f).eq(key, id)`: every row with that id is rewritten by `f`, every other row stays. */
  function UpdateById<T>(t: seq<T>, key: T -> int, id: int, f: T -> T): (r: seq<T>)
    ensures |r| == |t|
    ensures forall i :: 0 <= i < |t| ==> r[i] == if key(t[i]) == id then f(t[i]) else t[i]
  {
    if t == [] then []
    else [if key(t[0]) == id then f(t[0]) else t[0]] + UpdateById(t[1..], key, id, f)
  }

  /** `.delete().eq(key, id)`: the rows with that id are gone, the others remain in their order. */
  function DeleteById<T>(t: seq<T>, key: T -> int, id: int): (r: seq<T>)
    ensures forall x :: x in r ==> x in t && key(x) != id
    ensures forall x :: x in t && key(x) != id ==> x in r
    ensures IsSubsequence(r, t)
  {
    if t == [] then []
    else if key(t[0]) == id then DeleteById(t[1..], key, id)
    else [t[0]] + DeleteById(t[1..], key, id)
  }

  /** `a` is `b` with some elements left out: every element of `a` appears in `b`, in the same order. */
  ghost predicate IsSubsequence<T>(a: seq<T>, b: seq<T>)
    decreases |b|
  {
    a == [] || (b != [] && ((a[0] == b[0] && IsSubsequence(a[1..], b[1..])) || IsSubsequence(a, b[1..])))
  }

  lemma {:induction false} FilterIsSubsequence<T>(t: seq<T>, p: T -> bool)
    ensures IsSubsequence(Filter(t, p), t)
  {
    if t != [] {
      FilterIsSubsequence(t[1..], p);
      if p(t[0]) {
        assert Filter(t, p)[1..] == Filter(t[1..], p);
      }
    }
  }

  /** Every pair of rows, earlier first, is in order `le`. */
  ghost predicate SortedBy<T>(t: seq<T>, le: (T, T) -> bool) {
    forall i, j :: 0 <= i < j < |t| ==> le(t[i], t[j])
  }

  lemma {:induction false} FilterKeepsSorted<T>(t: seq<T>, p: T -> bool, le: (T, T) -> bool)
    requires SortedBy(t, le)
    ensures SortedBy(Filter(t, p), le)
  {
    if t != [] {
      var rest := Filter(t[1..], p);
      assert SortedBy(t[1..], le) by {
        forall i, j | 0 <= i < j < |t| - 1 ensures le(t[1..][i], t[1..][j]) {
          assert t[1..][i] == t[i + 1] && t[1..][j] == t[j + 1];
        }
      }
      FilterKeepsSorted(t[1..], p, le);
      if p(t[0]) {
        var r := [t[0]] + rest;
        forall i, j | 0 <= i < j < |r| ensures le(r[i], r[j]) {
          if i == 0 {
            assert r[j] in t[1..];
            var k :| 0 <= k < |t| - 1 && t[1..][k] == r[j];
            assert le(t[0], t[k + 1]);
          } else {
            assert r[i] == rest[i - 1] && r[j] == rest[j - 1];
          }
        }
      }
    }
  }

  /** No two rows share an id. */
  ghost predicate UniqueIds<T>(t: seq<T>, key: T -> int) {
    forall i, j :: 0 <= i < j < |t| ==> key(t[i]) != key(t[j])
  }

  lemma {:induction false} DeleteKeepsUniqueIds<T>(t: seq<T>, key: T -> int, id: int)
    requires UniqueIds(t, key)
    ensures UniqueIds(DeleteById(t, key, id), key)
  {
    if t != [] {
      UniqueIdsTail(t, key);
      DeleteKeepsUniqueIds(t[1..], key, id);
      var rest := DeleteById(t[1..], key, id);
      if key(t[0]) != id {
        var r := [t[0]] + rest;
        forall i, j | 0 <= i < j < |r| ensures key(r[i]) != key(r[j]) {
          assert r[j] == rest[j - 1] && rest[j - 1] in rest;
          if i > 0 {
            assert r[i] == rest[i - 1];
          }
        }
      }
    }
  }

  lemma UniqueIdsTail<T>(t: seq<T>, key: T -> int)
    requires t != [] && UniqueIds(t, key)
    ensures UniqueIds(t[1..], key)
    ensures forall x :: x in t[1..] ==> key(x) != key(t[0])
  {
    forall i, j | 0 <= i < j < |t| - 1 ensures key(t[1..][i]) != key(t[1..][j]) {
      assert t[1..][i] == t[i + 1] && t[1..][j] == t[j + 1];
    }
    forall x | x in t[1..] ensures key(x) != key(t[0]) {
      var k :| 0 <= k < |t| - 1 && t[1..][k] == x;
      assert t[k + 1] == x;
    }
  }

  /** Deleting an id no row has changes nothing. */
  lemma {:induction false} DeleteAbsentId<T>(t: seq<T>, key: T -> int, id: int)
    requires forall x :: x in t ==> key(x) != id
    ensures DeleteById(t, key, id) == t
  {
    if t != [] {
      assert forall x :: x in t[1..] ==> x in t;
      DeleteAbsentId(t[1..], key, id);
      assert t == [t[0]] + t[1..];
    }
  }

  /** With unique ids, the delete removes at most one row. */
  lemma {:induction false} DeleteRemovesAtMostOne<T>(t: seq<T>, key: T -> int, id: int)
    requires UniqueIds(t, key)
    ensures |DeleteById(t, key, id)| >= |t| - 1
  {
    if t != [] {
      UniqueIdsTail(t, key);
      if key(t[0]) == id {
        DeleteAbsentId(t[1..], key, id);
      } else {
        DeleteRemovesAtMostOne(t[1..], key, id);
      }
    }
  }

  /** An update that keeps each row's id keeps the ids unique. */
  lemma UpdateKeepsUniqueIds<T>(t: seq<T>, key: T -> int, id: int, f: T -> T)
    requires UniqueIds(t, key)
    requires forall x :: key(f(x)) == key(x)
    ensures UniqueIds(UpdateById(t, key, id, f), key)
  {
  }

  /** With unique ids, looking up a row's id finds that very row. */
  /** `find` returns the first row with the id: the row at `i`, when no row before it has that id. */
  lemma {:induction false} FindByIdIsFirst<T>(t: seq<T>, key: T -> int, id: int, i: nat)
    requires i < |t| && key(t[i]) == id
    requires forall j :: 0 <= j < i ==> key(t[j]) != id
    ensures FindById(t, key, id) == Some(t[i])
  {
    if i > 0 {
      assert key(t[0]) != id;
      assert forall j :: 0 <= j < i - 1 ==> t[1..][j] == t[j + 1];
      FindByIdIsFirst(t[1..], key, id, i - 1);
    }
  }

  /** Conversely, a row `find` returns sits at some index `i` with no row before it carrying the id. */
  lemma {:induction false} FindByIdIndex<T>(t: seq<T>, key: T -> int, id: int)
    requires FindById(t, key, id).Some?
    ensures exists i :: 0 <= i < |t| && t[i] == FindById(t, key, id).value &&
                        forall j :: 0 <= j < i ==> key(t[j]) != id
  {
    if key(t[0]) != id {
      FindByIdIndex(t[1..], key, id);
      var i :| 0 <= i < |t| - 1 && t[1..][i] == FindById(t[1..], key, id).value
        && forall j :: 0 <= j < i ==> key(t[1..][j]) != id;
      forall j | 0 <= j < i + 1
        ensures key(t[j]) != id
      {
        if j > 0 {
          assert t[j] == t[1..][j - 1];
        }
      }
      assert t[i + 1] == FindById(t, key, id).value;
    }
  }

  lemma FindUniqueId<T>(t: seq<T>, key: T -> int, x: T)
    requires UniqueIds(t, key) && x in t
    ensures FindById(t, key, key(x)) == Some(x)
  {
    var r := FindById(t, key, key(x));
    var i :| 0 <= i < |t| && t[i] == r.value;
    var j :| 0 <= j < |t| && t[j] == x;
    if i < j {
      assert key(t[i]) != key(t[j]);
    } else if j < i {
      assert key(t[j]) != key(t[i]);
    }
  }

  /** Appending a row whose id no row has keeps the ids unique. */
  lemma AppendKeepsUniqueIds<T>(t: seq<T>, key: T -> int, x: T)
    requires UniqueIds(t, key)
    requires forall y :: y in t ==> key(y) != key(x)
    ensures UniqueIds(t + [x], key)
  {
    var r := t + [x];
    forall i, j | 0 <= i < j < |r| ensures key(r[i]) != key(r[j]) {
      if j == |t| {
        assert r[i] in t;
      } else {
        assert r[i] == t[i] && r[j] == t[j];
      }
    }
  }

  /** With unique ids, the delete removes exactly one row when some row has the id, and none otherwise. */
  lemma {:induction false} DeleteCount<T>(t: seq<T>, key: T -> int, id: int)
    requires UniqueIds(t, key)
    ensures |DeleteById(t, key, id)| == if FindById(t, key, id).Some? then |t| - 1 else |t|
  {
    if t != [] {
      UniqueIdsTail(t, key);
      if key(t[0]) == id {
        DeleteAbsentId(t[1..], key, id);
      } else {
        DeleteCount(t[1..], key, id);
      }
    }
  }
}
