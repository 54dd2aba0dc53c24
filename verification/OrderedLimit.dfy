/** `SELECT ... ORDER BY key LIMIT n` over rows given as a map from id to key. */
module OrderedLimit {
  import opened Collections

  /** `rows` are the first `limit` ids in ascending key order, ties in any order:
      distinct, as many as there are up to the limit, and no id left out precedes
      one that was taken. */
  ghost predicate FirstBy<T>(rows: seq<T>, keys: map<T, int>, limit: nat) {
    && (forall i :: 0 <= i < |rows| ==> rows[i] in keys)
    && (forall i, j :: 0 <= i < j < |rows| ==> rows[i] != rows[j] && keys[rows[i]] <= keys[rows[j]])
    && |rows| == (if |keys| < limit then |keys| else limit)
    && (forall id, i :: id in keys && id !in rows && 0 <= i < |rows| ==> keys[rows[i]] <= keys[id])
  }

  method Least<T(==)>(keys: map<T, int>) returns (id: T)
    requires keys != map[]
    ensures id in keys && forall x :: x in keys ==> keys[id] <= keys[x]
  {
    var todo := keys.Keys;
    assert todo != {};
    id :| id in todo;
    todo := todo - {id};
    while todo != {}
      invariant id in keys && todo <= keys.Keys
      invariant forall x :: x in keys && x !in todo ==> keys[id] <= keys[x]
      decreases todo
    {
      var x :| x in todo;
      todo := todo - {x};
      if keys[x] < keys[id] {
        id := x;
      }
    }
  }

  /** One more row: the least of those left. */
  lemma FirstBySnoc<T>(rows: seq<T>, keys: map<T, int>, id: T)
    requires FirstBy(rows, keys, |rows|) && id in keys && id !in rows
    requires forall x :: x in keys && x !in rows ==> keys[id] <= keys[x]
    requires |rows| < |keys|
    ensures FirstBy(rows + [id], keys, |rows| + 1)
  {
    var more := rows + [id];
    forall i, j | 0 <= i < j < |more| ensures more[i] in keys && more[j] in keys && more[i] != more[j] && keys[more[i]] <= keys[more[j]] {
      if j < |rows| {
        assert rows[i] != rows[j] && keys[rows[i]] <= keys[rows[j]];
      }
    }
    forall x, i | x in keys && x !in more && 0 <= i < |more| ensures more[i] in keys && keys[more[i]] <= keys[x] {
      assert x !in rows;
      if i < |rows| {
        assert keys[rows[i]] <= keys[x];
      }
    }
  }

  /** An id is left out only when the limit is reached, and by none that comes after it. */
  lemma LeftOut<T>(rows: seq<T>, keys: map<T, int>, limit: nat, id: T)
    requires FirstBy(rows, keys, limit) && id in keys && id !in rows
    ensures |rows| == limit && forall r :: r in rows ==> r in keys && keys[r] <= keys[id]
  {
    DistinctCount(rows);
    SubsetSmaller(ToSet(rows), keys.Keys, id);
    assert |keys.Keys| == |keys|;
  }

  lemma SubsetSmaller<T>(a: set<T>, b: set<T>, x: T)
    requires a <= b && x in b && x !in a
    ensures |a| < |b|
  {
    assert b == (b - a) + a;
    assert x in b - a;
  }

  lemma NoRows<T>(keys: map<T, int>)
    ensures FirstBy([], keys, 0)
  {
  }

  /** The limit does not matter once all rows are there. */
  lemma AllRows<T>(rows: seq<T>, keys: map<T, int>, limit: nat)
    requires FirstBy(rows, keys, |rows|) && (|rows| == limit || (|rows| == |keys| && |rows| <= limit))
    ensures FirstBy(rows, keys, limit)
  {
  }

  method SelectFirst<T(==)>(keys: map<T, int>, limit: nat) returns (rows: seq<T>)
    ensures FirstBy(rows, keys, limit)
  {
    hide FirstBy;
    rows := [];
    var left := keys;
    NoRows(keys);
    while left != map[] && |rows| < limit
      invariant |rows| <= limit && |rows| + |left| == |keys|
      invariant forall id :: id in left <==> id in keys && id !in rows
      invariant forall id :: id in left ==> left[id] == keys[id]
      invariant FirstBy(rows, keys, |rows|)
      decreases |left|
    {
      var id := Least(left);
      FirstBySnoc(rows, keys, id);
      rows := rows + [id];
      assert left.Keys == (left - {id}).Keys + {id};
      left := left - {id};
    }
    AllRows(rows, keys, limit);
  }

  lemma LeastExists<T>(keys: map<T, int>) returns (id: T)
    requires keys != map[]
    ensures id in keys && forall x :: x in keys ==> keys[id] <= keys[x]
    decreases |keys|
  {
    assert keys.Keys != {};
    id :| id in keys.Keys;
    var rest := keys - {id};
    assert keys.Keys == rest.Keys + {id};
    if rest != map[] {
      var least := LeastExists(rest);
      if keys[least] < keys[id] { id := least; }
    }
  }

  /** There is always an answer to the query. */
  lemma {:induction false} FirstByExists<T>(keys: map<T, int>, limit: nat) returns (rows: seq<T>)
    ensures FirstBy(rows, keys, limit)
  {
    if limit == 0 {
      rows := [];
    } else {
      rows := FirstByExists(keys, limit - 1);
      if forall x :: x in keys ==> x in rows {
        AllTaken(rows, keys, limit - 1);
      } else {
        var left := map x | x in keys && x !in rows :: keys[x];
        var some :| some in keys && some !in rows;
        assert some in left;
        var id := LeastExists(left);
        RoomLeft(rows, keys, limit - 1, id);
        forall x | x in keys && x !in rows ensures keys[id] <= keys[x] {
          assert x in left && left[id] <= left[x];
        }
        FirstBySnoc(rows, keys, id);
        rows := rows + [id];
      }
    }
  }

  lemma RowsAreKeys<T>(rows: seq<T>, keys: map<T, int>, limit: nat)
    requires FirstBy(rows, keys, limit)
    ensures ToSet(rows) <= keys.Keys && |ToSet(rows)| == |rows|
  {
    DistinctCount(rows);
  }

  lemma AllTaken<T>(rows: seq<T>, keys: map<T, int>, limit: nat)
    requires FirstBy(rows, keys, limit) && forall x :: x in keys ==> x in rows
    ensures FirstBy(rows, keys, limit + 1)
  {
    RowsAreKeys(rows, keys, limit);
    assert ToSet(rows) == keys.Keys;
  }

  lemma RoomLeft<T>(rows: seq<T>, keys: map<T, int>, limit: nat, id: T)
    requires FirstBy(rows, keys, limit) && id in keys && id !in rows
    ensures |rows| == limit < |keys|
  {
    RowsAreKeys(rows, keys, limit);
    assert ToSet(rows) <= keys.Keys - {id};
    assert keys.Keys == (keys.Keys - {id}) + {id};
    assert keys.Keys - {id} == ToSet(rows) + (keys.Keys - {id} - ToSet(rows));
  }
}
