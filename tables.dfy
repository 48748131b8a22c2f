/** The relational store underneath the models: a table of rows keyed by an
    integer primary key, remembering the order in which rows were inserted.
    New keys are assigned the way SQLite, the default database
    (server/app.py:9), assigns a rowid to an `INTEGER PRIMARY KEY` column:
    one more than the largest key in the table, or 1 when the table is empty. */
module Tables {

  /** No element occurs twice. */
  ghost predicate Distinct(s: seq<int>)
  {
    forall i, j :: 0 <= i < j < |s| ==> s[i] != s[j]
  }

  /** Each element is smaller than every later one. */
  ghost predicate Increasing(s: seq<int>)
  {
    forall i, j :: 0 <= i < j < |s| ==> s[i] < s[j]
  }

  /** `r` is obtained from `s` by dropping elements, keeping the order of the rest. */
  ghost predicate Subsequence(r: seq<int>, s: seq<int>)
    decreases |s|
  {
    if r == [] then true
    else if s == [] then false
    else (r[0] == s[0] && Subsequence(r[1..], s[1..])) || Subsequence(r, s[1..])
  }

  /** The largest element of a non-empty sequence. */
  function Largest(s: seq<int>): (m: int)
    requires s != []
    ensures m in s
    ensures forall x :: x in s ==> x <= m
  {
    if |s| == 1 then s[0]
    else
      var rest := Largest(s[1..]);
      assert forall x :: x in s ==> x == s[0] || x in s[1..];
      if s[0] > rest then s[0] else rest
  }

  /** The elements of `s` that satisfy `keep`, in their order in `s`. */
  function Filter(s: seq<int>, keep: int -> bool): (r: seq<int>)
    ensures forall y :: y in r <==> y in s && keep(y)
    ensures |r| <= |s|
    ensures Subsequence(r, s)
    ensures Distinct(s) ==> Distinct(r)
    ensures Increasing(s) ==> Increasing(r)
  {
    if s == [] then []
    else
      var rest := Filter(s[1..], keep);
      assert forall y :: y in s <==> y == s[0] || y in s[1..];
      if keep(s[0]) then
        assert ([s[0]] + rest)[1..] == rest;
        assert Distinct(s) ==> s[0] !in s[1..] && Distinct(s[1..]) by {
          if Distinct(s) {
            forall i, j | 0 <= i < j < |s[1..]| ensures s[1..][i] != s[1..][j] {
              assert s[1..][i] == s[i + 1] && s[1..][j] == s[j + 1];
            }
          }
        }
        assert Increasing(s) ==> Increasing([s[0]] + rest) by {
          if Increasing(s) {
            IncreasingTail(s);
            forall i, j | 0 <= i < j < |[s[0]] + rest| ensures ([s[0]] + rest)[i] < ([s[0]] + rest)[j] {
              if i > 0 {
                assert ([s[0]] + rest)[i] == rest[i - 1] && ([s[0]] + rest)[j] == rest[j - 1];
              } else {
                assert ([s[0]] + rest)[j] == rest[j - 1] && rest[j - 1] in s[1..];
              }
            }
          }
        }
        [s[0]] + rest
      else
        assert Distinct(s) ==> Distinct(s[1..]) by {
          if Distinct(s) {
            forall i, j | 0 <= i < j < |s[1..]| ensures s[1..][i] != s[1..][j] {
              assert s[1..][i] == s[i + 1] && s[1..][j] == s[j + 1];
            }
          }
        }
        assert Increasing(s) ==> Increasing(s[1..]) by {
          if Increasing(s) { IncreasingTail(s); }
        }
        rest
  }

  /** Dropping the head of an increasing sequence leaves an increasing sequence of larger elements. */
  lemma IncreasingTail(s: seq<int>)
    requires Increasing(s) && s != []
    ensures Increasing(s[1..])
    ensures forall y :: y in s[1..] ==> s[0] < y
  {
    forall i, j | 0 <= i < j < |s[1..]| ensures s[1..][i] < s[1..][j] {
      assert s[1..][i] == s[i + 1] && s[1..][j] == s[j + 1];
    }
  }

  /** `s` with every occurrence of `x` removed. */
  function Without(s: seq<int>, x: int): (r: seq<int>)
    ensures forall y :: y in r <==> y in s && y != x
    ensures Subsequence(r, s)
    ensures Distinct(s) ==> Distinct(r)
    ensures Increasing(s) ==> Increasing(r)
  {
    Filter(s, y => y != x)
  }

  /** Removing an element that occurs exactly once shortens the sequence by one. */
  lemma {:induction false} WithoutLength(s: seq<int>, x: int)
    requires Distinct(s)
    ensures x in s ==> |Without(s, x)| == |s| - 1
    ensures x !in s ==> Without(s, x) == s
  {
    if s != [] {
      assert Distinct(s[1..]) by {
        forall i, j | 0 <= i < j < |s[1..]| ensures s[1..][i] != s[1..][j] {
          assert s[1..][i] == s[i + 1] && s[1..][j] == s[j + 1];
        }
      }
      WithoutLength(s[1..], x);
      assert forall y :: y in s <==> y == s[0] || y in s[1..];
      if s[0] == x {
        assert x !in s[1..];
      }
    }
  }

  /** Removing an element that was appended last, and occurs nowhere else, gives back the prefix. */
  lemma {:induction false} WithoutLast(s: seq<int>, x: int)
    requires x !in s
    ensures Without(s + [x], x) == s
  {
    if s == [] {
      assert Without([x], x) == Filter([x], y => y != x);
    } else {
      WithoutLast(s[1..], x);
      assert (s + [x])[1..] == s[1..] + [x];
      assert s == [s[0]] + s[1..];
    }
  }

  /** A table: `ids` lists the primary keys in insertion order, `rows` maps each key to its row. */
  datatype Table<T> = Table(ids: seq<int>, rows: map<int, T>)
  {
    /** Keys are positive, listed once each in increasing order (so insertion
        order is key order, the order of a query without ORDER BY), and
        exactly the keys of `rows`. */
    ghost predicate Valid()
    {
      Distinct(ids) && Increasing(ids) && (forall k :: k in ids ==> k >= 1) &&
      (forall k :: k in rows <==> k in ids)
    }

    /** The key the store gives the next inserted row: one past the largest key, or 1. */
    function NextId(): (id: int)
      ensures forall k :: k in ids ==> k < id
      ensures Valid() ==> id >= 1 && id !in rows
    {
      if ids == [] then 1 else Largest(ids) + 1
    }

    /** Insert `row` under a fresh key, appended at the end of the insertion order. */
    function Insert(row: T): (t: Table<T>)
      requires Valid()
      ensures t.Valid()
      ensures NextId() !in rows
      ensures t.ids == ids + [NextId()]
      ensures t.rows.Keys == rows.Keys + {NextId()}
      ensures t.rows[NextId()] == row
      ensures forall k :: k in rows ==> t.rows[k] == rows[k]
    {
      var n := NextId();
      assert Increasing(ids + [n]) by {
        forall i, j | 0 <= i < j < |ids + [n]| ensures (ids + [n])[i] < (ids + [n])[j] {
          assert (ids + [n])[i] == ids[i];
          if j < |ids| { assert (ids + [n])[j] == ids[j]; } else { assert ids[i] in ids; }
        }
      }
      Table(ids + [n], rows[n := row])
    }

    /** Remove the row with key `id`, if any; the other rows keep their order. */
    function Delete(id: int): (t: Table<T>)
      requires Valid()
      ensures t.Valid()
      ensures t.rows.Keys == rows.Keys - {id}
      ensures forall k :: k in t.rows ==> t.rows[k] == rows[k]
      ensures Subsequence(t.ids, ids)
      ensures id in rows ==> |t.ids| == |ids| - 1
      ensures id !in rows ==> t == this
    {
      WithoutLength(ids, id);
      Table(Without(ids, id), rows - {id})
    }
  }

  /** The table with no rows. */
  function Empty<T>(): (t: Table<T>)
    ensures t.Valid() && t.rows == map[] && t.ids == []
  {
    Table([], map[])
  }

  /** Deleting the row just inserted restores the table exactly. */
  lemma InsertThenDelete<T>(t: Table<T>, row: T)
    requires t.Valid()
    ensures t.Insert(row).Delete(t.NextId()) == t
  {
    var n := t.NextId();
    WithoutLast(t.ids, n);
    assert t.Insert(row).rows - {n} == t.rows;
  }
}
