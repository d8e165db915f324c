/** The id-keyed list transforms the frontend applies to its collections after a confirmed write:
    `filter` by id, `map`-replace by id, `find` by id, and the first-id default of a fresh load.
    `key` reads an element's id (`p.id`, `t.id`, `c.id`). */
module IdLists {
  import opened Basics

  /** The ids of `s`, in order. */
  function Ids<T>(s: seq<T>, key: T -> int): (r: seq<int>)
    ensures |r| == |s| && forall i :: 0 <= i < |s| ==> r[i] == key(s[i])
  {
    seq(|s|, i requires 0 <= i < |s| => key(s[i]))
  }

  /** How many elements of `s` carry `id`. */
  function CountId<T>(s: seq<T>, key: T -> int, id: int): (n: nat)
    ensures n <= |s|
    ensures n == 0 <==> id !in Ids(s, key)
  {
    if s == [] then 0
    else (if key(s[0]) == id then 1 else 0) + CountId(s[1..], key, id)
  }

  /** `s.filter(x => key(x) !== id)`: exactly the elements without that id survive, the count drops
      by the number of elements that had it. */
  function RemoveId<T(==)>(s: seq<T>, key: T -> int, id: int): (r: seq<T>)
    ensures |r| == |s| - CountId(s, key, id)
    ensures forall i :: 0 <= i < |r| ==> r[i] in s && key(r[i]) != id
    ensures forall i :: 0 <= i < |s| && key(s[i]) != id ==> s[i] in r
  {
    if s == [] then []
    else
      var rest := RemoveId(s[1..], key, id);
      assert forall i :: 1 <= i < |s| ==> s[i] == s[1..][i - 1];
      if key(s[0]) == id then rest else [s[0]] + rest
  }

  /** `s.map(x => key(x) === id ? v : x)`: same length, every element with `id` becomes `v`, every
      other element stays where it was. */
  function ReplaceId<T>(s: seq<T>, key: T -> int, id: int, v: T): (r: seq<T>)
    ensures |r| == |s|
    ensures forall i :: 0 <= i < |s| && key(s[i]) == id ==> r[i] == v
    ensures forall i :: 0 <= i < |s| && key(s[i]) != id ==> r[i] == s[i]
  {
    if s == [] then []
    else [if key(s[0]) == id then v else s[0]] + ReplaceId(s[1..], key, id, v)
  }

  /** `s.find(x => key(x) === id) ?? null`: the first element carrying `id`, absent when none does. */
  function FindId<T(==)>(s: seq<T>, key: T -> int, id: int): (r: Option<T>)
    ensures r.None? <==> id !in Ids(s, key)
    ensures r.Some? ==> r.value in s && key(r.value) == id
    ensures r.Some? ==> exists i :: FirstWithId(s, key, id, i) && s[i] == r.value
  {
    if s == [] then None
    else if key(s[0]) == id then
      assert FirstWithId(s, key, id, 0);
      Some(s[0])
    else
      var r := FindId(s[1..], key, id);
      assert r.Some? ==> exists i :: FirstWithId(s, key, id, i) && s[i] == r.value by {
        if r.Some? {
          var i :| FirstWithId(s[1..], key, id, i) && s[1..][i] == r.value;
          FirstWithIdCons(s, key, id, i);
        }
      }
      r
  }

  /** `i` is the position of the first element of `s` carrying `id`. */
  ghost predicate FirstWithId<T>(s: seq<T>, key: T -> int, id: int, i: int)
  {
    0 <= i < |s| && key(s[i]) == id && forall j :: 0 <= j < i ==> key(s[j]) != id
  }

  lemma FirstWithIdCons<T>(s: seq<T>, key: T -> int, id: int, i: int)
    requires s != [] && key(s[0]) != id && FirstWithId(s[1..], key, id, i)
    ensures FirstWithId(s, key, id, i + 1) && s[i + 1] == s[1..][i]
  {
    forall j | 0 <= j < i + 1
      ensures key(s[j]) != id
    {
      if j > 0 {
        assert s[j] == s[1..][j - 1];
      }
    }
  }

  /** The selection after a fresh load, `current ?? page[0]?.id ?? null`: an existing selection is kept;
      otherwise the first loaded element becomes selected (nothing, if the page is empty). */
  function DefaultSelection<T>(current: Option<int>, page: seq<T>, key: T -> int): (r: Option<int>)
    ensures current.Some? ==> r == current
    ensures current.None? ==> (r.Some? <==> |page| > 0)
    ensures current.None? && |page| > 0 ==> r == Some(key(page[0]))
  {
    if current.Some? then current
    else if |page| > 0 then Some(key(page[0]))
    else None
  }

  /** Filtering distributes over concatenation: relative order of the kept elements is preserved. */
  lemma {:induction false} RemoveIdAppend<T>(a: seq<T>, b: seq<T>, key: T -> int, id: int)
    ensures RemoveId(a + b, key, id) == RemoveId(a, key, id) + RemoveId(b, key, id)
  {
    if a == [] {
      assert a + b == b;
    } else {
      var ab := a + b;
      assert ab[0] == a[0] && ab[1..] == a[1..] + b;
      RemoveIdAppend(a[1..], b, key, id);
      var rest := RemoveId(a[1..], key, id) + RemoveId(b, key, id);
      if key(a[0]) == id {
        calc {
          RemoveId(ab, key, id);
          RemoveId(a[1..] + b, key, id);
          rest;
          RemoveId(a, key, id) + RemoveId(b, key, id);
        }
      } else {
        calc {
          RemoveId(ab, key, id);
          [a[0]] + RemoveId(a[1..] + b, key, id);
          [a[0]] + rest;
          ([a[0]] + RemoveId(a[1..], key, id)) + RemoveId(b, key, id);
          RemoveId(a, key, id) + RemoveId(b, key, id);
        }
      }
    }
  }

  /** Removing an id that no element carries leaves the list as it was. */
  lemma {:induction false} RemoveIdAbsent<T>(s: seq<T>, key: T -> int, id: int)
    requires id !in Ids(s, key)
    ensures RemoveId(s, key, id) == s
  {
    if s != [] {
      assert key(s[0]) == Ids(s, key)[0];
      assert Ids(s[1..], key) == Ids(s, key)[1..];
      RemoveIdAbsent(s[1..], key, id);
    }
  }

  /** Deleting twice is deleting once. */
  lemma RemoveIdIdempotent<T>(s: seq<T>, key: T -> int, id: int)
    ensures RemoveId(RemoveId(s, key, id), key, id) == RemoveId(s, key, id)
  {
    var r := RemoveId(s, key, id);
    forall i | 0 <= i < |r| ensures Ids(r, key)[i] != id {
      assert r[i] in r;
    }
    RemoveIdAbsent(r, key, id);
  }

  /** Creating an element with a fresh id (prepend) and then deleting that id restores the list. */
  lemma PrependThenRemove<T>(x: T, s: seq<T>, key: T -> int)
    requires key(x) !in Ids(s, key)
    ensures RemoveId([x] + s, key, key(x)) == s
  {
    assert ([x] + s)[1..] == s;
    RemoveIdAbsent(s, key, key(x));
  }

  /** Creating an element with a fresh id (append) and then deleting that id restores the list. */
  lemma AppendThenRemove<T>(s: seq<T>, x: T, key: T -> int)
    requires key(x) !in Ids(s, key)
    ensures RemoveId(s + [x], key, key(x)) == s
  {
    RemoveIdAppend(s, [x], key, key(x));
    RemoveIdAbsent(s, key, key(x));
    assert RemoveId([x], key, key(x)) == [];
  }

  /** After a prepend, looking up the new element's id finds the new element. */
  lemma FindIdPrepend<T>(x: T, s: seq<T>, key: T -> int)
    ensures FindId([x] + s, key, key(x)) == Some(x)
  {
  }

  /** Looking up an id skips a head element that does not carry it: together with `FindIdPrepend`,
      the lookup stops at the first element carrying the id. */
  lemma FindIdSkips<T>(x: T, s: seq<T>, key: T -> int, id: int)
    requires key(x) != id
    ensures FindId([x] + s, key, id) == FindId(s, key, id)
  {
    assert ([x] + s)[1..] == s;
  }

  /** Replacing by id with a value that keeps the id leaves the id sequence as it was. */
  lemma ReplaceIdKeepsIds<T>(s: seq<T>, key: T -> int, id: int, v: T)
    requires key(v) == id
    ensures Ids(ReplaceId(s, key, id, v), key) == Ids(s, key)
  {
  }

  /** After a replace that keeps the id, looking the id up finds the new value. */
  lemma {:induction false} ReplaceIdThenFind<T>(s: seq<T>, key: T -> int, id: int, v: T)
    requires key(v) == id && id in Ids(s, key)
    ensures FindId(ReplaceId(s, key, id, v), key, id) == Some(v)
  {
    if key(s[0]) != id {
      assert Ids(s[1..], key) == Ids(s, key)[1..];
      assert ReplaceId(s, key, id, v)[1..] == ReplaceId(s[1..], key, id, v);
      ReplaceIdThenFind(s[1..], key, id, v);
    }
  }

  /** Replacing an element and then deleting its id is the same as deleting the id. */
  lemma {:induction false} ReplaceThenRemove<T>(s: seq<T>, key: T -> int, id: int, v: T)
    requires key(v) == id
    ensures RemoveId(ReplaceId(s, key, id, v), key, id) == RemoveId(s, key, id)
  {
    if s != [] {
      assert ReplaceId(s, key, id, v)[1..] == ReplaceId(s[1..], key, id, v);
      ReplaceThenRemove(s[1..], key, id, v);
    }
  }

  /** Replacing an id no element carries changes nothing. */
  lemma ReplaceIdAbsent<T>(s: seq<T>, key: T -> int, id: int, v: T)
    requires id !in Ids(s, key)
    ensures ReplaceId(s, key, id, v) == s
  {
    forall i | 0 <= i < |s| ensures key(s[i]) != id {
      assert Ids(s, key)[i] == key(s[i]);
    }
  }
}
