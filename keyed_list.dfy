/**
  Lists of records keyed by a string id, as the calculator keeps its hotels,
  activities and flights: `find` by id, `map` that replaces the item with a
  given id, `filter` that drops every item with a given id, and appending a
  new item. The record type is generic; `idOf` reads a record's id.
 */
module KeyedList {

  datatype Option<T> = None | Some(value: T)

  /** Some item of `s` carries `id`. */
  predicate HasId<T>(s: seq<T>, idOf: T -> string, id: string) {
    exists i :: 0 <= i < |s| && idOf(s[i]) == id
  }

  /** No two items of `s` carry the same id. */
  predicate UniqueIds<T>(s: seq<T>, idOf: T -> string) {
    forall i, j :: 0 <= i < j < |s| ==> idOf(s[i]) != idOf(s[j])
  }

  /** `s.find(x => x.id === id)`: the first item carrying `id`, if any. */
  function Find<T(==)>(s: seq<T>, idOf: T -> string, id: string): (r: Option<T>)
    ensures r.None? <==> !HasId(s, idOf, id)
    ensures r.Some? ==> exists k :: 0 <= k < |s| && s[k] == r.value && idOf(s[k]) == id && !HasId(s[..k], idOf, id)
  {
    if |s| == 0 then None
    else if idOf(s[0]) == id then
      assert s[..0] == [];
      Some(s[0])
    else
      var r := Find(s[1..], idOf, id);
      assert HasId(s, idOf, id) ==> HasId(s[1..], idOf, id) by {
        if HasId(s, idOf, id) {
          var i :| 0 <= i < |s| && idOf(s[i]) == id;
          assert s[1..][i - 1] == s[i];
        }
      }
      assert HasId(s[1..], idOf, id) ==> HasId(s, idOf, id) by {
        if HasId(s[1..], idOf, id) {
          var i :| 0 <= i < |s[1..]| && idOf(s[1..][i]) == id;
          assert s[i + 1] == s[1..][i];
        }
      }
      if r.Some? then
        var k :| 0 <= k < |s[1..]| && s[1..][k] == r.value && idOf(s[1..][k]) == id && !HasId(s[1..][..k], idOf, id);
        assert s[k + 1] == r.value;
        assert !HasId(s[..k + 1], idOf, id);
        r
      else
        r
  }

  /** `s.map(x => x.id === item.id ? item : x)`. */
  function ReplaceById<T>(s: seq<T>, idOf: T -> string, item: T): (r: seq<T>)
    ensures |r| == |s|
    ensures forall i :: 0 <= i < |s| ==> r[i] == if idOf(s[i]) == idOf(item) then item else s[i]
  {
    if |s| == 0 then []
    else [if idOf(s[0]) == idOf(item) then item else s[0]] + ReplaceById(s[1..], idOf, item)
  }

  /** `s.filter(x => x.id !== id)`. */
  function RemoveById<T(==)>(s: seq<T>, idOf: T -> string, id: string): (r: seq<T>)
    ensures |r| <= |s|
    ensures forall i :: 0 <= i < |r| ==> idOf(r[i]) != id
    ensures forall x {:trigger x in r} :: x in r ==> x in s
    ensures forall i :: 0 <= i < |s| && idOf(s[i]) != id ==> s[i] in r
  {
    if |s| == 0 then []
    else (if idOf(s[0]) != id then [s[0]] else []) + RemoveById(s[1..], idOf, id)
  }

  /** Filtering distributes over concatenation: the survivors keep their order. */
  lemma {:induction false} RemoveByIdAppend<T>(a: seq<T>, b: seq<T>, idOf: T -> string, id: string)
    ensures RemoveById(a + b, idOf, id) == RemoveById(a, idOf, id) + RemoveById(b, idOf, id)
  {
    if |a| == 0 {
      assert a + b == b;
    } else {
      assert (a + b)[1..] == a[1..] + b;
      RemoveByIdAppend(a[1..], b, idOf, id);
    }
  }

  /** Removing an id nobody carries leaves the list as it is. */
  lemma {:induction false} RemoveAbsentId<T>(s: seq<T>, idOf: T -> string, id: string)
    requires !HasId(s, idOf, id)
    ensures RemoveById(s, idOf, id) == s
  {
    if |s| > 0 {
      assert !HasId(s[1..], idOf, id);
      RemoveAbsentId(s[1..], idOf, id);
      assert idOf(s[0]) != id;
      assert [s[0]] + s[1..] == s;
    }
  }

  /** Appending an item with a fresh id and then removing that id gives back the list. */
  lemma RemoveUndoesAppend<T>(s: seq<T>, idOf: T -> string, item: T)
    requires !HasId(s, idOf, idOf(item))
    ensures RemoveById(s + [item], idOf, idOf(item)) == s
  {
    RemoveByIdAppend(s, [item], idOf, idOf(item));
    RemoveAbsentId(s, idOf, idOf(item));
    assert [item][1..] == [];
  }

  /** Removing a present id from a list with unique ids drops exactly one item. */
  lemma {:induction false} RemovePresentUnique<T>(s: seq<T>, idOf: T -> string, id: string)
    requires UniqueIds(s, idOf) && HasId(s, idOf, id)
    ensures |RemoveById(s, idOf, id)| == |s| - 1
  {
    var k :| 0 <= k < |s| && idOf(s[k]) == id;
    if k == 0 {
      assert !HasId(s[1..], idOf, id);
      RemoveAbsentId(s[1..], idOf, id);
    } else {
      assert s[1..][k - 1] == s[k];
      assert HasId(s[1..], idOf, id);
      assert idOf(s[0]) != id;
      RemovePresentUnique(s[1..], idOf, id);
    }
  }

  /** Removing one id from a pair with distinct ids leaves the other item. */
  lemma RemoveFromPair<T>(s: seq<T>, idOf: T -> string, k: nat)
    requires |s| == 2 && k < 2 && UniqueIds(s, idOf)
    ensures RemoveById(s, idOf, idOf(s[k])) == [s[1 - k]]
  {
    assert idOf(s[0]) != idOf(s[1]);
    assert s[1..][1..] == [];
  }

  /** Filtering keeps ids unique. */
  lemma {:induction false} RemoveKeepsUnique<T>(s: seq<T>, idOf: T -> string, id: string)
    requires UniqueIds(s, idOf)
    ensures UniqueIds(RemoveById(s, idOf, id), idOf)
  {
    if |s| > 0 {
      RemoveKeepsUnique(s[1..], idOf, id);
      var rest := RemoveById(s[1..], idOf, id);
      forall m | 0 <= m < |rest| ensures idOf(rest[m]) != idOf(s[0]) {
        assert rest[m] in rest;
        var i :| 0 <= i < |s[1..]| && s[1..][i] == rest[m];
        assert s[i + 1] == rest[m];
      }
      if idOf(s[0]) != id {
        var r := [s[0]] + rest;
        forall i, j | 0 <= i < j < |r| ensures idOf(r[i]) != idOf(r[j]) {
          if i == 0 {
            assert r[j] == rest[j - 1];
          } else {
            assert r[i] == rest[i - 1] && r[j] == rest[j - 1];
          }
        }
      } else {
        assert RemoveById(s, idOf, id) == rest;
      }
    }
  }

  /** Replacing by id never changes which id sits at which position. */
  lemma ReplaceKeepsIds<T>(s: seq<T>, idOf: T -> string, item: T)
    ensures forall i :: 0 <= i < |s| ==> idOf(ReplaceById(s, idOf, item)[i]) == idOf(s[i])
    ensures UniqueIds(s, idOf) ==> UniqueIds(ReplaceById(s, idOf, item), idOf)
  {
  }

  /** After a replacement, looking the id up finds the new item. */
  lemma ReplaceThenFind<T>(s: seq<T>, idOf: T -> string, item: T)
    requires HasId(s, idOf, idOf(item))
    ensures Find(ReplaceById(s, idOf, item), idOf, idOf(item)) == Some(item)
  {
    var r := ReplaceById(s, idOf, item);
    var i :| 0 <= i < |s| && idOf(s[i]) == idOf(item);
    assert idOf(r[i]) == idOf(item);
    var f := Find(r, idOf, idOf(item));
    assert f.Some?;
  }

  /** Replacing twice with the same item is replacing once. */
  lemma ReplaceIdempotent<T>(s: seq<T>, idOf: T -> string, item: T)
    ensures ReplaceById(ReplaceById(s, idOf, item), idOf, item) == ReplaceById(s, idOf, item)
  {
  }

  /** Appending an item with a fresh id keeps ids unique. */
  lemma AppendFreshUnique<T>(s: seq<T>, idOf: T -> string, item: T)
    requires UniqueIds(s, idOf) && !HasId(s, idOf, idOf(item))
    ensures UniqueIds(s + [item], idOf)
  {
    var r := s + [item];
    forall i, j | 0 <= i < j < |r| ensures idOf(r[i]) != idOf(r[j]) {
      if j == |s| {
        assert r[i] == s[i];
      } else {
        assert r[i] == s[i] && r[j] == s[j];
      }
    }
  }
}
