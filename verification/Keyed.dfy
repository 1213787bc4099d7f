/** Lists of definitions looked up, replaced and removed by ID, as the schema code does with fields and indexes. */
module Keyed {
  import opened Prelude

  // The first item with the ID.
  function Find<T>(items: seq<T>, key: T -> string, id: string): (r: Option<T>)
    ensures r.Some? ==> r.value in items && key(r.value) == id
    ensures r.None? <==> forall x | x in items :: key(x) != id
  {
    if items == [] then None else if key(items[0]) == id then Some(items[0]) else Find(items[1..], key, id)
  }

  function Drop<T>(items: seq<T>, key: T -> string, id: string): seq<T> {
    if items == [] then [] else if key(items[0]) == id then items[1..] else [items[0]] + Drop(items[1..], key, id)
  }

  function Put<T>(items: seq<T>, key: T -> string, id: string, x: T): seq<T> {
    if items == [] then [] else if key(items[0]) == id then [x] + items[1..] else [items[0]] + Put(items[1..], key, id, x)
  }

  predicate Distinct<T>(items: seq<T>, key: T -> string) {
    forall i, j | 0 <= i < j < |items| :: key(items[i]) != key(items[j])
  }

  lemma {:induction false} FindDrop<T>(items: seq<T>, key: T -> string, id: string, other: string)
    requires Distinct(items, key)
    ensures Find(Drop(items, key, id), key, other) == if other == id then None else Find(items, key, other)
    ensures Distinct(Drop(items, key, id), key)
    ensures forall x | x in Drop(items, key, id) :: x in items
  {
    if items != [] {
      var head, rest := items[0], items[1..];
      assert Distinct(rest, key);
      if key(head) == id {
        assert forall x | x in rest :: key(x) != id;
      } else {
        FindDrop(rest, key, id, other);
        var dropped := Drop(rest, key, id);
        assert Drop(items, key, id) == [head] + dropped;
        assert ([head] + dropped)[0] == head && ([head] + dropped)[1..] == dropped;
        assert forall x | x in dropped :: x in rest && key(x) != key(head);
      }
    }
  }

  // Replacing keeps the places, and the key of every place.
  lemma {:induction false} PutShape<T>(items: seq<T>, key: T -> string, id: string, x: T)
    requires key(x) == id
    ensures var put := Put(items, key, id, x);
            |put| == |items| && forall i | 0 <= i < |items| :: key(put[i]) == key(items[i]) && (put[i] == x || put[i] == items[i])
  {
    if items != [] {
      PutShape(items[1..], key, id, x);
    }
  }

  lemma {:induction false} FindPut<T>(items: seq<T>, key: T -> string, id: string, x: T, other: string)
    requires key(x) == id && Find(items, key, id).Some?
    ensures Find(Put(items, key, id, x), key, other) == if other == id then Some(x) else Find(items, key, other)
  {
    var head, rest := items[0], items[1..];
    if key(head) == id {
      assert ([x] + rest)[0] == x && ([x] + rest)[1..] == rest;
    } else {
      FindPut(rest, key, id, x, other);
      var put := Put(rest, key, id, x);
      assert ([head] + put)[0] == head && ([head] + put)[1..] == put;
    }
  }

  lemma PutKeepsDistinct<T>(items: seq<T>, key: T -> string, id: string, x: T)
    requires Distinct(items, key) && key(x) == id
    ensures Distinct(Put(items, key, id, x), key)
  {
    PutShape(items, key, id, x);
  }

  lemma {:induction false} FindAppend<T>(items: seq<T>, key: T -> string, x: T, other: string)
    ensures Find(items + [x], key, other) ==
            if Find(items, key, other).Some? then Find(items, key, other) else if key(x) == other then Some(x) else None
    ensures Distinct(items, key) && Find(items, key, key(x)).None? ==> Distinct(items + [x], key)
  {
    if items == [] {
      assert [] + [x] == [x];
    } else {
      assert (items + [x])[0] == items[0] && (items + [x])[1..] == items[1..] + [x];
      FindAppend(items[1..], key, x, other);
    }
  }

  // An item is found under its own ID when IDs are distinct.
  lemma {:induction false} FoundIsItem<T>(items: seq<T>, key: T -> string, x: T)
    requires Distinct(items, key) && x in items
    ensures Find(items, key, key(x)) == Some(x)
  {
    if items[0] != x {
      assert x in items[1..];
      FoundIsItem(items[1..], key, x);
      assert exists j :: 0 < j < |items| && items[j] == x;
    }
  }
}
