/**
 * The JavaScript array operations every file-backed variant is built from:
 * `findIndex` and `find` with an id-equality predicate, and `splice(index, 1)`.
 * They are generic in the record type; `key` extracts the id being compared.
 */
module ArrayOps {
  import opened Wrappers

  /** No element of `s` has key `id`. */
  ghost predicate Absent<T>(s: seq<T>, key: T -> string, id: string)
  {
    forall k :: 0 <= k < |s| ==> key(s[k]) != id
  }

  /** No two elements of `s` share a key. */
  ghost predicate UniqueKeys<T>(s: seq<T>, key: T -> string)
  {
    forall i, j :: 0 <= i < j < |s| ==> key(s[i]) != key(s[j])
  }

  /** `findIndex`: the index of the first element with key `id`, or -1. */
  function FindIndex<T>(s: seq<T>, key: T -> string, id: string): (r: int)
    ensures -1 <= r < |s|
    ensures r == -1 <==> Absent(s, key, id)
    ensures 0 <= r ==> key(s[r]) == id && Absent(s[..r], key, id)
  {
    if |s| == 0 then -1
    else if key(s[0]) == id then 0
    else
      var r := FindIndex(s[1..], key, id);
      assert forall k :: 0 < k < |s| ==> s[k] == s[1..][k - 1];
      if r == -1 then -1
      else
        assert s[..r + 1] == [s[0]] + s[1..][..r];
        r + 1
  }

  /** `find`: the first element with key `id`, if any. */
  function Find<T>(s: seq<T>, key: T -> string, id: string): (r: Option<T>)
    ensures r.None? <==> Absent(s, key, id)
    ensures r.Some? ==> key(r.value) == id
    ensures r.Some? ==> exists i :: 0 <= i < |s| && s[i] == r.value && Absent(s[..i], key, id)
  {
    var i := FindIndex(s, key, id);
    if i == -1 then None else Some(s[i])
  }

  /** The linear search behind `findIndex`, as the loop it is. */
  method SearchIndex<T>(s: seq<T>, key: T -> string, id: string) returns (i: int)
    ensures i == FindIndex(s, key, id)
  {
    i := 0;
    while i < |s|
      invariant 0 <= i <= |s|
      invariant Absent(s[..i], key, id)
    {
      if key(s[i]) == id {
        return;
      }
      assert s[..i + 1] == s[..i] + [s[i]];
      i := i + 1;
    }
    assert s[..i] == s;
    i := -1;
  }

  /** `s` with the element at `i` cut out, as `s.splice(i, 1)` leaves it. */
  function RemoveAt<T>(s: seq<T>, i: nat): (r: seq<T>)
    requires i < |s|
    ensures |r| == |s| - 1
    ensures forall k :: 0 <= k < i ==> r[k] == s[k]
    ensures forall k :: i <= k < |r| ==> r[k] == s[k + 1]
    ensures multiset(r) + multiset{s[i]} == multiset(s)
  {
    assert s == s[..i] + [s[i]] + s[i + 1..];
    s[..i] + s[i + 1..]
  }

  /**
   * `findIndex` followed by `splice(index, 1)[0]`: the removed element and the
   * array that remains, or nothing removed when no element has key `id`.
   */
  function SpliceFirst<T>(s: seq<T>, key: T -> string, id: string): (r: (Option<T>, seq<T>))
    ensures r.0.None? <==> Absent(s, key, id)
    ensures r.0.None? ==> r.1 == s
    ensures r.0.Some? ==> key(r.0.value) == id && |r.1| == |s| - 1
    ensures r.0.Some? ==> exists i :: 0 <= i < |s| && s[i] == r.0.value && Absent(s[..i], key, id)
                                     && r.1 == s[..i] + s[i + 1..]
  {
    var i := FindIndex(s, key, id);
    if i == -1 then (None, s)
    else
      assert s == s[..i] + [s[i]] + s[i + 1..];
      (Some(s[i]), RemoveAt(s, i))
  }

  /** Replacing an element by one with the same key does not move the first match. */
  lemma {:induction false} FindIndexKeyPreserved<T>(s: seq<T>, key: T -> string, id: string, i: nat, x: T)
    requires i < |s| && key(x) == key(s[i])
    ensures FindIndex(s[i := x], key, id) == FindIndex(s, key, id)
  {
    if |s| > 0 && i > 0 {
      assert s[i := x][1..] == s[1..][i - 1 := x];
      FindIndexKeyPreserved(s[1..], key, id, i - 1, x);
    }
  }

  /** Appending an element only finds it when nothing earlier matched. */
  lemma {:induction false} FindIndexAppend<T>(s: seq<T>, key: T -> string, id: string, x: T)
    ensures FindIndex(s + [x], key, id) ==
              if FindIndex(s, key, id) != -1 then FindIndex(s, key, id)
              else if key(x) == id then |s| else -1
  {
    if |s| > 0 {
      assert (s + [x])[1..] == s[1..] + [x];
      FindIndexAppend(s[1..], key, id, x);
    }
  }

  /** Removing an element keeps keys unique, and with unique keys the removed key is gone. */
  lemma RemoveAtUnique<T>(s: seq<T>, key: T -> string, i: nat)
    requires i < |s| && UniqueKeys(s, key)
    ensures UniqueKeys(RemoveAt(s, i), key)
    ensures Absent(RemoveAt(s, i), key, key(s[i]))
  {
  }

  /**
   * With unique keys, splicing out `id` a second time removes nothing: the
   * second call reports "not found" and leaves the array as the first left it.
   */
  lemma SpliceFirstTwice<T>(s: seq<T>, key: T -> string, id: string)
    requires UniqueKeys(s, key)
    ensures var once := SpliceFirst(s, key, id).1;
            SpliceFirst(once, key, id) == (None, once)
    ensures UniqueKeys(SpliceFirst(s, key, id).1, key)
  {
  }
}
