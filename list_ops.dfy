/** The list updates the client components share: `list.map(x => x._id === id ? v : x)`,
    `list.filter(x => x._id !== id)` and `list.some(x => x._id === id)`, over any
    element type with an `_id` given by `key`. */
module ListOps {

  /** Some element of `s` carries `id`. */
  predicate HasKey<T>(s: seq<T>, key: T -> string, id: string)
  {
    exists i :: 0 <= i < |s| && key(s[i]) == id
  }

  /** The `_id`s of `s`, in order. */
  function Keys<T>(s: seq<T>, key: T -> string): (r: seq<string>)
    ensures |r| == |s|
    ensures forall i :: 0 <= i < |s| ==> r[i] == key(s[i])
  {
    seq(|s|, i requires 0 <= i < |s| => key(s[i]))
  }

  /** No two elements share an `_id`. */
  predicate DistinctKeys<T>(s: seq<T>, key: T -> string)
  {
    forall i, j :: 0 <= i < j < |s| ==> key(s[i]) != key(s[j])
  }

  /** `s.map(x => key(x) === id ? v : x)`. */
  function ReplaceWhere<T>(s: seq<T>, key: T -> string, id: string, v: T): (r: seq<T>)
    ensures |r| == |s|
    ensures forall i :: 0 <= i < |s| && key(s[i]) != id ==> r[i] == s[i]
    ensures forall i :: 0 <= i < |s| && key(s[i]) == id ==> r[i] == v
  {
    seq(|s|, i requires 0 <= i < |s| => if key(s[i]) == id then v else s[i])
  }

  /** Replacing by an element that carries the same `_id` keeps the key
      sequence, hence order and distinctness. */
  lemma ReplaceKeepsKeys<T>(s: seq<T>, key: T -> string, id: string, v: T)
    requires key(v) == id
    ensures Keys(ReplaceWhere(s, key, id, v), key) == Keys(s, key)
    ensures DistinctKeys(s, key) ==> DistinctKeys(ReplaceWhere(s, key, id, v), key)
  {
    var r := ReplaceWhere(s, key, id, v);
    assert forall i :: 0 <= i < |s| ==> key(r[i]) == key(s[i]);
  }

  /** An id occurs in `s + [v]` exactly when it occurs in `s` or is `v`'s. */
  lemma HasKeySnoc<T>(s: seq<T>, v: T, key: T -> string, id: string)
    ensures HasKey(s + [v], key, id) <==> HasKey(s, key, id) || key(v) == id
  {
    var r := s + [v];
    assert forall i :: 0 <= i < |s| ==> r[i] == s[i];
    assert r[|s|] == v;
  }

  /** Replacing by an element with the matched `_id` keeps which ids occur. */
  lemma ReplaceKeepsHasKey<T>(s: seq<T>, key: T -> string, id: string, v: T, x: string)
    requires key(v) == id
    ensures HasKey(ReplaceWhere(s, key, id, v), key, x) <==> HasKey(s, key, x)
  {
    var r := ReplaceWhere(s, key, id, v);
    assert forall i :: 0 <= i < |s| ==> key(r[i]) == key(s[i]);
  }

  /** `s.filter(x => key(x) !== id)`. */
  function RemoveWhere<T(!new)>(s: seq<T>, key: T -> string, id: string): (r: seq<T>)
    ensures |r| <= |s|
    ensures forall x :: x in r <==> x in s && key(x) != id
    ensures !HasKey(r, key, id)
    ensures !HasKey(s, key, id) ==> r == s
  {
    if s == [] then []
    else if key(s[0]) == id then RemoveWhere(s[1..], key, id)
    else [s[0]] + RemoveWhere(s[1..], key, id)
  }

  /** Removal keeps the survivors in their original order: it acts on each
      part of a concatenation separately. */
  lemma {:induction false} RemoveDistributes<T(!new)>(a: seq<T>, b: seq<T>, key: T -> string, id: string)
    ensures RemoveWhere(a + b, key, id) == RemoveWhere(a, key, id) + RemoveWhere(b, key, id)
  {
    if a != [] {
      assert (a + b)[1..] == a[1..] + b;
      RemoveDistributes(a[1..], b, key, id);
    } else {
      assert a + b == b;
    }
  }

  /** Removal never creates a shared `_id`. */
  lemma {:induction false} RemoveKeepsDistinct<T(!new)>(s: seq<T>, key: T -> string, id: string)
    requires DistinctKeys(s, key)
    ensures DistinctKeys(RemoveWhere(s, key, id), key)
  {
    if s != [] {
      assert DistinctKeys(s[1..], key) by {
        forall i, j | 0 <= i < j < |s| - 1 ensures key(s[1..][i]) != key(s[1..][j]) {
          assert s[1..][i] == s[i + 1] && s[1..][j] == s[j + 1];
        }
      }
      RemoveKeepsDistinct(s[1..], key, id);
      var rest := RemoveWhere(s[1..], key, id);
      if key(s[0]) != id {
        forall x | x in rest ensures key(x) != key(s[0]) {
          var j :| 0 <= j < |s[1..]| && s[1..][j] == x;
          assert s[j + 1] == x;
        }
      }
    }
  }

  /** `s.some(x => key(x) === id) ? s : [...s, v]`. */
  function AppendIfAbsent<T>(s: seq<T>, key: T -> string, v: T): (r: seq<T>)
    ensures HasKey(s, key, key(v)) ==> r == s
    ensures !HasKey(s, key, key(v)) ==> r == s + [v]
    ensures DistinctKeys(s, key) ==> DistinctKeys(r, key)
  {
    if exists i :: 0 <= i < |s| && key(s[i]) == key(v) then s
    else
      var r := s + [v];
      assert forall i :: 0 <= i < |s| ==> r[i] == s[i];
      r
  }
}
