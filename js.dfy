/** The few pieces of JavaScript semantics the controllers rely on: `undefined`,
    truthiness, and the Array.prototype methods slice, splice, find, map,
    indexOf and filter-style scans, stated on Dafny sequences. */
module Js {

  /** `None` stands for JavaScript's `undefined` (a field the request body left out). */
  datatype Option<+T> = None | Some(value: T)

  /** How a call ends: with a value, or by throwing a TypeError (reading a
      property of `undefined`). */
  datatype Completion<+T> = Normal(value: T) | TypeError

  /** Truthiness of the values the controllers test with `if (x)`:
      undefined, "" , 0 and false are falsy. */
  predicate TruthyString(v: Option<string>) { v.Some? && v.value != "" }
  predicate TruthyNumber(v: Option<int>) { v.Some? && v.value != 0 }
  predicate TruthyBool(v: Option<bool>) { v.Some? && v.value }

  function Min(a: int, b: int): int { if a < b then a else b }
  function Max(a: int, b: int): int { if a < b then b else a }

  /** How slice and splice resolve a relative position: a negative one counts
      back from the end, and the result is clamped into [0, len]. */
  function Resolve(rel: int, len: nat): (k: nat)
    ensures k <= len
  {
    if rel < 0 then Max(len + rel, 0) else Min(rel, len)
  }

  /** Array.prototype.slice(start, end): the elements from the resolved
      start up to, not including, the resolved end. */
  function Slice<T>(s: seq<T>, start: int, end: int): (r: seq<T>)
    ensures |r| == Max(0, Resolve(end, |s|) - Resolve(start, |s|))
    ensures Resolve(start, |s|) + |r| <= |s|
    ensures r == s[Resolve(start, |s|)..Resolve(start, |s|) + |r|]
  {
    var from, to := Resolve(start, |s|), Resolve(end, |s|);
    if from < to then s[from..to] else s[from..from]
  }

  /** Array.prototype.splice(start, deleteCount, ...items): the pair
      (removed elements, array afterwards). */
  function Splice<T>(s: seq<T>, start: int, deleteCount: int, items: seq<T>): (r: (seq<T>, seq<T>))
    ensures |r.0| <= |s| && |r.1| == |s| - |r.0| + |items|
    ensures multiset(r.0) + multiset(r.1) == multiset(s) + multiset(items)
  {
    var k := Resolve(start, |s|);
    var d := Min(Max(deleteCount, 0), |s| - k);
    assert s == s[..k] + s[k..k + d] + s[k + d..];
    (s[k..k + d], s[..k] + items + s[k + d..])
  }

  /** Replacing one in-range element with splice(i, 1, x) writes x at i and
      hands back the element that was there. */
  lemma SpliceReplacesAt<T>(s: seq<T>, i: int, x: T)
    requires 0 <= i < |s|
    ensures Splice(s, i, 1, [x]) == ([s[i]], s[i := x])
  {
    assert Resolve(i, |s|) == i && Min(Max(1, 0), |s| - i) == 1;
    assert s[i..i + 1] == [s[i]];
    assert s[..i] + [x] + s[i + 1..] == s[i := x];
  }

  /** Removing one in-range element with splice(i, 1) closes the gap and
      keeps every other element in order. */
  lemma SpliceRemovesAt<T>(s: seq<T>, i: int)
    requires 0 <= i < |s|
    ensures Splice(s, i, 1, []).0 == [s[i]]
    ensures Splice(s, i, 1, []).1 == s[..i] + s[i + 1..]
    ensures s == Splice(s, i, 1, []).1[..i] + [s[i]] + Splice(s, i, 1, []).1[i..]
  {
    assert Resolve(i, |s|) == i && Min(Max(1, 0), |s| - i) == 1;
    assert s[i..i + 1] == [s[i]];
    var after := Splice(s, i, 1, []).1;
    assert after == s[..i] + [] + s[i + 1..];
    assert s[..i] + [] == s[..i];
    assert after[..i] == s[..i];
    assert after[i..] == s[i + 1..];
    assert s == s[..i] + [s[i]] + s[i + 1..];
  }

  /** Array.prototype.map(key). */
  function MapSeq<T, U>(key: T -> U, s: seq<T>): (r: seq<U>)
    ensures |r| == |s| && forall k :: 0 <= k < |s| ==> r[k] == key(s[k])
  {
    seq(|s|, k requires 0 <= k < |s| => key(s[k]))
  }

  /** Array.prototype.indexOf(x): the first position holding x, or -1. */
  function IndexOf<T(==)>(s: seq<T>, x: T): (i: int)
    ensures -1 <= i < |s|
    ensures i == -1 <==> x !in s
    ensures 0 <= i ==> s[i] == x && x !in s[..i]
  {
    if |s| == 0 then -1
    else if s[0] == x then 0
    else
      var j := IndexOf(s[1..], x);
      if j == -1 then -1
      else
        assert s[..j + 1] == [s[0]] + s[1..][..j];
        j + 1
  }

  /** Array.prototype.find(x => key(x) === id): the first element whose key is id. */
  function Find<T>(s: seq<T>, key: T -> string, id: string): (r: Option<T>)
    ensures r.None? <==> forall k :: 0 <= k < |s| ==> key(s[k]) != id
    ensures r.Some? ==> key(r.value) == id && r.value in s
  {
    if |s| == 0 then None
    else if key(s[0]) == id then Some(s[0])
    else Find(s[1..], key, id)
  }

  /** `find(x => key(x) === id)` returns the element at the first position
      whose key is id. */
  lemma {:induction false} FindIsFirstMatch<T>(s: seq<T>, key: T -> string, id: string, i: nat)
    requires i < |s| && key(s[i]) == id
    requires forall k :: 0 <= k < i ==> key(s[k]) != id
    ensures Find(s, key, id) == Some(s[i])
  {
    if i > 0 {
      assert key(s[0]) != id;
      assert forall k :: 0 <= k < i - 1 ==> s[1..][k] == s[k + 1];
      FindIsFirstMatch(s[1..], key, id, i - 1);
    }
  }

  /** Reference definition: s with its first element whose key is id taken out. */
  function RemoveFirst<T>(s: seq<T>, key: T -> string, id: string): seq<T>
  {
    if |s| == 0 then []
    else if key(s[0]) == id then s[1..]
    else [s[0]] + RemoveFirst(s[1..], key, id)
  }

  /** Cutting out the element at the first position whose key is id (the
      position `map(key).indexOf(id)` finds) removes exactly the first element
      with that key and keeps the rest in order. */
  lemma {:induction false} CutAtFirstMatch<T>(s: seq<T>, key: T -> string, id: string, i: nat)
    requires i < |s| && key(s[i]) == id
    requires forall k :: 0 <= k < i ==> key(s[k]) != id
    ensures s[..i] + s[i + 1..] == RemoveFirst(s, key, id)
  {
    if i > 0 {
      assert key(s[0]) != id;
      assert forall k :: 0 <= k < i - 1 ==> s[1..][k] == s[k + 1];
      CutAtFirstMatch(s[1..], key, id, i - 1);
      assert s[..i] == [s[0]] + s[1..][..i - 1];
      assert s[i + 1..] == s[1..][i..];
    }
  }

  /** When id is carried by exactly one element, it is gone once that
      element is removed. */
  lemma {:induction false} RemoveFirstOfUniqueIsGone<T>(s: seq<T>, key: T -> string, id: string)
    requires forall j, k :: 0 <= j < k < |s| && key(s[j]) == id ==> key(s[k]) != id
    ensures forall k :: 0 <= k < |RemoveFirst(s, key, id)| ==> key(RemoveFirst(s, key, id)[k]) != id
  {
    if |s| > 0 {
      if key(s[0]) == id {
        forall k | 0 <= k < |s| - 1 ensures key(s[1..][k]) != id {
          assert key(s[k + 1]) != id;
        }
      } else {
        RemoveFirstOfUniqueIsGone(s[1..], key, id);
      }
    }
  }

  /** String.prototype.includes: needle occurs somewhere in haystack, that
      is, it is a prefix of haystack or of one of its suffixes. */
  function Includes(haystack: string, needle: string): (found: bool)
    ensures found <==> exists i :: 0 <= i <= |haystack| - |needle| && IsAt(haystack, needle, i)
    decreases |haystack|
  {
    if needle <= haystack then
      assert IsAt(haystack, needle, 0);
      true
    else if |haystack| == 0 then false
    else
      var rest := Includes(haystack[1..], needle);
      IsAtTail(haystack, needle);
      assert !IsAt(haystack, needle, 0);
      rest
  }

  /** needle occupies haystack from position i on. */
  predicate IsAt(haystack: string, needle: string, i: int)
  {
    0 <= i && i + |needle| <= |haystack| && haystack[i..i + |needle|] == needle
  }

  /** An occurrence is at position 0 or is an occurrence in the tail,
      shifted by one. */
  lemma IsAtTail(haystack: string, needle: string)
    requires |haystack| > 0
    ensures (exists i :: 0 <= i <= |haystack| - |needle| && IsAt(haystack, needle, i))
        <==> IsAt(haystack, needle, 0)
             || exists j :: 0 <= j <= |haystack| - 1 - |needle| && IsAt(haystack[1..], needle, j)
  {
    var tail := haystack[1..];
    forall j | 0 <= j <= |tail| - |needle| && IsAt(tail, needle, j)
      ensures IsAt(haystack, needle, j + 1)
    {
      assert haystack[j + 1..j + 1 + |needle|] == tail[j..j + |needle|];
    }
    forall i | 1 <= i <= |haystack| - |needle| && IsAt(haystack, needle, i)
      ensures IsAt(tail, needle, i - 1)
    {
      var here, there := haystack[i..i + |needle|], tail[i - 1..i - 1 + |needle|];
      assert forall k :: 0 <= k < |here| ==> here[k] == there[k];
      assert here == there;
    }
  }
}
