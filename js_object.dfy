/**
 * Plain JavaScript objects as the edit reducer uses them: a card, a change
 * record or a note is an object whose own properties are enumerated in
 * insertion order (`Object.keys`, `for ... in`). An object is an ordered
 * list of entries with pairwise distinct keys; reading a missing property
 * yields `undefined`.
 */
module JsObject {

  /** A property value. `deepEqual` on these values is `==`. */
  datatype Value =
    | Undefined
    | Null
    | Bool(b: bool)
    | Num(n: int)
    | Str(s: string)
    | Arr(items: seq<Value>)

  /** JavaScript truthiness (`if (v)`, `!v`, `Boolean(v)`). */
  predicate Truthy(v: Value) {
    match v
    case Undefined => false
    case Null => false
    case Bool(b) => b
    case Num(n) => n != 0
    case Str(s) => s != ""
    case Arr(_) => true
  }

  datatype Entry = Entry(key: string, value: Value)

  predicate DistinctKeys(entries: seq<Entry>) {
    forall i, j :: 0 <= i < j < |entries| ==> entries[i].key != entries[j].key
  }

  /** An object: its own properties in enumeration order. */
  type Object = o: seq<Entry> | DistinctKeys(o) witness []

  predicate NoDuplicates<T(==)>(s: seq<T>) {
    forall i, j :: 0 <= i < j < |s| ==> s[i] != s[j]
  }

  /** `Object.keys(o)`. */
  function Keys(o: seq<Entry>): seq<string> {
    seq(|o|, i requires 0 <= i < |o| => o[i].key)
  }

  /** The keys of an object are pairwise distinct. */
  lemma KeysDistinct(o: Object)
    ensures NoDuplicates(Keys(o))
  {
  }

  /** `o[k]`: the value of property `k`, or `undefined` when there is none. */
  function Get(o: Object, k: string): (v: Value)
    ensures k !in Keys(o) ==> v == Undefined
  {
    if o == [] then Undefined
    else
      KeysConcat([o[0]], o[1..]);
      assert [o[0]] + o[1..] == o;
      assert Keys([o[0]]) == [o[0].key];
      if o[0].key == k then o[0].value else Get(o[1..], k)
  }

  /** A property's value read through `Get` is the value of its entry. */
  lemma {:induction false} GetAt(o: Object, i: nat)
    requires i < |o|
    ensures Get(o, o[i].key) == o[i].value
  {
    if i > 0 {
      GetAt(o[1..], i - 1);
    }
  }

  /**
   * The assignment `o[k] = v`: an existing property keeps its place and
   * takes the new value; a new property is added at the end.
   */
  function Put(o: Object, k: string, v: Value): (r: Object)
    ensures forall k' :: k' in Keys(r) <==> k' in Keys(o) || k' == k
    ensures forall k' :: Get(r, k') == if k' == k then v else Get(o, k')
    ensures k in Keys(o) ==> Keys(r) == Keys(o)
    ensures k !in Keys(o) ==> r == o + [Entry(k, v)]
  {
    if o == [] then
      assert Keys([Entry(k, v)]) == [k];
      [Entry(k, v)]
    else
      var tail: Object := o[1..];
      KeysConcat([o[0]], tail);
      assert o == [o[0]] + tail;
      assert Keys([o[0]]) == [o[0].key];
      assert Keys(o) == [o[0].key] + Keys(tail);
      if o[0].key == k then
        var r: seq<Entry> := [Entry(k, v)] + tail;
        KeysConcat([Entry(k, v)], tail);
        assert Keys([Entry(k, v)]) == [k];
        assert forall i :: 0 <= i < |r| ==> r[i].key == o[i].key;
        assert r[1..] == tail;
        assert Keys(r) == Keys(o);
        r
      else
        var rest := Put(tail, k, v);
        var r: seq<Entry> := [o[0]] + rest;
        KeysConcat([o[0]], rest);
        assert o[0].key !in Keys(rest) by {
          assert o[0].key !in Keys(tail) by {
            forall j | 0 <= j < |tail| ensures Keys(tail)[j] != o[0].key {
              assert Keys(tail)[j] == o[j + 1].key;
            }
          }
        }
        assert forall m :: 0 <= m < |rest| ==> rest[m].key != o[0].key by {
          forall m | 0 <= m < |rest| ensures rest[m].key != o[0].key {
            assert Keys(rest)[m] == rest[m].key && Keys(rest)[m] in Keys(rest);
          }
        }
        assert r[1..] == rest;
        assert Keys(r) == [o[0].key] + Keys(rest);
        assert k !in Keys(o) ==> r == o + [Entry(k, v)] by {
          if k !in Keys(o) {
            assert rest == tail + [Entry(k, v)];
            assert r == ([o[0]] + tail) + [Entry(k, v)];
          }
        }
        assert DistinctKeys(r) by {
          forall i, j | 0 <= i < j < |r| ensures r[i].key != r[j].key {
            assert r[j] == rest[j - 1];
            if i > 0 {
              assert r[i] == rest[i - 1];
            }
          }
        }
        r
  }

  lemma KeysConcat(a: seq<Entry>, b: seq<Entry>)
    ensures Keys(a + b) == Keys(a) + Keys(b)
  {
  }

  /**
   * The object literal `{ ...a, ...b }`: the properties of `a`, then those
   * of `b` assigned in order, so that `b` wins where both have a property.
   */
  function Spread(a: Object, b: Object): (r: Object)
    ensures forall k :: k in Keys(r) <==> k in Keys(a) || k in Keys(b)
    ensures forall k :: Get(r, k) == if k in Keys(b) then Get(b, k) else Get(a, k)
    decreases |b|
  {
    if b == [] then a
    else
      var first := b[0];
      var rest: Object := b[1..];
      assert Keys(b) == [first.key] + Keys(rest);
      var r := Spread(Put(a, first.key, first.value), rest);
      assert forall k :: Get(r, k) == if k in Keys(b) then Get(b, k) else Get(a, k) by {
        forall k ensures Get(r, k) == if k in Keys(b) then Get(b, k) else Get(a, k) {
          if k != first.key {
            assert Get(b, k) == Get(rest, k);
          }
        }
      }
      r
  }

  /** `r` is `s` with some of its elements left out and the rest kept in order. */
  predicate Subsequence<T(==)>(r: seq<T>, s: seq<T>)
    decreases |s|
  {
    r == [] || (s != [] && ((r[0] == s[0] && Subsequence(r[1..], s[1..])) || Subsequence(r, s[1..])))
  }

  /** The elements of a subsequence are elements of the sequence. */
  lemma {:induction false} SubsequenceMembers<T>(r: seq<T>, s: seq<T>)
    requires Subsequence(r, s)
    ensures forall x :: x in r ==> x in s
    decreases |s|
  {
    if r != [] {
      if r[0] == s[0] && Subsequence(r[1..], s[1..]) {
        SubsequenceMembers(r[1..], s[1..]);
        assert r == [r[0]] + r[1..] && s == [s[0]] + s[1..];
      } else {
        SubsequenceMembers(r, s[1..]);
      }
    }
  }

  /** A subsequence of a sequence without duplicates has none either. */
  lemma {:induction false} SubsequenceDistinct<T>(r: seq<T>, s: seq<T>)
    requires Subsequence(r, s) && NoDuplicates(s)
    ensures NoDuplicates(r)
    decreases |s|
  {
    if r != [] {
      var t := s[1..];
      assert NoDuplicates(t) by {
        forall i, j | 0 <= i < j < |t| ensures t[i] != t[j] {
          assert t[i] == s[i + 1] && t[j] == s[j + 1];
        }
      }
      if r[0] == s[0] && Subsequence(r[1..], t) {
        SubsequenceDistinct(r[1..], t);
        SubsequenceMembers(r[1..], t);
        forall i, j | 0 <= i < j < |r| ensures r[i] != r[j] {
          assert r[j] == r[1..][j - 1];
          if i == 0 {
            assert r[j] in r[1..] && r[j] in t;
            var m :| 0 <= m < |t| && t[m] == r[j];
            assert t[m] == s[m + 1];
          } else {
            assert r[i] == r[1..][i - 1];
          }
        }
      } else {
        SubsequenceDistinct(r, t);
      }
    }
  }

  /**
   * Without duplicates in `s`, a subsequence is determined by its
   * elements: two subsequences with the same elements are equal.
   */
  lemma {:induction false} SubsequenceUnique<T>(r1: seq<T>, r2: seq<T>, s: seq<T>)
    requires NoDuplicates(s) && Subsequence(r1, s) && Subsequence(r2, s)
    requires forall x :: x in r1 <==> x in r2
    ensures r1 == r2
    decreases |s|
  {
    if s != [] {
      var t := s[1..];
      assert NoDuplicates(t) by {
        forall i, j | 0 <= i < j < |t| ensures t[i] != t[j] {
          assert t[i] == s[i + 1] && t[j] == s[j + 1];
        }
      }
      assert s[0] !in t by {
        forall m | 0 <= m < |t| ensures t[m] != s[0] {
          assert t[m] == s[m + 1];
        }
      }
      if s[0] in r1 {
        if Subsequence(r1, t) {
          SubsequenceMembers(r1, t);
        }
        if Subsequence(r2, t) {
          SubsequenceMembers(r2, t);
        }
        SubsequenceDistinct(r1, s);
        SubsequenceDistinct(r2, s);
        forall x ensures x in r1[1..] <==> x in r2[1..] {
          TailMembers(r1, x);
          TailMembers(r2, x);
        }
        SubsequenceUnique(r1[1..], r2[1..], t);
        assert r1 == [r1[0]] + r1[1..] && r2 == [r2[0]] + r2[1..];
      } else {
        if r1 != [] {
          assert r1[0] in r1;
        }
        if r2 != [] {
          assert r2[0] in r2;
        }
        SubsequenceUnique(r1, r2, t);
      }
    }
  }

  lemma TailMembers<T>(r: seq<T>, x: T)
    requires r != [] && NoDuplicates(r)
    ensures x in r[1..] <==> x in r && x != r[0]
  {
    if x in r[1..] {
      var j :| 0 <= j < |r[1..]| && r[1..][j] == x;
      assert r[j + 1] == x;
    }
    if x in r && x != r[0] {
      var j :| 0 <= j < |r| && r[j] == x;
      assert r[1..][j - 1] == x;
    }
  }

  /** `Array.prototype.filter`: the elements of `s` satisfying `keep`, in order. */
  function Filter(s: seq<string>, keep: string -> bool): (r: seq<string>)
    ensures forall x :: x in r <==> x in s && keep(x)
    ensures Subsequence(r, s)
    ensures NoDuplicates(s) ==> NoDuplicates(r)
    ensures |r| <= |s|
  {
    if s == [] then []
    else
      var rest := Filter(s[1..], keep);
      if keep(s[0]) then [s[0]] + rest else rest
  }

  /**
   * The contract of `Filter` determines its result: on a list without
   * duplicates, any subsequence holding exactly the kept elements is the
   * filtered list.
   */
  lemma FilterDetermined(s: seq<string>, keep: string -> bool, r: seq<string>)
    requires NoDuplicates(s) && Subsequence(r, s)
    requires forall x :: x in r <==> x in s && keep(x)
    ensures r == Filter(s, keep)
  {
    SubsequenceUnique(r, Filter(s, keep), s);
  }
}
