/** Python dictionaries with string keys, which remember insertion order: a list of
    (key, value) pairs. Assigning to a present key replaces its value where it stands;
    assigning to a new key appends it. */
module Dicts {
  import opened Wrappers

  type Dict<V> = seq<(string, V)>

  /** `list(d.keys())`. */
  function Keys<V>(d: Dict<V>): seq<string> {
    seq(|d|, i requires 0 <= i < |d| => d[i].0)
  }

  predicate DistinctKeys<V>(d: Dict<V>) {
    forall i, j | 0 <= i < j < |d| :: d[i].0 != d[j].0
  }

  /** `d.get(k)`. */
  function Get<V>(d: Dict<V>, k: string): Option<V> {
    if d == [] then None
    else if d[0].0 == k then Some(d[0].1)
    else Get(d[1..], k)
  }

  /** `d.get(k)` finds a value exactly for the listed keys. */
  lemma {:induction false} GetDefined<V>(d: Dict<V>, k: string)
    ensures Get(d, k).Some? <==> k in Keys(d)
  {
    if d != [] {
      GetDefined(d[1..], k);
      assert Keys(d) == [d[0].0] + Keys(d[1..]);
    }
  }

  /** `d.get(k)` finds the first pair naming `k`. */
  lemma {:induction false} GetFirst<V>(d: Dict<V>, i: nat)
    requires i < |d|
    requires forall j | 0 <= j < i :: d[j].0 != d[i].0
    ensures Get(d, d[i].0) == Some(d[i].1)
  {
    if i > 0 {
      GetFirst(d[1..], i - 1);
    }
  }

  /** `d[k] = v`. */
  function Put<V>(d: Dict<V>, k: string, v: V): Dict<V> {
    if d == [] then [(k, v)]
    else if d[0].0 == k then [(k, v)] + d[1..]
    else [d[0]] + Put(d[1..], k, v)
  }

  /** After `d[k] = v`, `k` maps to `v` and every other key to what it mapped to before. */
  lemma {:induction false} PutGet<V>(d: Dict<V>, k: string, v: V, k': string)
    ensures Get(Put(d, k, v), k') == if k' == k then Some(v) else Get(d, k')
  {
    if d != [] && d[0].0 != k {
      PutGet(d[1..], k, v, k');
    }
  }

  /** `d[k] = v` keeps the key order, appending `k` only when it is new. */
  lemma {:induction false} PutKeys<V>(d: Dict<V>, k: string, v: V)
    ensures Keys(Put(d, k, v)) == if k in Keys(d) then Keys(d) else Keys(d) + [k]
  {
    if d != [] {
      assert Keys(d) == [d[0].0] + Keys(d[1..]);
      if d[0].0 != k {
        PutKeys(d[1..], k, v);
        assert Keys(Put(d, k, v)) == [d[0].0] + Keys(Put(d[1..], k, v));
      } else {
        assert Keys(Put(d, k, v)) == [k] + Keys(d[1..]);
      }
    }
  }

  /** `d[k] = v` never makes a key appear twice. */
  lemma PutDistinct<V>(d: Dict<V>, k: string, v: V)
    requires DistinctKeys(d)
    ensures DistinctKeys(Put(d, k, v))
  {
    PutKeys(d, k, v);
    var r := Put(d, k, v);
    assert forall i | 0 <= i < |r| :: r[i].0 == Keys(r)[i];
    assert forall i | 0 <= i < |d| :: d[i].0 == Keys(d)[i];
  }

  /** Assigning to a key already present replaces its pair where it stands. */
  lemma {:induction false} PutPresent<V>(d: Dict<V>, i: nat, k: string, v: V)
    requires i < |d| && d[i].0 == k
    requires forall j | 0 <= j < i :: d[j].0 != k
    ensures Put(d, k, v) == d[i := (k, v)]
  {
    if i > 0 {
      PutPresent(d[1..], i - 1, k, v);
      assert d[i := (k, v)] == [d[0]] + d[1..][i - 1 := (k, v)];
    }
  }

  /** `d[k] = v` for a key `d` does not hold appends the pair. */
  lemma {:induction false} PutNew<V>(d: Dict<V>, k: string, v: V)
    requires k !in Keys(d)
    ensures Put(d, k, v) == d + [(k, v)]
  {
    if d != [] {
      assert Keys(d) == [d[0].0] + Keys(d[1..]);
      PutNew(d[1..], k, v);
      assert d == [d[0]] + d[1..];
    }
  }

  /** Looking a key up in two dicts laid end to end: the first one wins. */
  lemma {:induction false} GetAppend<V>(a: Dict<V>, b: Dict<V>, k: string)
    ensures Get(a + b, k) == if Get(a, k).Some? then Get(a, k) else Get(b, k)
  {
    if a == [] {
      assert a + b == b;
    } else {
      assert (a + b)[1..] == a[1..] + b;
      GetAppend(a[1..], b, k);
    }
  }

  // ---------------------------------------------------------------------------
  // a dict of the values that were found

  /** The keys of a list of candidate entries. */
  function EntryKeys<V>(entries: seq<(string, Option<V>)>): (r: seq<string>)
    ensures |r| == |entries| && forall i | 0 <= i < |entries| :: r[i] == entries[i].0
  {
    seq(|entries|, i requires 0 <= i < |entries| => entries[i].0)
  }

  /** `if found: d[k] = found`, entry after entry, into a fresh dict: the entries whose value was
      found, in order, unwrapped. */
  function Present<V>(entries: seq<(string, Option<V>)>): Dict<V> {
    if entries == [] then []
    else
      var last := entries[|entries| - 1];
      Present(entries[..|entries| - 1]) + if last.1.Some? then [(last.0, last.1.value)] else []
  }

  lemma {:induction false} PresentAppend<V>(a: seq<(string, Option<V>)>, b: seq<(string, Option<V>)>)
    ensures Present(a + b) == Present(a) + Present(b)
    decreases |b|
  {
    if b == [] {
      assert a + b == a;
    } else {
      var init := b[..|b| - 1];
      assert (a + b)[..|a + b| - 1] == a + init;
      assert (a + b)[|a + b| - 1] == b[|b| - 1];
      PresentAppend(a, init);
    }
  }

  /** A key of the result is the key of some entry. */
  lemma {:induction false} PresentKeysFrom<V>(entries: seq<(string, Option<V>)>)
    ensures forall k | k in Keys(Present(entries)) :: k in EntryKeys(entries)
  {
    if entries != [] {
      var init := entries[..|entries| - 1];
      PresentKeysFrom(init);
      var last := entries[|entries| - 1];
      var tail: Dict<V> := if last.1.Some? then [(last.0, last.1.value)] else [];
      assert Keys(Present(entries)) == Keys(Present(init)) + Keys(tail);
      assert forall i | 0 <= i < |init| :: EntryKeys(init)[i] == EntryKeys(entries)[i];
      assert EntryKeys(entries)[|init|] == last.0;
    }
  }

  /** When no key is listed twice, each key maps to what its entry found, and the result holds
      each key at most once. */
  lemma {:induction false} PresentGet<V>(entries: seq<(string, Option<V>)>, k: string)
    requires forall i, j | 0 <= i < j < |entries| :: entries[i].0 != entries[j].0
    ensures k !in EntryKeys(entries) ==> Get(Present(entries), k).None?
    ensures forall i | 0 <= i < |entries| && entries[i].0 == k :: Get(Present(entries), k) == entries[i].1
  {
    if entries != [] {
      var init := entries[..|entries| - 1];
      var last := entries[|entries| - 1];
      PresentGet(init, k);
      var tail: Dict<V> := if last.1.Some? then [(last.0, last.1.value)] else [];
      GetAppend(Present(init), tail, k);
      assert forall i | 0 <= i < |init| :: EntryKeys(init)[i] == EntryKeys(entries)[i];
      if k == last.0 {
        assert k !in EntryKeys(init);
      }
    }
  }

  /** `d[k] = v` on a key `d` does not hold yet: the pair is appended. */
  method Assign<V>(d: Dict<V>, k: string, v: V) returns (r: Dict<V>)
    requires k !in Keys(d)
    ensures r == d + [(k, v)]
    ensures Keys(r) == Keys(d) + [k]
  {
    PutNew(d, k, v);
    r := Put(d, k, v);
  }

  /** `if found: d[k] = found` on a key `d` does not hold yet. */
  method AssignFound<V>(d: Dict<V>, k: string, found: Option<V>) returns (r: Dict<V>)
    requires k !in Keys(d)
    ensures r == d + Present([(k, found)])
    ensures Keys(r) == Keys(d) + if found.Some? then [k] else []
  {
    r := d;
    if found.Some? {
      r := Assign(d, k, found.value);
    }
    assert Present([(k, found)]) == Present([]) + if found.Some? then [(k, found.value)] else [];
  }

  /** The next `if found: d[k] = found` of a run of them into a fresh dict. */
  method AssignNext<V>(d: Dict<V>, ghost done: seq<(string, Option<V>)>, k: string, found: Option<V>)
    returns (r: Dict<V>)
    requires d == Present(done) && k !in EntryKeys(done)
    ensures r == Present(done + [(k, found)])
  {
    PresentKeysFrom(done);
    r := AssignFound(d, k, found);
    PresentAppend(done, [(k, found)]);
  }

  /** Two `if found: d[k] = found` in a row into a fresh dict. */
  method AssignTwo<V>(a: (string, Option<V>), b: (string, Option<V>)) returns (r: Dict<V>)
    requires a.0 != b.0
    ensures r == Present([a, b])
  {
    r := AssignNext([], [], a.0, a.1);
    assert [] + [a] == [a];
    r := AssignNext(r, [a], b.0, b.1);
  }

  /** Four `if found: d[k] = found` in a row into a fresh dict. */
  method AssignFour<V>(a: (string, Option<V>), b: (string, Option<V>), c: (string, Option<V>),
                       d: (string, Option<V>)) returns (r: Dict<V>)
    requires a.0 != b.0 && a.0 != c.0 && a.0 != d.0 && b.0 != c.0 && b.0 != d.0 && c.0 != d.0
    ensures r == Present([a, b, c, d])
  {
    r := AssignTwo(a, b);
    r := AssignNext(r, [a, b], c.0, c.1);
    assert [a, b] + [c] == [a, b, c];
    r := AssignNext(r, [a, b, c], d.0, d.1);
    assert [a, b, c] + [d] == [a, b, c, d];
  }

  // ---------------------------------------------------------------------------
  // successive assignment

  /** `for k, v in pairs: d[k] = v`. */
  function PutAll<V>(d: Dict<V>, pairs: seq<(string, V)>): Dict<V> {
    if pairs == [] then d
    else Put(PutAll(d, pairs[..|pairs| - 1]), pairs[|pairs| - 1].0, pairs[|pairs| - 1].1)
  }

  /** One more assignment. */
  lemma PutAllSnoc<V>(d: Dict<V>, pairs: seq<(string, V)>, k: string, v: V)
    ensures PutAll(d, pairs + [(k, v)]) == Put(PutAll(d, pairs), k, v)
  {
    assert (pairs + [(k, v)])[..|pairs|] == pairs;
  }

  /** The value of the last pair with key `k`. */
  function LastValue<V>(pairs: seq<(string, V)>, k: string): (r: Option<V>)
    ensures r.Some? <==> exists i | 0 <= i < |pairs| :: pairs[i].0 == k
  {
    if pairs == [] then None
    else if pairs[|pairs| - 1].0 == k then Some(pairs[|pairs| - 1].1)
    else
      var init := pairs[..|pairs| - 1];
      assert forall i | 0 <= i < |init| :: init[i] == pairs[i];
      LastValue(init, k)
  }

  /** The value of the last pair naming `k` is `LastValue`'s. */
  lemma {:induction false} LastValueIsLast<V>(pairs: seq<(string, V)>, i: nat)
    requires i < |pairs|
    requires forall j | i < j < |pairs| :: pairs[j].0 != pairs[i].0
    ensures LastValue(pairs, pairs[i].0) == Some(pairs[i].1)
  {
    if i < |pairs| - 1 {
      var init := pairs[..|pairs| - 1];
      LastValueIsLast(init, i);
    }
  }

  /** After successive assignment a key holds the value of its last pair; a key no pair names
      keeps its old value. */
  lemma {:induction false} PutAllGet<V>(d: Dict<V>, pairs: seq<(string, V)>, k: string)
    ensures Get(PutAll(d, pairs), k) == if LastValue(pairs, k).Some? then LastValue(pairs, k) else Get(d, k)
  {
    if pairs != [] {
      var last := pairs[|pairs| - 1];
      PutAllGet(d, pairs[..|pairs| - 1], k);
      PutGet(PutAll(d, pairs[..|pairs| - 1]), last.0, last.1, k);
    }
  }

  /** Assigning into a fresh dict leaves it empty only when there was nothing to assign. */
  lemma PutAllEmpty<V>(pairs: seq<(string, V)>)
    ensures PutAll([], pairs) == [] <==> pairs == []
  {
    if pairs != [] {
      var last := pairs[|pairs| - 1];
      PutAllGet([], pairs, last.0);
    }
  }

}
