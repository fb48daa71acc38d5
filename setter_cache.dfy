/**
 The functional contract of one setter table: insert-if-absent, never
 replace, never remove. `PutIfAbsent` is one call; `Replay`, `Responses`
 and `Misses` follow a whole sequence of calls on one table, made one at
 a time in some sequential order.
 */
module SetterCache {
  import opened Setters

  /** The table after one call for key `k` that would store `v` on a miss. */
  function PutIfAbsent<K, V>(m: map<K, V>, k: K, v: V): (r: map<K, V>)
    ensures r.Keys == m.Keys + {k}
    ensures forall j :: j in m ==> r[j] == m[j]
    ensures k in m ==> r == m
    ensures k !in m ==> r[k] == v
  {
    if k in m then m else m[k := v]
  }

  /** A second call with the same key changes nothing, whatever it would store. */
  lemma PutIfAbsentIdempotent<K, V>(m: map<K, V>, k: K, v: V, v': V)
    ensures PutIfAbsent(PutIfAbsent(m, k, v), k, v') == PutIfAbsent(m, k, v)
  {
  }

  /** The keys named by a sequence of calls. */
  function KeysOf<K>(calls: seq<Request<K>>): set<K>
  {
    set i | 0 <= i < |calls| :: calls[i].key
  }

  lemma KeysOfCons<K>(calls: seq<Request<K>>)
    requires calls != []
    ensures KeysOf(calls) == {calls[0].key} + KeysOf(calls[1..])
  {
  }

  /** The table after the calls `calls`, made one after another on `m`. */
  function Replay<K>(variant: Variant, m: map<K, Setter>, calls: seq<Request<K>>): map<K, Setter>
    decreases |calls|
  {
    if calls == [] then m
    else Replay(variant, PutIfAbsent(m, calls[0].key, Build(variant, calls[0])), calls[1..])
  }

  /** What each of the calls `calls`, made one after another on `m`, returns. */
  function Responses<K>(variant: Variant, m: map<K, Setter>, calls: seq<Request<K>>): (r: seq<Setter>)
    ensures |r| == |calls|
    decreases |calls|
  {
    if calls == [] then []
    else
      var m' := PutIfAbsent(m, calls[0].key, Build(variant, calls[0]));
      [m'[calls[0].key]] + Responses(variant, m', calls[1..])
  }

  /** How many of the calls, made one after another on `m`, find their key
      absent from the table and so build a setter. */
  function Misses<K>(variant: Variant, m: map<K, Setter>, calls: seq<Request<K>>): nat
    decreases |calls|
  {
    if calls == [] then 0
    else
      (if calls[0].key in m then 0 else 1)
      + Misses(variant, PutIfAbsent(m, calls[0].key, Build(variant, calls[0])), calls[1..])
  }

  /** The table grows by exactly the keys the calls name: nothing is removed. */
  lemma {:induction false} ReplayKeys<K>(variant: Variant, m: map<K, Setter>, calls: seq<Request<K>>)
    ensures Replay(variant, m, calls).Keys == m.Keys + KeysOf(calls)
    decreases |calls|
  {
    if calls != [] {
      KeysOfCons(calls);
      ReplayKeys(variant, PutIfAbsent(m, calls[0].key, Build(variant, calls[0])), calls[1..]);
    }
  }

  /** An entry stored before the calls is still there, with the same value. */
  lemma {:induction false} ReplayKeepsEntries<K>(variant: Variant, m: map<K, Setter>, calls: seq<Request<K>>, k: K)
    requires k in m
    ensures k in Replay(variant, m, calls) && Replay(variant, m, calls)[k] == m[k]
    decreases |calls|
  {
    if calls != [] {
      ReplayKeepsEntries(variant, PutIfAbsent(m, calls[0].key, Build(variant, calls[0])), calls[1..], k);
    }
  }

  /** For a key absent at the start, the stored setter is the one built from
      the inputs of the FIRST call for that key; later inputs are ignored. */
  lemma {:induction false} ReplayFirstCallWins<K>(variant: Variant, m: map<K, Setter>, calls: seq<Request<K>>, i: nat)
    requires i < |calls| && calls[i].key !in m
    requires forall j :: 0 <= j < i ==> calls[j].key != calls[i].key
    ensures calls[i].key in Replay(variant, m, calls)
    ensures Replay(variant, m, calls)[calls[i].key] == Setter(variant, calls[i].groupKey, calls[i].commandKey)
    decreases |calls|
  {
    var m' := PutIfAbsent(m, calls[0].key, Build(variant, calls[0]));
    if i == 0 {
      ReplayKeepsEntries(variant, m', calls[1..], calls[0].key);
    } else {
      assert calls[1..][i - 1] == calls[i];
      ReplayFirstCallWins(variant, m', calls[1..], i - 1);
    }
  }

  /** Every call returns the setter the table finally holds for its key. */
  lemma {:induction false} ResponsesAreFinalEntries<K>(variant: Variant, m: map<K, Setter>, calls: seq<Request<K>>, i: nat)
    requires i < |calls|
    ensures calls[i].key in Replay(variant, m, calls)
    ensures Responses(variant, m, calls)[i] == Replay(variant, m, calls)[calls[i].key]
    decreases |calls|
  {
    var m' := PutIfAbsent(m, calls[0].key, Build(variant, calls[0]));
    if i == 0 {
      ReplayKeepsEntries(variant, m', calls[1..], calls[0].key);
    } else {
      assert calls[1..][i - 1] == calls[i];
      ResponsesAreFinalEntries(variant, m', calls[1..], i - 1);
    }
  }

  /** All calls for the same key receive the same setter. */
  lemma SameKeySameSetter<K>(variant: Variant, m: map<K, Setter>, calls: seq<Request<K>>, i: nat, j: nat)
    requires i < |calls| && j < |calls| && calls[i].key == calls[j].key
    ensures Responses(variant, m, calls)[i] == Responses(variant, m, calls)[j]
  {
    ResponsesAreFinalEntries(variant, m, calls, i);
    ResponsesAreFinalEntries(variant, m, calls, j);
  }

  /** A setter is built once per key that was absent at the start, and no more. */
  lemma {:induction false} MissesCount<K>(variant: Variant, m: map<K, Setter>, calls: seq<Request<K>>)
    ensures Misses(variant, m, calls) == |KeysOf(calls) - m.Keys|
    decreases |calls|
  {
    if calls != [] {
      var k := calls[0].key;
      var m' := PutIfAbsent(m, k, Build(variant, calls[0]));
      KeysOfCons(calls);
      MissesCount(variant, m', calls[1..]);
      NewKeysSplit(m.Keys, k, KeysOf(calls[1..]));
    }
  }

  /** Counting the new keys of `{k} + s`: `k` first, then the rest of `s`. */
  lemma NewKeysSplit<K>(present: set<K>, k: K, s: set<K>)
    ensures |({k} + s) - present| == (if k in present then 0 else 1) + |s - (present + {k})|
  {
    var head := {k} - present;
    var rest := s - (present + {k});
    assert ({k} + s) - present == head + rest;
    assert head !! rest;
    assert |head| == if k in present then 0 else 1;
  }

  /** The number of setters built is exactly how much the table grows. */
  lemma MissesAreGrowth<K>(variant: Variant, m: map<K, Setter>, calls: seq<Request<K>>)
    ensures |Replay(variant, m, calls).Keys| == |m.Keys| + Misses(variant, m, calls)
  {
    MissesCount(variant, m, calls);
    ReplayKeys(variant, m, calls);
    var added := KeysOf(calls) - m.Keys;
    assert Replay(variant, m, calls).Keys == m.Keys + added;
    assert m.Keys !! added;
  }

  /** Many calls for one key that is absent at the start: exactly one setter
      is built, and every call receives the one built by the first call. */
  lemma SingleConstruction<K>(variant: Variant, m: map<K, Setter>, calls: seq<Request<K>>, k: K)
    requires calls != [] && k !in m
    requires forall i :: 0 <= i < |calls| ==> calls[i].key == k
    ensures Misses(variant, m, calls) == 1
    ensures forall i :: 0 <= i < |calls| ==>
      Responses(variant, m, calls)[i] == Setter(variant, calls[0].groupKey, calls[0].commandKey)
  {
    MissesCount(variant, m, calls);
    assert KeysOf(calls) == {k};
    ReplayFirstCallWins(variant, m, calls, 0);
    forall i | 0 <= i < |calls|
      ensures Responses(variant, m, calls)[i] == Setter(variant, calls[0].groupKey, calls[0].commandKey)
    {
      ResponsesAreFinalEntries(variant, m, calls, i);
    }
  }
}
