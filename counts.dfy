/**
  The per-entity-type tally `total_pii_found` of app.py: a Python dict from
  entity type to count. A dict remembers the order in which its keys were
  first inserted, and its `items()` yield that order, so the map is kept
  together with its keys in insertion order.
 */
module EntityCounts {

  datatype CountMap = CountMap(keys: seq<string>, count: map<string, nat>)

  /** The dict before the first detection. */
  const Empty: CountMap := CountMap([], map[])

  /** Every key is listed once, the listed keys are exactly the map's keys,
      and a key is only ever present with a count of at least one. */
  ghost predicate Valid(d: CountMap) {
    && (forall i, j :: 0 <= i < j < |d.keys| ==> d.keys[i] != d.keys[j])
    && (forall k :: k in d.count <==> k in d.keys)
    && (forall k :: k in d.count ==> d.count[k] >= 1)
  }

  /** `d.get(k, 0)`. */
  function Get(d: CountMap, k: string): nat {
    if k in d.count then d.count[k] else 0
  }

  /** `d[k] = d.get(k, 0) + 1`: a new key is appended after all existing ones,
      an existing key keeps its place. */
  function Increment(d: CountMap, k: string): (r: CountMap)
    ensures Get(r, k) == Get(d, k) + 1
    ensures forall k' :: k' != k ==> Get(r, k') == Get(d, k')
    ensures k in d.count ==> r.keys == d.keys
    ensures k !in d.count ==> r.keys == d.keys + [k]
  {
    CountMap(if k in d.count then d.keys else d.keys + [k], d.count[k := Get(d, k) + 1])
  }

  /** An increment keeps the dict well formed. */
  lemma IncrementValid(d: CountMap, k: string)
    requires Valid(d)
    ensures Valid(Increment(d, k))
  {
  }

  /** One increment per entity type of `ts`, in order. */
  function AddAll(d: CountMap, ts: seq<string>): CountMap {
    if ts == [] then d else Increment(AddAll(d, ts[..|ts| - 1]), ts[|ts| - 1])
  }

  /** The tally of a whole run: every detected entity type counted from empty. */
  function Tally(ts: seq<string>): CountMap {
    AddAll(Empty, ts)
  }

  /** Adding detections keeps the dict well formed. */
  lemma {:induction false} AddAllValid(d: CountMap, ts: seq<string>)
    requires Valid(d)
    ensures Valid(AddAll(d, ts))
  {
    if ts != [] {
      AddAllValid(d, ts[..|ts| - 1]);
      IncrementValid(AddAll(d, ts[..|ts| - 1]), ts[|ts| - 1]);
    }
  }

  /** Sum of the counts of `keys` in `m`. */
  function SumOf(keys: seq<string>, m: map<string, nat>): nat {
    if keys == [] then 0
    else SumOf(keys[..|keys| - 1], m) + (if keys[|keys| - 1] in m then m[keys[|keys| - 1]] else 0)
  }

  /** Sum of all counts in the dict, `sum(d.values())`. */
  function Total(d: CountMap): nat {
    SumOf(d.keys, d.count)
  }

  /** Changing the map at a key that is not listed does not change the sum. */
  lemma {:induction false} SumOfUnlisted(keys: seq<string>, m: map<string, nat>, k: string, v: nat)
    requires k !in keys
    ensures SumOf(keys, m[k := v]) == SumOf(keys, m)
  {
    if keys != [] {
      SumOfUnlisted(keys[..|keys| - 1], m, k, v);
    }
  }

  /** Adding one at a key listed exactly once adds one to the sum. */
  lemma {:induction false} SumOfBump(keys: seq<string>, m: map<string, nat>, k: string)
    requires forall i, j :: 0 <= i < j < |keys| ==> keys[i] != keys[j]
    requires k in keys && k in m
    ensures SumOf(keys, m[k := m[k] + 1]) == SumOf(keys, m) + 1
  {
    var n := |keys| - 1;
    var front := keys[..n];
    if keys[n] == k {
      assert k !in front;
      SumOfUnlisted(front, m, k, m[k] + 1);
    } else {
      assert k in front by {
        var i :| 0 <= i < |keys| && keys[i] == k;
        assert i < n && front[i] == k;
      }
      SumOfBump(front, m, k);
    }
  }

  /** Each increment adds exactly one to the total. */
  lemma IncrementTotal(d: CountMap, k: string)
    requires Valid(d)
    ensures Total(Increment(d, k)) == Total(d) + 1
  {
    var r := Increment(d, k);
    if k in d.count {
      SumOfBump(d.keys, d.count, k);
    } else {
      SumOfUnlisted(d.keys, d.count, k, 1);
      assert r.keys[..|r.keys| - 1] == d.keys;
    }
  }

  /** Adding the entity types of `a` and then those of `b` is adding those of
      `a + b`. */
  lemma {:induction false} AddAllAppend(d: CountMap, a: seq<string>, b: seq<string>)
    ensures AddAll(d, a + b) == AddAll(AddAll(d, a), b)
  {
    if b == [] {
      assert a + b == a;
    } else {
      var n := |b| - 1;
      assert (a + b)[..|a + b| - 1] == a + b[..n];
      AddAllAppend(d, a, b[..n]);
    }
  }

  /** Each key's count grows by exactly the number of times it occurs in `ts`. */
  lemma {:induction false} AddAllGet(d: CountMap, ts: seq<string>, k: string)
    ensures Get(AddAll(d, ts), k) == Get(d, k) + multiset(ts)[k]
  {
    if ts != [] {
      var n := |ts| - 1;
      AddAllGet(d, ts[..n], k);
      assert ts == ts[..n] + [ts[n]];
      assert multiset(ts) == multiset(ts[..n]) + multiset{ts[n]};
    }
  }

  /** Adding detections only ever appends keys, keeping the earlier ones in
      their order, and never lowers a count. */
  lemma {:induction false} AddAllGrows(d: CountMap, ts: seq<string>)
    ensures d.keys <= AddAll(d, ts).keys
    ensures forall k :: Get(d, k) <= Get(AddAll(d, ts), k)
  {
    if ts != [] {
      AddAllGrows(d, ts[..|ts| - 1]);
    }
  }

  /** Adding detections raises the total by their number. */
  lemma {:induction false} AddAllTotal(d: CountMap, ts: seq<string>)
    requires Valid(d)
    ensures Total(AddAll(d, ts)) == Total(d) + |ts|
  {
    if ts != [] {
      AddAllTotal(d, ts[..|ts| - 1]);
      AddAllValid(d, ts[..|ts| - 1]);
      IncrementTotal(AddAll(d, ts[..|ts| - 1]), ts[|ts| - 1]);
    }
  }

  /** The final tally counts each entity type exactly as often as it was
      detected, has exactly the detected types as keys, and its counts sum
      to the number of detections. */
  lemma TallyIsExact(ts: seq<string>)
    ensures Valid(Tally(ts))
    ensures forall k :: Get(Tally(ts), k) == multiset(ts)[k]
    ensures forall k :: k in Tally(ts).count <==> k in ts
    ensures Total(Tally(ts)) == |ts|
  {
    AddAllValid(Empty, ts);
    forall k ensures Get(Tally(ts), k) == multiset(ts)[k] {
      AddAllGet(Empty, ts, k);
    }
    forall k ensures k in Tally(ts).count <==> k in ts {
      assert (k in ts) <==> multiset(ts)[k] > 0;
    }
    AddAllTotal(Empty, ts);
  }
}
