/** Counting occurrences in a `Map` keyed by strings: the counts, and the
    keys in the order the `Map` iterates them (first insertion). Both the
    author filter and the word frequencies of the voice fingerprint count
    this way. */
module Tally {

  function CountOf(keys: seq<string>, k: string): (n: nat)
    ensures n <= |keys|
    ensures n > 0 <==> k in keys
  {
    if keys == [] then 0
    else CountOf(keys[..|keys| - 1], k) + (if keys[|keys| - 1] == k then 1 else 0)
  }

  /** The `Map` of counts after counting `keys`. */
  function Counts(keys: seq<string>): (m: map<string, nat>)
    ensures forall k :: k in m <==> k in keys
    ensures forall k :: k in m ==> m[k] == CountOf(keys, k)
  {
    map k | k in keys :: CountOf(keys, k)
  }

  /** The distinct keys in order of first occurrence: the iteration order
      of the `Map`. */
  function Order(keys: seq<string>): (r: seq<string>)
    ensures forall k :: k in r <==> k in keys
    ensures forall i, j :: 0 <= i < j < |r| ==> r[i] != r[j]
  {
    if keys == [] then []
    else
      var prev := Order(keys[..|keys| - 1]);
      var k := keys[|keys| - 1];
      if k in keys[..|keys| - 1] then prev else prev + [k]
  }

  lemma OrderStep(keys: seq<string>, k: string)
    ensures Order(keys + [k]) == if k in keys then Order(keys) else Order(keys) + [k]
  {
    var ks := keys + [k];
    assert ks[..|ks| - 1] == keys;
  }

  lemma CountsStep(keys: seq<string>, k: string)
    ensures Counts(keys + [k]) == Counts(keys)[k := (if k in Counts(keys) then Counts(keys)[k] else 0) + 1]
  {
    var ks := keys + [k];
    assert ks[..|ks| - 1] == keys;
    forall x | x in ks ensures CountOf(ks, x) == CountOf(keys, x) + (if x == k then 1 else 0) {
    }
  }

  /** One counting step on the `Map` and its key order, `m.set(k, (m.get(k)
      ?? 0) + 1)`, matches counting one more key. */
  lemma TallyStep(keys: seq<string>, k: string, m: map<string, nat>, order: seq<string>)
    requires m == Counts(keys) && order == Order(keys)
    ensures m[k := (if k in m then m[k] else 0) + 1] == Counts(keys + [k])
    ensures (if k in m then order else order + [k]) == Order(keys + [k])
  {
    OrderStep(keys, k);
    CountsStep(keys, k);
  }

  lemma {:induction false} OrderOfOneKey(keys: seq<string>, top: string)
    requires keys != [] && forall i :: 0 <= i < |keys| ==> keys[i] == top
    ensures Order(keys) == [top]
  {
    var init := keys[..|keys| - 1];
    if init == [] {
      assert Order(keys) == Order(init) + [top];
    } else {
      OrderOfOneKey(init, top);
      assert init[0] == top;
      assert Order(keys) == Order(init);
    }
  }

  lemma {:induction false} CountAll(keys: seq<string>, top: string)
    requires forall i :: 0 <= i < |keys| ==> keys[i] == top
    ensures CountOf(keys, top) == |keys|
  {
    if keys != [] {
      CountAll(keys[..|keys| - 1], top);
    }
  }

  /** The counts of the keys listed in `order`, added up. */
  function CountSum(order: seq<string>, keys: seq<string>): nat {
    if order == [] then 0 else CountOf(keys, order[0]) + CountSum(order[1..], keys)
  }

  lemma {:induction false} CountSumStep(order: seq<string>, keys: seq<string>, k: string)
    requires forall i, j :: 0 <= i < j < |order| ==> order[i] != order[j]
    ensures CountSum(order, keys + [k]) == CountSum(order, keys) + (if k in order then 1 else 0)
  {
    if order != [] {
      var ks := keys + [k];
      assert ks[..|ks| - 1] == keys;
      CountSumStep(order[1..], keys, k);
      if order[0] == k {
        assert k !in order[1..];
      }
      assert k in order <==> order[0] == k || k in order[1..];
    }
  }

  lemma {:induction false} CountSumAppend(order: seq<string>, keys: seq<string>, k: string)
    ensures CountSum(order + [k], keys) == CountSum(order, keys) + CountOf(keys, k)
  {
    if order != [] {
      assert (order + [k])[1..] == order[1..] + [k];
      CountSumAppend(order[1..], keys, k);
    } else {
      assert ([] + [k])[1..] == [];
    }
  }

  /** Adding up the count of every distinct key gives the number of keys. */
  lemma {:induction false} CountsAddUp(keys: seq<string>)
    ensures CountSum(Order(keys), keys) == |keys|
  {
    if keys != [] {
      var init := keys[..|keys| - 1];
      var k := keys[|keys| - 1];
      assert keys == init + [k];
      CountsAddUp(init);
      OrderStep(init, k);
      if k in init {
        CountSumStep(Order(init), init, k);
      } else {
        CountSumStep(Order(init), init, k);
        CountSumAppend(Order(init), keys, k);
      }
    }
  }
}
