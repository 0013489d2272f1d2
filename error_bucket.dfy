/**
 * The error bucket: an insertion-ordered multimap from a key (a record
 * handle) to the list of (error, action) message pairs reported under it.
 * It starts empty and changes only through `add_error`, which appends to the
 * key's list, creating the key on its first use.
 */
module ErrorBuckets {
  /** One finding: an (error message, action message) pair. */
  type Entry = (string, string)

  type Bucket = map<string, seq<Entry>>

  /** The list stored under `key`; empty when the key is absent. */
  function Get(b: Bucket, key: string): seq<Entry> {
    if key in b then b[key] else []
  }

  /** `add_error(key, e)` on a bucket value. */
  function Add(b: Bucket, key: string, e: Entry): (b': Bucket)
    ensures b'.Keys == b.Keys + {key}
    ensures b'[key] == Get(b, key) + [e]
    ensures forall k :: k in b && k != key ==> b'[k] == b[k]
  {
    b[key := Get(b, key) + [e]]
  }

  /** The bucket after a series of `add_error` calls, made in sequence order. */
  function AddAll(b: Bucket, adds: seq<(string, Entry)>): Bucket
    decreases |adds|
  {
    if adds == [] then b else AddAll(Add(b, adds[0].0, adds[0].1), adds[1..])
  }

  /** Reference definition: the entries of a call series that name `key`, in call order. */
  function EntriesFor(adds: seq<(string, Entry)>, key: string): seq<Entry>
  {
    if adds == [] then []
    else (if adds[0].0 == key then [adds[0].1] else []) + EntriesFor(adds[1..], key)
  }

  /** The keys a call series names. */
  function KeysOf(adds: seq<(string, Entry)>): set<string> {
    set i | 0 <= i < |adds| :: adds[i].0
  }

  /**
   * After a series of calls, each key holds what it held before followed by
   * exactly the entries added under it, in call order: nothing is overwritten
   * and no other key's list changes.
   */
  lemma {:induction false} AddAllEntries(b: Bucket, adds: seq<(string, Entry)>, key: string)
    ensures Get(AddAll(b, adds), key) == Get(b, key) + EntriesFor(adds, key)
    decreases |adds|
  {
    if adds != [] {
      var b1 := Add(b, adds[0].0, adds[0].1);
      AddAllEntries(b1, adds[1..], key);
      if adds[0].0 == key {
        assert Get(b1, key) == Get(b, key) + [adds[0].1];
      } else {
        assert Get(b1, key) == Get(b, key);
      }
    }
  }

  /** Two call series in a row act as their concatenation. */
  lemma {:induction false} AddAllAppend(b: Bucket, xs: seq<(string, Entry)>, ys: seq<(string, Entry)>)
    ensures AddAll(b, xs + ys) == AddAll(AddAll(b, xs), ys)
    decreases |xs|
  {
    if xs == [] {
      assert xs + ys == ys;
    } else {
      assert (xs + ys)[1..] == xs[1..] + ys;
      AddAllAppend(Add(b, xs[0].0, xs[0].1), xs[1..], ys);
    }
  }

  /** The entries a concatenated series names under `key` are those of each part in turn. */
  lemma {:induction false} EntriesForAppend(xs: seq<(string, Entry)>, ys: seq<(string, Entry)>, key: string)
    ensures EntriesFor(xs + ys, key) == EntriesFor(xs, key) + EntriesFor(ys, key)
    decreases |xs|
  {
    if xs == [] {
      assert xs + ys == ys;
    } else {
      var head := if xs[0].0 == key then [xs[0].1] else [];
      assert (xs + ys)[0] == xs[0];
      assert (xs + ys)[1..] == xs[1..] + ys;
      assert EntriesFor(xs + ys, key) == head + EntriesFor(xs[1..] + ys, key);
      EntriesForAppend(xs[1..], ys, key);
      assert EntriesFor(xs, key) == head + EntriesFor(xs[1..], key);
    }
  }

  /** The keys after a series of calls are the earlier keys and the keys the calls name. */
  lemma {:induction false} AddAllKeys(b: Bucket, adds: seq<(string, Entry)>)
    ensures AddAll(b, adds).Keys == b.Keys + KeysOf(adds)
    decreases |adds|
  {
    if adds != [] {
      AddAllKeys(Add(b, adds[0].0, adds[0].1), adds[1..]);
      assert KeysOf(adds) == {adds[0].0} + KeysOf(adds[1..]) by {
        forall k | k in KeysOf(adds) ensures k in {adds[0].0} + KeysOf(adds[1..]) {
          var i :| 0 <= i < |adds| && adds[i].0 == k;
          if i > 0 { assert adds[1..][i - 1].0 == k; }
        }
        forall k | k in KeysOf(adds[1..]) ensures k in KeysOf(adds) {
          var i :| 0 <= i < |adds[1..]| && adds[1..][i].0 == k;
          assert adds[i + 1].0 == k;
        }
      }
    }
  }

  /**
   * Starting from an empty bucket, duplicate keys accumulate rather than
   * overwrite: there is one key per distinct key passed, and every stored
   * list is non-empty.
   */
  lemma FreshBucketKeys(adds: seq<(string, Entry)>)
    ensures AddAll(map[], adds).Keys == KeysOf(adds)
    ensures |AddAll(map[], adds).Keys| == |KeysOf(adds)|
    ensures forall k :: k in AddAll(map[], adds) ==> AddAll(map[], adds)[k] == EntriesFor(adds, k) != []
  {
    AddAllKeys(map[], adds);
    forall k | k in AddAll(map[], adds)
      ensures AddAll(map[], adds)[k] == EntriesFor(adds, k) != []
    {
      AddAllEntries(map[], adds, k);
      var i :| 0 <= i < |adds| && adds[i].0 == k;
      EntriesForListed(adds, i);
    }
  }

  /** A key named by some call has at least one entry. */
  lemma {:induction false} EntriesForListed(adds: seq<(string, Entry)>, i: nat)
    requires i < |adds|
    ensures adds[i].1 in EntriesFor(adds, adds[i].0)
  {
    if i > 0 {
      EntriesForListed(adds[1..], i - 1);
    }
  }

  /** The key order after a series of calls: a key the order lacks is appended at its first call. */
  function OrderAfter(order: seq<string>, adds: seq<(string, Entry)>): seq<string>
    decreases |adds|
  {
    if adds == [] then order
    else OrderAfter(if adds[0].0 in order then order else order + [adds[0].0], adds[1..])
  }

  /** Two call series in a row extend the order as their concatenation does. */
  lemma {:induction false} OrderAfterAppend(order: seq<string>, xs: seq<(string, Entry)>, ys: seq<(string, Entry)>)
    ensures OrderAfter(order, xs + ys) == OrderAfter(OrderAfter(order, xs), ys)
    decreases |xs|
  {
    if xs == [] {
      assert xs + ys == ys;
    } else {
      assert (xs + ys)[0] == xs[0];
      assert (xs + ys)[1..] == xs[1..] + ys;
      OrderAfterAppend(if xs[0].0 in order then order else order + [xs[0].0], xs[1..], ys);
    }
  }

  /**
   * A series of calls keeps the earlier order as a prefix, adds exactly the
   * keys it names that the order lacked, and adds each of them once.
   */
  lemma {:induction false} OrderAfterKeys(order: seq<string>, adds: seq<(string, Entry)>)
    requires forall i, j :: 0 <= i < j < |order| ==> order[i] != order[j]
    ensures order <= OrderAfter(order, adds)
    ensures forall k :: k in OrderAfter(order, adds) <==> k in order || k in KeysOf(adds)
    ensures var o := OrderAfter(order, adds); forall i, j :: 0 <= i < j < |o| ==> o[i] != o[j]
    decreases |adds|
  {
    if adds != [] {
      var next := if adds[0].0 in order then order else order + [adds[0].0];
      assert forall i, j :: 0 <= i < j < |next| ==> next[i] != next[j];
      OrderAfterKeys(next, adds[1..]);
      forall k | k in KeysOf(adds) ensures k in next || k in KeysOf(adds[1..]) {
        var i :| 0 <= i < |adds| && adds[i].0 == k;
        if i > 0 { assert adds[1..][i - 1].0 == k; }
      }
      forall k | k in KeysOf(adds[1..]) ensures k in KeysOf(adds) {
        var i :| 0 <= i < |adds[1..]| && adds[1..][i].0 == k;
        assert adds[i + 1].0 == k;
      }
      assert adds[0].0 in KeysOf(adds);
    }
  }

  /** Two entries under '1' and one under '2' leave two keys, created in that order, holding those lists in call order. */
  lemma TwoKeysScenario()
    ensures var b := AddAll(map[], [("1", ("err_1", "action_1")), ("1", ("err_2", "action_2")), ("2", ("err_3", "action_3"))]);
      |b.Keys| == 2
      && Get(b, "1") == [("err_1", "action_1"), ("err_2", "action_2")]
      && Get(b, "2") == [("err_3", "action_3")]
    ensures OrderAfter([], [("1", ("err_1", "action_1")), ("1", ("err_2", "action_2")), ("2", ("err_3", "action_3"))]) == ["1", "2"]
  {
    var b1 := Add(map[], "1", ("err_1", "action_1"));
    var b2 := Add(b1, "1", ("err_2", "action_2"));
    var b3 := Add(b2, "2", ("err_3", "action_3"));
    assert b3.Keys == {"1", "2"};
  }

  /** The stateful bucket: the mapping and the order in which its keys were created. */
  class ErrorBucket {
    var bucket: Bucket
    var keyOrder: seq<string>

    /** Each key appears once in creation order, and no key holds an empty list. */
    ghost predicate Valid()
      reads this
    {
      && (forall k :: k in bucket <==> k in keyOrder)
      && (forall i, j :: 0 <= i < j < |keyOrder| ==> keyOrder[i] != keyOrder[j])
      && (forall k :: k in bucket ==> bucket[k] != [])
    }

    /** A fresh bucket holds nothing. */
    constructor()
      ensures Valid()
      ensures bucket == map[] && keyOrder == []
    {
      bucket := map[];
      keyOrder := [];
    }

    /** Appends `e` to the list under `key`, creating the key at the end of the order when it is new. */
    method AddError(key: string, e: Entry)
      requires Valid()
      modifies this
      ensures Valid()
      ensures bucket == Add(old(bucket), key, e)
      ensures keyOrder == if key in old(bucket) then old(keyOrder) else old(keyOrder) + [key]
    {
      if key !in bucket {
        keyOrder := keyOrder + [key];
      }
      bucket := Add(bucket, key, e);
    }
  }
}
