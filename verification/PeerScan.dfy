/** Reading an index in key order. */
module PeerScan {
  import opened Sums
  import opened PeerTypes
  import opened PeerTables

  /** The least key of a nonempty index, in byte order. */
  method First(rows: map<Key, ExecutionId>) returns (key: Key)
    requires rows != map[]
    ensures key in rows && forall other :: other in rows && other != key ==> KeyBelow(key, other)
    ensures Earliest(rows, 1) == {key}
  {
    assert exists k :: k in rows;
    key :| key in rows;
    var rest := rows.Keys - {key};
    while rest != {}
      invariant rest <= rows.Keys && key in rows && key !in rest
      invariant forall other :: other in rows && other !in rest && other != key ==> KeyBelow(key, other)
      decreases |rest|
    {
      var candidate :| candidate in rest;
      rest := rest - {candidate};
      if KeyBelow(candidate, key) {
        key := candidate;
      }
    }
    assert KeySet([key]) == {key};
    LeadersAreEarliest(rows, [key], 1);
  }

  /** `keys` are the rows before every other row, in order. */
  ghost predicate Leads(rows: map<Key, ExecutionId>, keys: seq<Key>) {
    && (forall i :: 0 <= i < |keys| ==> keys[i] in rows)
    && (forall i, j :: 0 <= i < j < |keys| ==> KeyBelow(keys[i], keys[j]))
    && (forall i, k :: 0 <= i < |keys| && k in rows && k !in keys ==> KeyBelow(keys[i], k))
  }

  /** How many rows come before this key. */
  ghost function Rank(rows: map<Key, ExecutionId>, key: Key): nat {
    |set k | k in rows && KeyBelow(k, key)|
  }

  /** The first `limit` rows of an index, or all of them. */
  ghost function Earliest(rows: map<Key, ExecutionId>, limit: nat): set<Key> {
    set k | k in rows && Rank(rows, k) < limit
  }

  function KeySet(keys: seq<Key>): set<Key> { set k | k in keys }

  lemma {:induction false} KeySetSize(keys: seq<Key>)
    requires forall i, j :: 0 <= i < j < |keys| ==> KeyBelow(keys[i], keys[j])
    ensures |KeySet(keys)| == |keys|
  {
    if keys != [] {
      var last := |keys| - 1;
      KeySetSize(keys[..last]);
      assert KeySet(keys) == KeySet(keys[..last]) + {keys[last]};
      assert keys[last] !in KeySet(keys[..last]);
    }
  }

  lemma LeadersAreEarliest(rows: map<Key, ExecutionId>, keys: seq<Key>, limit: nat)
    requires Leads(rows, keys) && |keys| <= limit && (|keys| < limit ==> forall k :: k in rows ==> k in keys)
    ensures KeySet(keys) == Earliest(rows, limit)
  {
    forall k | k in rows
      ensures k in keys <==> Rank(rows, k) < limit
    {
      var before := set l | l in rows && KeyBelow(l, k);
      if k in keys {
        var i :| 0 <= i < |keys| && keys[i] == k;
        assert before <= KeySet(keys[..i]);
        SubsetIsNoLarger(before, KeySet(keys[..i]));
        KeySetSize(keys[..i]);
      } else {
        SubsetIsNoLarger(KeySet(keys), before);
        KeySetSize(keys);
      }
    }
  }

  /** The first `limit` keys of an index in order, or all of them. */
  method Take(rows: map<Key, ExecutionId>, limit: nat) returns (keys: seq<Key>)
    ensures Leads(rows, keys)
    ensures |keys| <= limit && (|keys| < limit ==> forall k :: k in rows ==> k in keys)
    ensures KeySet(keys) == Earliest(rows, limit)
  {
    keys := [];
    var rest := rows;
    while rest != map[] && |keys| < limit
      invariant |keys| <= limit && Leads(rows, keys)
      invariant forall k :: k in rest <==> k in rows && k !in keys
      decreases limit - |keys|
    {
      var key := First(rest);
      keys := keys + [key];
      rest := rest - {key};
    }
    LeadersAreEarliest(rows, keys, limit);
  }
}
