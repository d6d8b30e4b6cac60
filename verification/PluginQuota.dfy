/** Plugin key-value storage with a quota per plugin that spans its namespaces. */
module PluginQuota {
  import opened Options

  const MaxKeys := 1024
  const MaxBytes := 16 * 1024 * 1024

  datatype Key = Key(plugin: string, namespace: string, key: string)

  type Values = map<Key, string>

  datatype Error = QuotaExceeded | NotFound | AlreadyExists

  function KeysOf(values: Values, plugin: string): set<Key> {
    set k | k in values && k.plugin == plugin
  }

  /** The bytes stored under some keys. */
  ghost function Total(values: Values, keys: set<Key>): nat
    requires keys <= values.Keys
  {
    if keys == {} then 0 else
    var k :| k in keys;
    |values[k]| + Total(values, keys - {k})
  }

  lemma {:induction false} TotalWithout(values: Values, keys: set<Key>, k: Key)
    requires keys <= values.Keys && k in keys
    ensures Total(values, keys) == |values[k]| + Total(values, keys - {k})
    decreases |keys|
  {
    var first :| first in keys && Total(values, keys) == |values[first]| + Total(values, keys - {first});
    if first != k {
      TotalWithout(values, keys - {first}, k);
      TotalWithout(values, keys - {k}, first);
      assert keys - {first} - {k} == keys - {k} - {first};
    }
  }

  lemma {:induction false} TotalAlike(values: Values, other: Values, keys: set<Key>)
    requires keys <= values.Keys && keys <= other.Keys && forall k :: k in keys ==> values[k] == other[k]
    ensures Total(values, keys) == Total(other, keys)
    decreases |keys|
  {
    if k :| k in keys {
      TotalWithout(values, keys, k);
      TotalWithout(other, keys, k);
      TotalAlike(values, other, keys - {k});
    }
  }

  // ---- quota

  /** The plugin's other keys leave room for a value of that size. */
  ghost predicate Fits(values: Values, k: Key, size: nat) {
    var others := KeysOf(values, k.plugin) - {k};
    |others| < MaxKeys && Total(values, others) + size <= MaxBytes
  }

  ghost predicate PluginWithin(values: Values, plugin: string) {
    |KeysOf(values, plugin)| <= MaxKeys && Total(values, KeysOf(values, plugin)) <= MaxBytes
  }

  ghost predicate WithinQuota(values: Values) {
    forall p :: PluginWithin(values, p)
  }

  lemma OthersAlike(values: Values, k: Key, v: string, p: string)
    requires p != k.plugin
    ensures KeysOf(values[k := v], p) == KeysOf(values, p) && Total(values[k := v], KeysOf(values, p)) == Total(values, KeysOf(values, p))
  {
    assert KeysOf(values[k := v], p) == KeysOf(values, p);
    TotalAlike(values, values[k := v], KeysOf(values, p));
  }

  lemma OwnWritten(values: Values, k: Key, v: string)
    ensures var others, after := KeysOf(values, k.plugin) - {k}, KeysOf(values[k := v], k.plugin);
      && after == others + {k} && |after| == |others| + 1
      && Total(values[k := v], after) == Total(values, others) + |v|
  {
    var others, after := KeysOf(values, k.plugin) - {k}, KeysOf(values[k := v], k.plugin);
    assert after == others + {k};
    TotalWithout(values[k := v], after, k);
    assert after - {k} == others;
    TotalAlike(values, values[k := v], others);
  }

  /** A write that fits keeps every plugin within its quota. */
  lemma WriteKeepsQuota(values: Values, k: Key, v: string)
    requires WithinQuota(values) && Fits(values, k, |v|)
    ensures WithinQuota(values[k := v])
  {
    var after := values[k := v];
    forall p
      ensures PluginWithin(after, p)
    {
      assert PluginWithin(values, p);
      if p == k.plugin {
        OwnWritten(values, k, v);
      } else {
        OthersAlike(values, k, v, p);
      }
    }
  }

  lemma DeleteKeepsQuota(values: Values, k: Key)
    requires WithinQuota(values)
    ensures WithinQuota(values - {k})
  {
    var after := values - {k};
    forall p
      ensures PluginWithin(after, p)
    {
      assert PluginWithin(values, p);
      var left := KeysOf(values, p) - {k};
      assert KeysOf(values - {k}, p) == left;
      TotalAlike(values, values - {k}, left);
      if k in KeysOf(values, p) {
        TotalWithout(values, KeysOf(values, p), k);
      } else {
        assert left == KeysOf(values, p);
      }
    }
  }

  /** Overwriting a key with a value no larger than the old one always fits, even at the quota. */
  lemma OverwriteAlwaysFits(values: Values, k: Key, v: string)
    requires WithinQuota(values) && k in values && |v| <= |values[k]|
    ensures Fits(values, k, |v|)
  {
    assert PluginWithin(values, k.plugin);
    TotalWithout(values, KeysOf(values, k.plugin), k);
  }

  /** Moving a value to a new key fits exactly when overwriting it in place would. */
  lemma MoveFits(values: Values, from: Key, to: Key, v: string)
    requires from in values && to !in values && from.plugin == to.plugin
    ensures Fits(values - {from}, to, |v|) <==> Fits(values, from, |v|)
  {
    var others := KeysOf(values, from.plugin) - {from};
    assert KeysOf(values - {from}, to.plugin) - {to} == others;
    TotalAlike(values, values - {from}, others);
  }

  // ---- the store

  class PluginStore {
    var values: Values

    ghost predicate Valid()
      reads this
    {
      WithinQuota(values)
    }

    constructor ()
      ensures Valid() && values == map[]
    {
      values := map[];
    }

    /** Counts a plugin's other keys and their bytes. */
    method Usage(k: Key) returns (count: nat, size: nat)
      ensures count == |KeysOf(values, k.plugin) - {k}| && size == Total(values, KeysOf(values, k.plugin) - {k})
    {
      var others := KeysOf(values, k.plugin) - {k};
      count, size := |others|, 0;
      var todo := others;
      while todo != {}
        invariant todo <= others && size + Total(values, todo) == Total(values, others)
        decreases todo
      {
        var next :| next in todo;
        TotalWithout(values, todo, next);
        size := size + |values[next]|;
        todo := todo - {next};
      }
    }

    method ValidateQuota(k: Key, size: nat) returns (error: Option<Error>)
      ensures error == if Fits(values, k, size) then None else Some(QuotaExceeded)
    {
      var count, used := Usage(k);
      if count >= MaxKeys || used + size > MaxBytes {
        return Some(QuotaExceeded);
      }
      return None;
    }

    method WritePluginValue(k: Key, v: string) returns (error: Option<Error>)
      requires Valid()
      modifies this
      ensures Valid()
      ensures error == if Fits(old(values), k, |v|) then None else Some(QuotaExceeded)
      ensures values == if error.None? then old(values)[k := v] else old(values)
    {
      hide WithinQuota;
      error := ValidateQuota(k, |v|);
      if error.None? {
        WriteKeepsQuota(values, k, v);
        values := values[k := v];
      }
    }

    /** Moves a value to a new key of the same namespace. */
    method ReplacePluginValue(from: Key, newKey: string, v: string) returns (error: Option<Error>)
      requires Valid()
      modifies this
      ensures Valid()
      ensures error == if newKey == from.key then (if Fits(old(values), from, |v|) then None else Some(QuotaExceeded))
                       else if from !in old(values) then Some(NotFound)
                       else if from.(key := newKey) in old(values) then Some(AlreadyExists)
                       else if Fits(old(values), from, |v|) then None else Some(QuotaExceeded)
      ensures values == if error.None? then (old(values) - {from})[from.(key := newKey) := v] else old(values)
    {
      hide WithinQuota, Fits;
      var to := from.(key := newKey);
      if newKey == from.key {
        error := WritePluginValue(from, v);
        assert (old(values) - {from})[to := v] == old(values)[from := v];
        return;
      }
      if from !in values {
        return Some(NotFound);
      }
      if to in values {
        return Some(AlreadyExists);
      }
      error := ValidateQuota(from, |v|);
      if error.None? {
        MoveFits(values, from, to, v);
        DeleteKeepsQuota(values, from);
        WriteKeepsQuota(values - {from}, to, v);
        values := values - {from};
        values := values[to := v];
      }
    }

    method DeletePluginValue(k: Key)
      requires Valid()
      modifies this
      ensures Valid() && values == old(values) - {k}
    {
      DeleteKeepsQuota(values, k);
      values := values - {k};
    }
  }
}
