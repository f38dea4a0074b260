/**
 * A dictionary built by a sequence of assignments `m[key] = value`, starting
 * from `{}`: every key assigned at least once is present, and its value is the
 * one of the last assignment to it. Both normalisers build their maps this way.
 */
module LastWriteWins {

  /** The dictionary left by performing the assignments `kvs` in order on `{}`. */
  function Assign<K, V>(kvs: seq<(K, V)>): map<K, V>
  {
    if kvs == [] then map[]
    else Assign(kvs[..|kvs| - 1])[kvs[|kvs| - 1].0 := kvs[|kvs| - 1].1]
  }

  /** One more assignment on top of those already done. */
  lemma AssignStep<K, V>(kvs: seq<(K, V)>, key: K, value: V)
    ensures Assign(kvs + [(key, value)]) == Assign(kvs)[key := value]
  {
    assert (kvs + [(key, value)])[..|kvs|] == kvs;
  }

  /** The keys present are exactly the keys assigned. */
  lemma {:induction false} AssignKeys<K, V>(kvs: seq<(K, V)>)
    ensures Assign(kvs).Keys == set j | 0 <= j < |kvs| :: kvs[j].0
  {
    if kvs != [] {
      var init := kvs[..|kvs| - 1];
      AssignKeys(init);
      assert forall j :: 0 <= j < |init| ==> init[j] == kvs[j];
      var last := kvs[|kvs| - 1].0;
      assert (set j | 0 <= j < |kvs| :: kvs[j].0) == (set j | 0 <= j < |init| :: init[j].0) + {last};
    }
  }

  /** A key's value is the one of the last assignment to that key. */
  lemma {:induction false} AssignLast<K, V>(kvs: seq<(K, V)>, i: nat)
    requires i < |kvs|
    requires forall j :: i < j < |kvs| ==> kvs[j].0 != kvs[i].0
    ensures kvs[i].0 in Assign(kvs) && Assign(kvs)[kvs[i].0] == kvs[i].1
  {
    if i < |kvs| - 1 {
      var init := kvs[..|kvs| - 1];
      assert forall j :: 0 <= j < |init| ==> init[j] == kvs[j];
      AssignLast(init, i);
    }
  }

  /** A key never assigned is absent. */
  lemma AssignAbsent<K, V>(kvs: seq<(K, V)>, key: K)
    requires forall j :: 0 <= j < |kvs| ==> kvs[j].0 != key
    ensures key !in Assign(kvs)
  {
    AssignKeys(kvs);
  }

  /**
   * Assigning `f(v)` wherever `v` was assigned gives the map of `f` over the
   * values of the original map.
   */
  lemma {:induction false} AssignProjects<K, V, W>(kvs: seq<(K, V)>, projected: seq<(K, W)>, f: V -> W)
    requires |kvs| == |projected|
    requires forall i :: 0 <= i < |kvs| ==> projected[i] == (kvs[i].0, f(kvs[i].1))
    ensures Assign(projected) == map k | k in Assign(kvs) :: f(Assign(kvs)[k])
  {
    if kvs != [] {
      var n := |kvs| - 1;
      var init, initProjected := kvs[..n], projected[..n];
      assert forall i :: 0 <= i < n ==> init[i] == kvs[i] && initProjected[i] == projected[i];
      AssignProjects(init, initProjected, f);
    }
  }
}
