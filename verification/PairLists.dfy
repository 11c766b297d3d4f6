/** Maps filled from lists of pairs, where a key stored again overwrites its value. */
module PairLists {
  function Overwrite<K, V>(kv: map<K, V>, ps: seq<(K, V)>): map<K, V>
    decreases |ps|
  {
    if ps == [] then kv else Overwrite(kv[ps[0].0 := ps[0].1], ps[1..])
  }

  /** The map in which every key has the value of its last pair. */
  ghost predicate LastWins<K(!new), V>(kv: map<K, V>, ps: seq<(K, V)>) {
    && (forall k :: k in kv <==> exists i | 0 <= i < |ps| :: ps[i].0 == k)
    && (forall i | 0 <= i < |ps| :: (forall j | i < j < |ps| :: ps[j].0 != ps[i].0) ==>
          ps[i].0 in kv && kv[ps[i].0] == ps[i].1)
  }

  lemma {:induction false} OverwriteKeeps<K(!new), V>(kv: map<K, V>, ps: seq<(K, V)>)
    ensures var z := Overwrite(kv, ps);
      && (forall k :: k in z <==> k in kv || exists i | 0 <= i < |ps| :: ps[i].0 == k)
      && (forall k | k in kv && (forall i | 0 <= i < |ps| :: ps[i].0 != k) :: z[k] == kv[k])
      && (forall i | 0 <= i < |ps| && (forall j | i < j < |ps| :: ps[j].0 != ps[i].0) :: z[ps[i].0] == ps[i].1)
    decreases |ps|
  {
    if ps != [] {
      var next := kv[ps[0].0 := ps[0].1];
      var rest := ps[1..];
      OverwriteKeeps(next, rest);
      assert forall i | 0 <= i < |rest| :: rest[i] == ps[i + 1];
      assert forall i | 0 < i < |ps| :: ps[i] == rest[i - 1];
    }
  }

  lemma OverwriteLastWins<K(!new), V>(ps: seq<(K, V)>)
    ensures LastWins(Overwrite(map[], ps), ps)
  {
    OverwriteKeeps(map[], ps);
  }

  /** With distinct keys every pair is kept. */
  lemma DistinctAreKept<K(!new), V>(ps: seq<(K, V)>)
    requires forall i, j | 0 <= i < j < |ps| :: ps[i].0 != ps[j].0
    ensures var z := Overwrite(map[], ps);
      (forall i | 0 <= i < |ps| :: ps[i].0 in z && z[ps[i].0] == ps[i].1) && forall k :: k in z <==> exists i | 0 <= i < |ps| :: ps[i].0 == k
  {
    OverwriteKeeps(map[], ps);
  }
}
