// The record that the suggester and the diagram generator read for each
// tracked path: its key string, its normalised path, whether it is a
// directory and the path of its parent, if any.  key_manager.py does not
// define this record, so its fields are exactly the ones those two read.
module KeyInfos {
  import opened Outcomes
  import opened Dicts

  datatype KeyInfo = KeyInfo(keyString: string, normPath: string, isDirectory: bool, parentPath: Option<string>)

  /** `path_to_key_info.values()`, in insertion order. */
  function Values(d: Dict<KeyInfo>): (r: seq<KeyInfo>)
    requires Valid(d)
    ensures |r| == |d.order|
    ensures forall i | 0 <= i < |r| :: r[i] == d.values[d.order[i]]
    ensures forall info | info in r :: exists p | p in d.values :: d.values[p] == info
  {
    seq(|d.order|, i requires 0 <= i < |d.order| => d.values[d.order[i]])
  }

  /** `next((info for info in infos if info.key_string == key), None)`: the first record with that key. */
  function FirstWithKey(infos: seq<KeyInfo>, key: string): (r: Option<KeyInfo>)
    ensures r.Some? ==> r.value in infos && r.value.keyString == key
    ensures r.None? <==> forall i | 0 <= i < |infos| :: infos[i].keyString != key
    decreases |infos|
  {
    if infos == [] then None
    else if infos[0].keyString == key then Some(infos[0])
    else
      var r := FirstWithKey(infos[1..], key);
      assert forall i | 1 <= i < |infos| :: infos[i] == infos[1..][i - 1];
      r
  }

  /** `{info.key_string: info for info in infos}[key]`: a later record with the same key wins. */
  function LastWithKey(infos: seq<KeyInfo>, key: string): (r: Option<KeyInfo>)
    ensures r.Some? ==> r.value in infos && r.value.keyString == key
    ensures r.None? <==> forall i | 0 <= i < |infos| :: infos[i].keyString != key
    decreases |infos|
  {
    if infos == [] then None
    else if infos[|infos| - 1].keyString == key then Some(infos[|infos| - 1])
    else LastWithKey(infos[..|infos| - 1], key)
  }

  /** No key string is used by two records. */
  predicate UniqueKeys(infos: seq<KeyInfo>) {
    forall i, j | 0 <= i < j < |infos| :: infos[i].keyString != infos[j].keyString
  }

  /** With unique key strings, the first and the last record of a key are the one record that has it. */
  lemma {:induction false} OnlyWithKey(infos: seq<KeyInfo>, key: string, info: KeyInfo)
    requires UniqueKeys(infos) && info in infos && info.keyString == key
    ensures FirstWithKey(infos, key) == Some(info) && LastWithKey(infos, key) == Some(info)
    decreases |infos|
  {
    var j :| 0 <= j < |infos| && infos[j] == info;
    if j > 0 {
      assert infos[0].keyString != key;
      assert infos[1..][j - 1] == info;
      OnlyWithKey(infos[1..], key, info);
    }
    if j < |infos| - 1 {
      assert infos[|infos| - 1].keyString != key;
      assert infos[..|infos| - 1][j] == info;
      OnlyWithKey(infos[..|infos| - 1], key, info);
    }
  }
}
