/**
 The JSON values that appear in a model's field and template dictionaries.
 */
module Json {

  datatype Json =
    | JNull
    | JBool(b: bool)
    | JInt(i: int)
    | JStr(s: string)
    | JList(items: seq<Json>)

  /** A JSON object, as the Python dictionaries the library mutates. */
  type Object = map<string, Json>

  /** Python's `d.setdefault(key, value)`, keeping only the updated dictionary. */
  function SetDefault(d: Object, key: string, value: Json): (r: Object)
    ensures key in r && r[key] == (if key in d then d[key] else value)
    ensures r.Keys == d.Keys + {key}
    ensures forall k | k in d :: r[k] == d[k]
  {
    if key in d then d else d[key := value]
  }

  /** The keys of a list of defaults. */
  function DefaultKeys(defaults: seq<(string, Json)>): (keys: set<string>)
    ensures forall j | 0 <= j < |defaults| :: defaults[j].0 in keys
    ensures forall k | k in keys :: exists j | 0 <= j < |defaults| :: defaults[j].0 == k
  {
    set j | 0 <= j < |defaults| :: defaults[j].0
  }

  /** `setdefault` applied for each pair in turn. */
  function SetDefaults(d: Object, defaults: seq<(string, Json)>): (r: Object)
    ensures r.Keys == d.Keys + DefaultKeys(defaults)
    ensures forall k | k in d :: r[k] == d[k]
    ensures forall j | 0 <= j < |defaults| && defaults[j].0 !in d ::
              r[defaults[j].0] == defaults[j].1 || exists i | 0 <= i < j :: defaults[i].0 == defaults[j].0
    decreases |defaults|
  {
    if |defaults| == 0 then d
    else
      var d1 := SetDefault(d, defaults[0].0, defaults[0].1);
      var r := SetDefaults(d1, defaults[1..]);
      assert DefaultKeys(defaults) == {defaults[0].0} + DefaultKeys(defaults[1..]) by {
        assert forall j | 1 <= j < |defaults| :: defaults[j] == defaults[1..][j - 1];
        forall k | k in DefaultKeys(defaults) ensures k in {defaults[0].0} + DefaultKeys(defaults[1..]) {
          var j :| 0 <= j < |defaults| && defaults[j].0 == k;
          if j > 0 {
            assert defaults[1..][j - 1].0 == k;
          }
        }
      }
      assert forall j | 1 <= j < |defaults| :: defaults[j] == defaults[1..][j - 1];
      r
  }

  /** Once every default key is present, `setdefault` changes nothing: the
      defaults can be applied any number of times. */
  lemma SetDefaultsIdempotent(d: Object, defaults: seq<(string, Json)>)
    ensures SetDefaults(SetDefaults(d, defaults), defaults) == SetDefaults(d, defaults)
  {
    var once := SetDefaults(d, defaults);
    var twice := SetDefaults(once, defaults);
    assert twice.Keys == once.Keys;
  }
}
