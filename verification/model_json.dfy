/**
 The ordinal and default-value assignment `Model.to_json` performs on the
 model's own template and field dictionaries before serialising them
 (`genanki/model.py`). Each template and field gets its list index as `ord`;
 every other key is only added when the caller did not supply it.
 */
module ModelJson {
  import opened Json
  import opened Models

  /** The `setdefault` calls `to_json` makes on each template, in order. */
  const TemplateDefaults: seq<(string, Json)> :=
    [("bafmt", JStr("")), ("bqfmt", JStr("")), ("did", JNull)]

  /** The `setdefault` calls `to_json` makes on each field, in order. */
  const FieldDefaults: seq<(string, Json)> :=
    [ ("font", JStr("Liberation Sans")), ("media", JList([])), ("rtl", JBool(false)),
      ("size", JInt(20)), ("sticky", JBool(false)) ]

  lemma TemplateDefaultsShape()
    ensures forall j | 0 <= j < |TemplateDefaults| :: TemplateDefaults[j].0 != "ord"
    ensures forall i, j | 0 <= i < j < |TemplateDefaults| :: TemplateDefaults[i].0 != TemplateDefaults[j].0
    ensures DefaultKeys(TemplateDefaults) == {"bafmt", "bqfmt", "did"}
  {
    var keys := DefaultKeys(TemplateDefaults);
    assert TemplateDefaults[0].0 == "bafmt" && TemplateDefaults[1].0 == "bqfmt" && TemplateDefaults[2].0 == "did";
    assert keys <= {"bafmt", "bqfmt", "did"};
  }

  lemma FieldDefaultsShape()
    ensures forall j | 0 <= j < |FieldDefaults| :: FieldDefaults[j].0 != "ord"
    ensures forall i, j | 0 <= i < j < |FieldDefaults| :: FieldDefaults[i].0 != FieldDefaults[j].0
    ensures DefaultKeys(FieldDefaults) == {"font", "media", "rtl", "size", "sticky"}
  {
    var keys := DefaultKeys(FieldDefaults);
    assert FieldDefaults[0].0 == "font" && FieldDefaults[1].0 == "media" && FieldDefaults[2].0 == "rtl";
    assert FieldDefaults[3].0 == "size" && FieldDefaults[4].0 == "sticky";
    assert keys <= {"font", "media", "rtl", "size", "sticky"};
  }

  /** The dictionary after `d['ord'] = ord` and the `setdefault` calls. */
  function Numbered(d: Object, ord: nat, defaults: seq<(string, Json)>): (r: Object)
    requires forall j | 0 <= j < |defaults| :: defaults[j].0 != "ord"
    requires forall i, j | 0 <= i < j < |defaults| :: defaults[i].0 != defaults[j].0
    ensures r.Keys == d.Keys + {"ord"} + DefaultKeys(defaults)
    ensures r["ord"] == JInt(ord)
    ensures forall k | k in d && k != "ord" :: r[k] == d[k]
    ensures forall j | 0 <= j < |defaults| && defaults[j].0 !in d :: r[defaults[j].0] == defaults[j].1
  {
    SetDefaults(d["ord" := JInt(ord)], defaults)
  }

  /** One template dictionary after `to_json`. */
  function TemplateJson(t: CardTemplate, ord: nat): (r: CardTemplate)
    ensures r.name == t.name && r.qfmt == t.qfmt && r.afmt == t.afmt
    ensures "ord" in r.props && r.props["ord"] == JInt(ord)
    ensures forall k | k in t.props && k != "ord" :: k in r.props && r.props[k] == t.props[k]
    ensures forall j | 0 <= j < |TemplateDefaults| && TemplateDefaults[j].0 !in t.props ::
              TemplateDefaults[j].0 in r.props && r.props[TemplateDefaults[j].0] == TemplateDefaults[j].1
    ensures r.props.Keys == t.props.Keys + {"ord"} + DefaultKeys(TemplateDefaults)
  {
    TemplateDefaultsShape();
    t.(props := Numbered(t.props, ord, TemplateDefaults))
  }

  /** One field dictionary after `to_json`. */
  function FieldJson(f: FieldSpec, ord: nat): (r: FieldSpec)
    ensures r.name == f.name
    ensures "ord" in r.props && r.props["ord"] == JInt(ord)
    ensures forall k | k in f.props && k != "ord" :: k in r.props && r.props[k] == f.props[k]
    ensures forall j | 0 <= j < |FieldDefaults| && FieldDefaults[j].0 !in f.props ::
              FieldDefaults[j].0 in r.props && r.props[FieldDefaults[j].0] == FieldDefaults[j].1
    ensures r.props.Keys == f.props.Keys + {"ord"} + DefaultKeys(FieldDefaults)
  {
    FieldDefaultsShape();
    f.(props := Numbered(f.props, ord, FieldDefaults))
  }

  /** The model as `to_json` leaves it: every template and field numbered by
      its position, nothing else about the model changed. */
  function NumberModel(m: Model): (r: Model)
    ensures |r.templates| == |m.templates| && |r.fields| == |m.fields|
    ensures forall i | 0 <= i < |r.templates| ::
              "ord" in r.templates[i].props && r.templates[i].props["ord"] == JInt(i) &&
              r.templates[i].qfmt == m.templates[i].qfmt
    ensures forall i | 0 <= i < |r.fields| ::
              "ord" in r.fields[i].props && r.fields[i].props["ord"] == JInt(i) &&
              r.fields[i].name == m.fields[i].name
    ensures forall i | 0 <= i < |r.templates| :: r.templates[i] == TemplateJson(m.templates[i], i)
    ensures forall i | 0 <= i < |r.fields| :: r.fields[i] == FieldJson(m.fields[i], i)
    ensures r.modelId == m.modelId && r.name == m.name && r.css == m.css && r.modelType == m.modelType
  {
    m.(templates := seq(|m.templates|, i requires 0 <= i < |m.templates| => TemplateJson(m.templates[i], i)),
       fields := seq(|m.fields|, i requires 0 <= i < |m.fields| => FieldJson(m.fields[i], i)))
  }

  /** Numbering a dictionary twice with the same ordinal changes nothing. */
  lemma NumberedIdempotent(d: Object, ord: nat, defaults: seq<(string, Json)>)
    requires forall j | 0 <= j < |defaults| :: defaults[j].0 != "ord"
    requires forall i, j | 0 <= i < j < |defaults| :: defaults[i].0 != defaults[j].0
    ensures Numbered(Numbered(d, ord, defaults), ord, defaults) == Numbered(d, ord, defaults)
  {
    var once := Numbered(d, ord, defaults);
    assert once["ord" := JInt(ord)] == once;
    SetDefaultsIdempotent(d["ord" := JInt(ord)], defaults);
  }

  /** Serialising a model a second time finds nothing left to change. */
  lemma NumberModelIdempotent(m: Model)
    ensures NumberModel(NumberModel(m)) == NumberModel(m)
  {
    var once := NumberModel(m);
    var twice := NumberModel(once);
    TemplateDefaultsShape();
    FieldDefaultsShape();
    forall i | 0 <= i < |m.templates|
      ensures twice.templates[i] == once.templates[i]
    {
      NumberedIdempotent(m.templates[i].props, i, TemplateDefaults);
    }
    forall i | 0 <= i < |m.fields|
      ensures twice.fields[i] == once.fields[i]
    {
      NumberedIdempotent(m.fields[i].props, i, FieldDefaults);
    }
  }

  /** Numbering leaves the required-field analysis as it was. */
  lemma NumberModelKeepsReq(m: Model)
    ensures ComputeReq(NumberModel(m)) == ComputeReq(m)
  {
    var n := NumberModel(m);
    assert FieldNames(n.fields) == FieldNames(m.fields);
    assert TemplateReqs(n) == TemplateReqs(m);
  }
}
