/**
 Note models and their required-field analysis (`genanki/model.py`).

 For each card template, `_req` decides which fields must be filled in for the
 template's question side to show any field content. It renders the question
 template with every field set to a sentinel string, blanking one field at a
 time: a field whose blanking makes the sentinel vanish is necessary, and if
 any field is necessary the entry is `'all'` over those fields. Otherwise it
 renders with every field empty except one, set to the sentinel: a field
 whose sole presence makes the sentinel appear is sufficient, and the entry is
 `'any'` over those fields. A template with neither kind of field is an error.
 */
module Models {
  import opened Results
  import opened Sequences
  import opened Strings
  import opened Mustache
  import opened Json

  /** One entry of a model's field list: the `name` key and the other keys. */
  datatype FieldSpec = FieldSpec(name: string, props: Object)

  /** One entry of a model's template list. */
  datatype CardTemplate = CardTemplate(name: string, qfmt: seq<Node>, afmt: seq<Node>, props: Object)

  /** How notes of the model become cards: one card per satisfied template,
      or one card per cloze number. Any other value is kept and rejected
      when cards are generated. */
  datatype ModelType = FrontBack | Cloze | Unrecognized(code: int)

  datatype Model = Model(
    modelId: int,
    name: string,
    fields: seq<FieldSpec>,
    templates: seq<CardTemplate>,
    css: string,
    modelType: ModelType)

  datatype ReqMode = All | Any

  /** `[template_ord, 'all' | 'any', required_field_ords]`. */
  datatype ReqEntry = ReqEntry(templateOrd: nat, mode: ReqMode, fieldOrds: seq<nat>)

  /** The marker value `_req` renders fields with. */
  const Sentinel: string := "SeNtInEl"

  function FieldNames(fields: seq<FieldSpec>): (names: seq<string>)
    ensures |names| == |fields|
    ensures forall i | 0 <= i < |fields| :: names[i] == fields[i].name
  {
    seq(|fields|, i requires 0 <= i < |fields| => fields[i].name)
  }

  /** Every field holds the sentinel except field `i`, which is empty. */
  function BlankOne(names: seq<string>, i: nat): Context
    requires i < |names|
  {
    (map n | n in names :: Sentinel)[names[i] := ""]
  }

  /** Every field is empty except field `i`, which holds the sentinel. */
  function SoleSentinel(names: seq<string>, i: nat): Context
    requires i < |names|
  {
    (map n | n in names :: "")[names[i] := Sentinel]
  }

  /** Blanking field `i` leaves no field content on the question side. */
  predicate Necessary(qfmt: seq<Node>, names: seq<string>, i: nat)
    requires i < |names|
  {
    !Contains(Render(qfmt, BlankOne(names, i)), Sentinel)
  }

  /** Field `i` alone puts field content on the question side. */
  predicate Sufficient(qfmt: seq<Node>, names: seq<string>, i: nat)
    requires i < |names|
  {
    Contains(Render(qfmt, SoleSentinel(names, i)), Sentinel)
  }

  /** For each field, whether it is necessary. */
  function NecessaryFlags(qfmt: seq<Node>, names: seq<string>): (flags: seq<bool>)
    ensures |flags| == |names|
    ensures forall i | 0 <= i < |names| :: flags[i] == Necessary(qfmt, names, i)
  {
    seq(|names|, i requires 0 <= i < |names| => Necessary(qfmt, names, i))
  }

  /** For each field, whether it is sufficient. */
  function SufficientFlags(qfmt: seq<Node>, names: seq<string>): (flags: seq<bool>)
    ensures |flags| == |names|
    ensures forall i | 0 <= i < |names| :: flags[i] == Sufficient(qfmt, names, i)
  {
    seq(|names|, i requires 0 <= i < |names| => Sufficient(qfmt, names, i))
  }

  /** The requirement entry of one template, or the error `_req` raises. */
  function ReqFor(qfmt: seq<Node>, names: seq<string>, ord: nat): (r: Result<ReqEntry>)
    ensures r.Ok? ==> r.value.templateOrd == ord && |r.value.fieldOrds| > 0
    ensures r.Ok? ==> Increasing(r.value.fieldOrds)
    ensures r.Ok? ==> forall i | i in r.value.fieldOrds :: i < |names|
    ensures r.Err? ==> r.error == NoRequiredFields(ord)
  {
    var necessary := IndicesWhere(NecessaryFlags(qfmt, names));
    if |necessary| > 0 then
      Ok(ReqEntry(ord, All, necessary))
    else
      var sufficient := IndicesWhere(SufficientFlags(qfmt, names));
      if |sufficient| > 0 then
        Ok(ReqEntry(ord, Any, sufficient))
      else
        Err(NoRequiredFields(ord))
  }

  /** The mode is `'all'` exactly when some field is necessary, and the list
      is then exactly the necessary fields; otherwise it is `'any'` over
      exactly the sufficient fields; with neither kind of field, `_req` fails. */
  lemma ReqForModes(qfmt: seq<Node>, names: seq<string>, ord: nat)
    ensures var r := ReqFor(qfmt, names, ord);
      && (r.Ok? && r.value.mode == All <==> exists i | 0 <= i < |names| :: Necessary(qfmt, names, i))
      && (r.Ok? && r.value.mode == All ==>
            forall i | 0 <= i < |names| :: i in r.value.fieldOrds <==> Necessary(qfmt, names, i))
      && (r.Ok? && r.value.mode == Any ==>
            forall i | 0 <= i < |names| :: i in r.value.fieldOrds <==> Sufficient(qfmt, names, i))
      && (r.Err? <==>
            forall i | 0 <= i < |names| :: !Necessary(qfmt, names, i) && !Sufficient(qfmt, names, i))
  {
    var necessary := IndicesWhere(NecessaryFlags(qfmt, names));
    var sufficient := IndicesWhere(SufficientFlags(qfmt, names));
    if |necessary| > 0 {
      assert necessary[0] in necessary;
    } else if |sufficient| > 0 {
      assert sufficient[0] in sufficient;
    }
  }

  /** The outcome of `_req`'s loop body for each template, in template order. */
  function TemplateReqs(m: Model): (rs: seq<Result<ReqEntry>>)
    ensures |rs| == |m.templates|
    ensures forall t | 0 <= t < |rs| :: rs[t] == ReqFor(m.templates[t].qfmt, FieldNames(m.fields), t)
  {
    seq(|m.templates|, t requires 0 <= t < |m.templates| => ReqFor(m.templates[t].qfmt, FieldNames(m.fields), t))
  }

  /** `Model._req`: one entry per template, in template order, or the error
      of the first template that has no required field. */
  function ComputeReq(m: Model): (r: Result<seq<ReqEntry>>)
    ensures r.Ok? ==> |r.value| == |m.templates|
    ensures r.Ok? ==> forall t | 0 <= t < |r.value| ::
              r.value[t].templateOrd == t && TemplateReqs(m)[t] == Ok(r.value[t])
    ensures r.Err? <==> exists t | 0 <= t < |m.templates| :: TemplateReqs(m)[t].Err?
    ensures r.Err? ==> r.error.NoRequiredFields? && r.error.templateOrd < |m.templates|
    ensures r.Err? ==> TemplateReqs(m)[r.error.templateOrd].Err?
    ensures r.Err? ==> forall u | 0 <= u < r.error.templateOrd :: TemplateReqs(m)[u].Ok?
  {
    var entries := TemplateReqs(m);
    var r := Collect(entries);
    assert r.Err? ==> r.error.NoRequiredFields? && r.error.templateOrd < |entries| &&
                      entries[r.error.templateOrd] == Err(r.error) by {
      if r.Err? {
        var k :| 0 <= k < |entries| && entries[k] == Err(r.error) && forall j | 0 <= j < k :: entries[j].Ok?;
        assert r.error == NoRequiredFields(k);
      }
    }
    r
  }

  /** `_req` of a model whose every template has the given entry. */
  lemma ComputeReqOfEntries(m: Model, entries: seq<ReqEntry>)
    requires |entries| == |m.templates|
    requires forall t | 0 <= t < |m.templates| ::
               ReqFor(m.templates[t].qfmt, FieldNames(m.fields), t) == Ok(entries[t])
    ensures ComputeReq(m) == Ok(entries)
  {
    CollectAllOk(TemplateReqs(m), entries);
  }

  /** `_req` of a one-template model. */
  lemma ComputeReqOfOne(m: Model, e: ReqEntry)
    requires |m.templates| == 1
    requires ReqFor(m.templates[0].qfmt, FieldNames(m.fields), 0) == Ok(e)
    ensures ComputeReq(m) == Ok([e])
  {
    ComputeReqOfEntries(m, [e]);
  }

  /** `_req` of a two-template model. */
  lemma ComputeReqOfTwo(m: Model, e0: ReqEntry, e1: ReqEntry)
    requires |m.templates| == 2
    requires ReqFor(m.templates[0].qfmt, FieldNames(m.fields), 0) == Ok(e0)
    requires ReqFor(m.templates[1].qfmt, FieldNames(m.fields), 1) == Ok(e1)
    ensures ComputeReq(m) == Ok([e0, e1])
  {
    ComputeReqOfEntries(m, [e0, e1]);
  }

  /** `_req`'s first pass: blank each field in turn and keep the ordinals
      whose blanking removes the sentinel from the render. */
  method NecessaryPass(qfmt: seq<Node>, names: seq<string>) returns (required: seq<nat>)
    ensures required == IndicesWhere(NecessaryFlags(qfmt, names))
  {
    var necessary := NecessaryFlags(qfmt, names);
    required := [];
    for i := 0 to |names|
      invariant required == IndicesWhere(necessary[..i])
    {
      IndicesWhereSnoc(necessary, i);
      if !Contains(Render(qfmt, BlankOne(names, i)), Sentinel) {
        required := required + [i];
      }
    }
    assert necessary[..|names|] == necessary;
  }

  /** `_req`'s second pass: give each field alone the sentinel and keep the
      ordinals whose render shows it. */
  method SufficientPass(qfmt: seq<Node>, names: seq<string>) returns (required: seq<nat>)
    ensures required == IndicesWhere(SufficientFlags(qfmt, names))
  {
    var sufficient := SufficientFlags(qfmt, names);
    required := [];
    for i := 0 to |names|
      invariant required == IndicesWhere(sufficient[..i])
    {
      IndicesWhereSnoc(sufficient, i);
      if Contains(Render(qfmt, SoleSentinel(names, i)), Sentinel) {
        required := required + [i];
      }
    }
    assert sufficient[..|names|] == sufficient;
  }

  /** With a necessary field, the entry is `'all'` over the necessary fields. */
  lemma ReqForAll(qfmt: seq<Node>, names: seq<string>, ord: nat)
    requires |IndicesWhere(NecessaryFlags(qfmt, names))| > 0
    ensures ReqFor(qfmt, names, ord) == Ok(ReqEntry(ord, All, IndicesWhere(NecessaryFlags(qfmt, names))))
  {
  }

  /** Without one, it is `'any'` over the sufficient fields, or the error. */
  lemma ReqForAnyOrNone(qfmt: seq<Node>, names: seq<string>, ord: nat)
    requires |IndicesWhere(NecessaryFlags(qfmt, names))| == 0
    ensures var sufficient := IndicesWhere(SufficientFlags(qfmt, names));
      ReqFor(qfmt, names, ord) ==
        if |sufficient| > 0 then Ok(ReqEntry(ord, Any, sufficient)) else Err(NoRequiredFields(ord))
  {
  }

  /** The entries of the first `|req|` templates, extended by the next one. */
  lemma ExtendReqs(m: Model, req: seq<ReqEntry>, entry: ReqEntry)
    requires |req| < |m.templates|
    requires forall u | 0 <= u < |req| :: TemplateReqs(m)[u] == Ok(req[u])
    requires ReqFor(m.templates[|req|].qfmt, FieldNames(m.fields), |req|) == Ok(entry)
    ensures forall u | 0 <= u < |req| + 1 :: TemplateReqs(m)[u] == Ok((req + [entry])[u])
  {
  }

  /** `_req` as the library writes it: two passes over the fields per
      template, and an exception for a template with no required field. */
  method ComputeReqByLoops(m: Model) returns (r: Result<seq<ReqEntry>>)
    ensures r == ComputeReq(m)
  {
    var names := FieldNames(m.fields);
    var req: seq<ReqEntry> := [];
    for t := 0 to |m.templates|
      invariant |req| == t
      invariant forall u | 0 <= u < t :: TemplateReqs(m)[u] == Ok(req[u])
    {
      var qfmt := m.templates[t].qfmt;
      var required := NecessaryPass(qfmt, names);
      if |required| > 0 {
        ReqForAll(qfmt, names, t);
        ExtendReqs(m, req, ReqEntry(t, All, required));
        req := req + [ReqEntry(t, All, required)];
        continue;
      }
      required := SufficientPass(qfmt, names);
      ReqForAnyOrNone(qfmt, names, t);
      if |required| == 0 {
        r := Err(NoRequiredFields(t));
        CollectFirstError(TemplateReqs(m), t);
        return;
      }
      ExtendReqs(m, req, ReqEntry(t, Any, required));
      req := req + [ReqEntry(t, Any, required)];
    }
    CollectAllOk(TemplateReqs(m), req);
    r := Ok(req);
  }

  /** The context `_req` renders with holds exactly the field names. */
  lemma ContextKeys(names: seq<string>, i: nat)
    requires i < |names|
    ensures BlankOne(names, i).Keys == SoleSentinel(names, i).Keys == set n | n in names
  {
  }

  /** A template that opens with field `k` and otherwise reads no field, and
      whose literal text cannot spell the sentinel, requires exactly field
      `k`: `{{Front}}` and `{{Front}}\n\n{{type:Back}}` are of this shape. */
  lemma LeadingFieldReq(k: nat, rest: seq<Node>, names: seq<string>, ord: nat)
    requires k < |names|
    requires forall i | 0 <= i < |names| && names[i] == names[k] :: i == k
    requires forall key | key in Keys(rest) :: key !in names
    requires !Contains(TopText(rest), Sentinel)
    ensures ReqFor([Var(names[k])] + rest, names, ord) == Ok(ReqEntry(ord, All, [k]))
  {
    var qfmt := [Var(names[k])] + rest;
    assert qfmt[0] == Var(names[k]) && qfmt[1..] == rest;
    forall i | 0 <= i < |names|
      ensures Necessary(qfmt, names, i) <==> i == k
    {
      var ctx := BlankOne(names, i);
      ContextKeys(names, i);
      RenderVacant(rest, ctx);
      assert Render(qfmt, ctx) == Lookup(ctx, names[k]) + TopText(rest);
      if i != k {
        assert Lookup(ctx, names[k]) == Sentinel;
        ContainsInfix("", Sentinel, TopText(rest));
        assert "" + Sentinel + TopText(rest) == Render(qfmt, ctx);
      } else {
        assert Render(qfmt, ctx) == TopText(rest);
      }
    }
    var necessary := IndicesWhere(NecessaryFlags(qfmt, names));
    IncreasingUnique(necessary, [k]);
  }

  /** A template that is the single tag of a field with a unique name
      requires exactly that field. */
  lemma SingleFieldTemplateReq(m: Model, t: nat, k: nat)
    requires t < |m.templates| && k < |m.fields|
    requires m.templates[t].qfmt == [Var(m.fields[k].name)]
    requires forall i | 0 <= i < |m.fields| && m.fields[i].name == m.fields[k].name :: i == k
    ensures ReqFor(m.templates[t].qfmt, FieldNames(m.fields), t) == Ok(ReqEntry(t, All, [k]))
  {
    var names := FieldNames(m.fields);
    assert [Var(names[k])] + [] == m.templates[t].qfmt;
    LeadingFieldReq(k, [], names, t);
  }

  /** A template that is one section on field `a` around field `b`, both
      with unique names, requires both fields. */
  lemma SectionTemplateReq(m: Model, t: nat, a: nat, b: nat)
    requires t < |m.templates| && a < |m.fields| && b < |m.fields| && m.fields[a].name != m.fields[b].name
    requires m.templates[t].qfmt == [Section(m.fields[a].name, [Var(m.fields[b].name)])]
    requires forall i | 0 <= i < |m.fields| && (m.fields[i].name == m.fields[a].name || m.fields[i].name == m.fields[b].name) ::
               i == a || i == b
    ensures ReqFor(m.templates[t].qfmt, FieldNames(m.fields), t) ==
            Ok(ReqEntry(t, All, if a < b then [a, b] else [b, a]))
  {
    SectionFieldReq(a, b, FieldNames(m.fields), t);
  }

  /** With no necessary field, the entry is `'any'` over the sufficient fields. */
  lemma AnyReq(qfmt: seq<Node>, names: seq<string>, ord: nat, ords: seq<nat>)
    requires forall i | 0 <= i < |names| :: !Necessary(qfmt, names, i)
    requires Increasing(ords) && |ords| > 0 && forall x | x in ords :: x < |names|
    requires forall i | 0 <= i < |names| :: Sufficient(qfmt, names, i) <==> i in ords
    ensures ReqFor(qfmt, names, ord) == Ok(ReqEntry(ord, Any, ords))
  {
    ReqForModes(qfmt, names, ord);
    var r := ReqFor(qfmt, names, ord);
    var first := ords[0];
    assert first in ords && first < |names|;
    assert Sufficient(qfmt, names, first);
    assert r.Ok? && r.value.mode == Any;
    forall x
      ensures x in r.value.fieldOrds <==> x in ords
    {
      if x in r.value.fieldOrds { assert x < |names|; }
      if x in ords { assert x < |names|; }
    }
    IncreasingUnique(r.value.fieldOrds, ords);
  }

  /** What a field reads as in the context that blanks field `i`. */
  lemma BlankOneLookup(names: seq<string>, i: nat, k: nat)
    requires i < |names| && k < |names|
    ensures Lookup(BlankOne(names, i), names[k]) == if names[k] == names[i] then "" else Sentinel
  {
  }

  /** What a field reads as in the context that gives field `i` alone the sentinel. */
  lemma SoleSentinelLookup(names: seq<string>, i: nat, k: nat)
    requires i < |names| && k < |names|
    ensures Lookup(SoleSentinel(names, i), names[k]) == if names[k] == names[i] then Sentinel else ""
  {
  }

  /** Blanking either field of a one-section template `{{#a}}{{b}}{{/a}}`
      removes the sentinel, and blanking any other field keeps it. */
  lemma SectionFieldNecessary(a: nat, b: nat, names: seq<string>, i: nat)
    requires a < |names| && b < |names| && i < |names|
    requires forall j | 0 <= j < |names| && (names[j] == names[a] || names[j] == names[b]) :: j == a || j == b
    ensures Necessary([Section(names[a], [Var(names[b])])], names, i) <==> i == a || i == b
  {
    var qfmt := [Section(names[a], [Var(names[b])])];
    var ctx := BlankOne(names, i);
    ContextKeys(names, i);
    assert qfmt[1..] == [] && [Var(names[b])][1..] == [];
    assert Render(qfmt, ctx) == if Lookup(ctx, names[a]) != "" then Lookup(ctx, names[b]) else "";
    if i != a && i != b {
      assert Render(qfmt, ctx) == Sentinel;
      ContainsInfix("", Sentinel, "");
      assert "" + Sentinel + "" == Sentinel;
    } else {
      assert Render(qfmt, ctx) == "";
      ShortNotContains("", Sentinel);
    }
  }

  /** A template that is one section on field `a` around field `b` requires
      both fields: `{{#Add Reverse}}{{Back}}{{/Add Reverse}}` is of this shape. */
  lemma SectionFieldReq(a: nat, b: nat, names: seq<string>, ord: nat)
    requires a < |names| && b < |names| && names[a] != names[b]
    requires forall i | 0 <= i < |names| && (names[i] == names[a] || names[i] == names[b]) :: i == a || i == b
    ensures ReqFor([Section(names[a], [Var(names[b])])], names, ord) ==
            Ok(ReqEntry(ord, All, if a < b then [a, b] else [b, a]))
  {
    var qfmt := [Section(names[a], [Var(names[b])])];
    forall i | 0 <= i < |names|
      ensures Necessary(qfmt, names, i) <==> i == a || i == b
    {
      SectionFieldNecessary(a, b, names, i);
    }
    var necessary := IndicesWhere(NecessaryFlags(qfmt, names));
    IncreasingUnique(necessary, if a < b then [a, b] else [b, a]);
  }
}
