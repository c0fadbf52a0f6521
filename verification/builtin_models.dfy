/**
 The models the library ships (`genanki/builtin_models.py`): four front/back
 models and one cloze model, as constant data, and the shim that pads a
 one-field note of the cloze model with an empty "Back Extra" value.
 */
module BuiltinModels {
  import opened Results
  import opened Sequences
  import opened Strings
  import opened Mustache
  import opened Json
  import opened Models
  import opened Cards
  import opened Cloze
  import opened Notes

  /** A field entry as the built-in models write it: a name and the Arial font. */
  function ArialField(name: string): (f: FieldSpec)
    ensures f.name == name && f.props == map["font" := JStr("Arial")]
  {
    FieldSpec(name, map["font" := JStr("Arial")])
  }

  /** A template entry with only its name and two formats. */
  function Template(name: string, qfmt: seq<Node>, afmt: seq<Node>): (t: CardTemplate)
    ensures t.name == name && t.qfmt == qfmt && t.afmt == afmt && t.props == map[]
  {
    CardTemplate(name, qfmt, afmt, map[])
  }

  /** The rule between question and answer on the back of a card. */
  const AnswerRule: Node := Text("\n\n<hr id=answer>\n\n")

  const BasicCss: string :=
    ".card {\n font-family: arial;\n font-size: 20px;\n text-align: center;\n color: black;\n background-color: white;\n}\n"

  const ClozeCss: string :=
    BasicCss + "\n" + ".cloze {\n font-weight: bold;\n color: blue;\n}\n.nightMode .cloze {\n color: lightblue;\n}"

  /** `BASIC_MODEL`. */
  const BasicModel: Model := Model(
    1559383000, "Basic (genanki)",
    [ArialField("Front"), ArialField("Back")],
    [Template("Card 1", [Var("Front")], [Var("FrontSide"), AnswerRule, Var("Back")])],
    BasicCss, FrontBack)

  /** `BASIC_AND_REVERSED_CARD_MODEL`. */
  const BasicAndReversedModel: Model := Model(
    1485830179, "Basic (and reversed card) (genanki)",
    [ArialField("Front"), ArialField("Back")],
    [ Template("Card 1", [Var("Front")], [Var("FrontSide"), AnswerRule, Var("Back")]),
      Template("Card 2", [Var("Back")], [Var("FrontSide"), AnswerRule, Var("Front")]) ],
    BasicCss, FrontBack)

  /** `BASIC_OPTIONAL_REVERSED_CARD_MODEL`. */
  const OptionalReversedModel: Model := Model(
    1382232460, "Basic (optional reversed card) (genanki)",
    [ArialField("Front"), ArialField("Back"), ArialField("Add Reverse")],
    [ Template("Card 1", [Var("Front")], [Var("FrontSide"), AnswerRule, Var("Back")]),
      Template("Card 2", [Section("Add Reverse", [Var("Back")])],
               [Var("FrontSide"), AnswerRule, Var("Front")]) ],
    BasicCss, FrontBack)

  /** `BASIC_TYPE_IN_THE_ANSWER_MODEL`. */
  const TypeInModel: Model := Model(
    1305534440, "Basic (type in the answer) (genanki)",
    [ArialField("Front"), ArialField("Back")],
    [Template("Card 1", [Var("Front"), Text("\n\n"), Var("type:Back")],
              [Var("Front"), AnswerRule, Var("type:Back")])],
    BasicCss, FrontBack)

  /** `CLOZE_MODEL`. */
  const ClozeModel: Model := Model(
    1550428389, "Cloze (genanki)",
    [ArialField("Text"), ArialField("Back Extra")],
    [Template("Cloze", [Var("cloze:Text")], [Var("cloze:Text"), Text("<br>\n"), Var("Back Extra")])],
    ClozeCss, Cloze)

  /** The five built-in models carry five different ids. */
  lemma BuiltinIdsDistinct()
    ensures var ids := [BasicModel.modelId, BasicAndReversedModel.modelId, OptionalReversedModel.modelId,
                        TypeInModel.modelId, ClozeModel.modelId];
            forall i, j | 0 <= i < j < |ids| :: ids[i] != ids[j]
  {
  }

  // ---------------------------------------------------------------------
  // Required fields of the front/back models
  // ---------------------------------------------------------------------

  lemma BasicModelReq()
    ensures ComputeReq(BasicModel) == Ok([ReqEntry(0, All, [0])])
  {
    SingleFieldTemplateReq(BasicModel, 0, 0);
    ComputeReqOfOne(BasicModel, ReqEntry(0, All, [0]));
  }

  lemma BasicAndReversedModelReq()
    ensures ComputeReq(BasicAndReversedModel) == Ok([ReqEntry(0, All, [0]), ReqEntry(1, All, [1])])
  {
    SingleFieldTemplateReq(BasicAndReversedModel, 0, 0);
    SingleFieldTemplateReq(BasicAndReversedModel, 1, 1);
    ComputeReqOfTwo(BasicAndReversedModel, ReqEntry(0, All, [0]), ReqEntry(1, All, [1]));
  }

  /** Card 2 of the optional-reversed model needs both "Back" and "Add Reverse". */
  lemma OptionalReversedModelReq()
    ensures ComputeReq(OptionalReversedModel) == Ok([ReqEntry(0, All, [0]), ReqEntry(1, All, [1, 2])])
  {
    SingleFieldTemplateReq(OptionalReversedModel, 0, 0);
    SectionTemplateReq(OptionalReversedModel, 1, 2, 1);
    ComputeReqOfTwo(OptionalReversedModel, ReqEntry(0, All, [0]), ReqEntry(1, All, [1, 2]));
  }

  /** `{{type:Back}}` reads no field, so only "Front" is required. */
  lemma TypeInModelReq()
    ensures ComputeReq(TypeInModel) == Ok([ReqEntry(0, All, [0])])
  {
    var names := FieldNames(TypeInModel.fields);
    assert names == ["Front", "Back"];
    var rest := [Text("\n\n"), Var("type:Back")];
    assert [Var(names[0])] + rest == TypeInModel.templates[0].qfmt;
    assert rest[1..][1..] == [];
    assert Keys(rest) == {"type:Back"};
    assert TopText(rest) == "\n\n";
    ShortNotContains("\n\n", Sentinel);
    LeadingFieldReq(0, rest, names, 0);
    ComputeReqOfOne(TypeInModel, ReqEntry(0, All, [0]));
  }

  /** Blanking either field of the cloze model leaves its question empty. */
  lemma ClozeQuestionVacant(names: seq<string>, q: seq<Node>)
    requires names == FieldNames(ClozeModel.fields) && q == ClozeModel.templates[0].qfmt
    ensures |names| == 2
    ensures forall i | 0 <= i < |names| :: Necessary(q, names, i)
  {
    assert names == ["Text", "Back Extra"];
    assert q == [Var("cloze:Text")];
    forall i | 0 <= i < |names|
      ensures Necessary(q, names, i)
    {
      assert "cloze:Text" !in BlankOne(names, i);
      assert Render(q, BlankOne(names, i)) == "";
    }
  }

  /** `{{cloze:Text}}` names no field, so the question renders "" in both
      passes: blanking any field hides the sentinel, every field counts as
      necessary, and `_req` lists both. The cloze path never reads it. */
  lemma ClozeModelReq()
    ensures ComputeReq(ClozeModel) == Ok([ReqEntry(0, All, [0, 1])])
  {
    ClozeQuestionReq(FieldNames(ClozeModel.fields), ClozeModel.templates[0].qfmt);
    ComputeReqOfOne(ClozeModel, ReqEntry(0, All, [0, 1]));
  }

  /** The entry of the cloze model's one template. */
  lemma ClozeQuestionReq(names: seq<string>, q: seq<Node>)
    requires names == FieldNames(ClozeModel.fields) && q == ClozeModel.templates[0].qfmt
    ensures ReqFor(q, names, 0) == Ok(ReqEntry(0, All, [0, 1]))
  {
    ClozeQuestionVacant(names, q);
    ReqForModes(q, names, 0);
    var r := ReqFor(q, names, 0);
    assert Necessary(q, names, 0);
    assert r.Ok? && r.value.mode == All;
    forall x
      ensures x in r.value.fieldOrds <==> x in [0, 1]
    {
      if x in r.value.fieldOrds { assert x < |names|; }
      if x in [0, 1] { assert x < |names|; }
    }
    IncreasingUnique(r.value.fieldOrds, [0, 1]);
  }

  /** A note of the optional-reversed model gets its reverse card only when
      "Add Reverse" and "Back" are both filled in, and its forward card only
      when "Front" is. */
  lemma OptionalReverseCards(front: string, back: string, flag: string)
    ensures var n := Note(OptionalReversedModel, [front, back, flag], None, [], None);
            NoteCards(n) == Ok(NewCards(
              (if front != "" then [0] else []) + (if back != "" && flag != "" then [1] else [])))
  {
    var n := Note(OptionalReversedModel, [front, back, flag], None, [], None);
    OptionalReversedModelReq();
    SatisfiedAllOne(n.fields, 0, 0);
    SatisfiedAllTwo(n.fields, 1, 1, 2);
    FrontBackOutcome(n, [ReqEntry(0, All, [0]), ReqEntry(1, All, [1, 2])], [front != "", back != "" && flag != ""]);
    IndicesWhereTwo(front != "", back != "" && flag != "");
  }

  // ---------------------------------------------------------------------
  // The cloze model
  // ---------------------------------------------------------------------

  /** The cloze model's question refers to the field "Text" and nothing else. */
  lemma ClozeModelRefs()
    ensures ClozeFieldRefs(ClozeModel) == ["Text"]
  {
    assert "cloze:Text" == "cloze:" + "Text";
    ClozeRefsOfVar(ClozeModel, "Text");
  }

  /** So a note of the cloze model reads its cloze numbers from field 0 alone. */
  lemma ClozeModelReadsFirstField(n: Note)
    requires n.model == ClozeModel && |n.fields| >= 1
    ensures ClozeCards(n) == Ok(NewCards(OrdsOfValues([n.fields[0]])))
  {
    ClozeModelRefs();
    ClozeReadsOneField(n, 0);
  }

  // ---------------------------------------------------------------------
  // The deprecated one-field cloze note
  // ---------------------------------------------------------------------

  /** The field list to use, and whether a deprecation warning is issued. */
  datatype Fixed = Fixed(fields: seq<string>, warned: bool)

  /** `_fix_deprecated_builtin_models_and_warn(model, fields)`. The library
      tests `model is CLOZE_MODEL`, object identity, which a value cannot
      express: `isClozeModel` says whether the note's model is that very
      object. An equal copy of it is not, and the object stays itself after
      `to_json` has numbered its templates and fields in place. */
  function FixDeprecated(isClozeModel: bool, fields: seq<string>): (r: Fixed)
    ensures r.warned <==> isClozeModel && |fields| == 1
    ensures r.warned ==> |r.fields| == |ClozeModel.fields| && r.fields[0] == fields[0] && r.fields[1] == ""
    ensures !r.warned ==> r.fields == fields
  {
    if isClozeModel && |fields| == 1 then Fixed(fields + [""], true) else Fixed(fields, false)
  }

  /** The fixed list needs no further fixing. */
  lemma FixDeprecatedIdempotent(isClozeModel: bool, fields: seq<string>)
    ensures var once := FixDeprecated(isClozeModel, fields).fields;
            FixDeprecated(isClozeModel, once) == Fixed(once, false)
  {
  }

  /** A one- or two-field note of the cloze model ends up with one value per
      field of the model, and the cloze text stays where the model reads it. */
  lemma FixDeprecatedFillsClozeModel(fields: seq<string>)
    requires |fields| == 1 || |fields| == 2
    ensures var r := FixDeprecated(true, fields);
            |r.fields| == |ClozeModel.fields| && r.fields[0] == fields[0]
  {
  }
}
