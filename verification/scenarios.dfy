/**
 The concrete expectations of the library's test suite
 (`tests/test_genanki.py`, `tests/test_cloze.py`), derived from the model.
 */
module Scenarios {
  import opened Results
  import opened Sequences
  import opened Strings
  import opened Mustache
  import opened Json
  import opened Models
  import opened Cards
  import opened Cloze
  import opened Notes
  import opened BuiltinModels

  /** A field entry with only its name. */
  function Named(name: string): (f: FieldSpec)
    ensures f.name == name && f.props == map[]
  {
    FieldSpec(name, map[])
  }

  /** A note with only a model and field values. */
  function Plain(model: Model, fields: seq<string>): (n: Note)
    ensures n.model == model && n.fields == fields && n.sortField.None? && n.tags == [] && n.guid.None?
  {
    Note(model, fields, None, [], None)
  }

  /** `TEST_MODEL`. */
  const TestModel: Model := Model(
    234567, "foomodel", [Named("AField"), Named("BField")],
    [Template("card1", [Var("AField")], [Var("FrontSide"), Text("<hr id=\"answer\">"), Var("BField")])],
    "", FrontBack)

  /** `TEST_CN_MODEL`. */
  const CnModel: Model := Model(
    345678, "Chinese", [Named("Traditional"), Named("Simplified"), Named("English")],
    [ Template("Traditional", [Var("Traditional")], [Var("FrontSide"), Text("<hr id=\"answer\">"), Var("English")]),
      Template("Simplified", [Var("Simplified")], [Var("FrontSide"), Text("<hr id=\"answer\">"), Var("English")]) ],
    "", FrontBack)

  /** `TEST_MODEL_WITH_HINT`. */
  const HintModel: Model := Model(
    456789, "with hint", [Named("Question"), Named("Hint"), Named("Answer")],
    [Template("card1", [Var("Question"), Section("Hint", [Text("<br>Hint: "), Var("Hint")])], [Var("Answer")])],
    "", FrontBack)

  /** `MY_CLOZE_MODEL`. */
  const MyClozeModel: Model := Model(
    998877661, "My Cloze Model", [Named("Text"), Named("Extra")],
    [Template("My Cloze Card", [Var("cloze:Text")], [Var("cloze:Text"), Text("<br>"), Var("Extra")])],
    "", Cloze)

  // ---------------------------------------------------------------------
  // _req
  // ---------------------------------------------------------------------

  lemma TestModelReq()
    ensures ComputeReq(TestModel) == Ok([ReqEntry(0, All, [0])])
  {
    SingleFieldTemplateReq(TestModel, 0, 0);
    ComputeReqOfOne(TestModel, ReqEntry(0, All, [0]));
  }

  lemma CnModelReq()
    ensures ComputeReq(CnModel) == Ok([ReqEntry(0, All, [0]), ReqEntry(1, All, [1])])
  {
    SingleFieldTemplateReq(CnModel, 0, 0);
    SingleFieldTemplateReq(CnModel, 1, 1);
    ComputeReqOfTwo(CnModel, ReqEntry(0, All, [0]), ReqEntry(1, All, [1]));
  }

  /** The hint template renders its question, then the hint behind a label
      when there is one. */
  lemma HintRender(ctx: Context)
    ensures Render(HintModel.templates[0].qfmt, ctx) ==
            Lookup(ctx, "Question") + (if Lookup(ctx, "Hint") != "" then "<br>Hint: " + Lookup(ctx, "Hint") else "")
  {
    var q := HintModel.templates[0].qfmt;
    var body := [Text("<br>Hint: "), Var("Hint")];
    assert q[1..][1..] == [] && body[1..][1..] == [];
  }

  /** Blanking any one field of the hint model leaves the sentinel in the
      question. */
  lemma HintBlank(i: nat)
    requires i < 3
    ensures !Necessary(HintModel.templates[0].qfmt, FieldNames(HintModel.fields), i)
  {
    var names := FieldNames(HintModel.fields);
    var ctx := BlankOne(names, i);
    BlankOneLookup(names, i, 0);
    BlankOneLookup(names, i, 1);
    HintRender(ctx);
    var question, hint := Lookup(ctx, "Question"), Lookup(ctx, "Hint");
    if i == 0 {
      assert question == "" && hint == Sentinel;
      ContainsInfix("<br>Hint: ", Sentinel, "");
      assert "" + ("<br>Hint: " + Sentinel) == "<br>Hint: " + Sentinel + "";
    } else {
      assert question == Sentinel;
      var tail := if hint != "" then "<br>Hint: " + hint else "";
      ContainsInfix("", Sentinel, tail);
      assert Render(HintModel.templates[0].qfmt, ctx) == "" + Sentinel + tail;
    }
  }

  /** The question alone or the hint alone puts the sentinel in the
      question; the answer alone does not. */
  lemma HintSole(i: nat)
    requires i < 3
    ensures Sufficient(HintModel.templates[0].qfmt, FieldNames(HintModel.fields), i) <==> i < 2
  {
    var names := FieldNames(HintModel.fields);
    var ctx := SoleSentinel(names, i);
    SoleSentinelLookup(names, i, 0);
    SoleSentinelLookup(names, i, 1);
    HintRender(ctx);
    if i == 0 {
      ContainsInfix("", Sentinel, "");
      assert Sentinel + "" == "" + Sentinel + "";
    } else if i == 1 {
      ContainsInfix("<br>Hint: ", Sentinel, "");
      assert "" + ("<br>Hint: " + Sentinel) == "<br>Hint: " + Sentinel + "";
    } else {
      ShortNotContains("", Sentinel);
    }
  }

  /** Neither the question nor the hint alone is required, but either alone
      shows content: the mode is `'any'` over both. */
  lemma HintModelReq()
    ensures ComputeReq(HintModel) == Ok([ReqEntry(0, Any, [0, 1])])
  {
    var q, names := HintModel.templates[0].qfmt, FieldNames(HintModel.fields);
    forall i | 0 <= i < |names|
      ensures !Necessary(q, names, i) && (Sufficient(q, names, i) <==> i in [0, 1])
    {
      HintBlank(i);
      HintSole(i);
    }
    AnyReq(q, names, 0, [0, 1]);
    ComputeReqOfOne(HintModel, ReqEntry(0, Any, [0, 1]));
  }

  // ---------------------------------------------------------------------
  // Cards of front/back notes
  // ---------------------------------------------------------------------

  /** A CN note gets the traditional card when that field is filled and the
      simplified card when that one is. */
  lemma CnCards(traditional: string, simplified: string, english: string)
    ensures NoteCards(Plain(CnModel, [traditional, simplified, english])) ==
            Ok(NewCards((if traditional != "" then [0] else []) + (if simplified != "" then [1] else [])))
  {
    var n := Plain(CnModel, [traditional, simplified, english]);
    CnModelReq();
    FieldPerTemplateCards(n);
  }

  /** The two notes of the CN test: the first gets both cards, the second,
      with no simplified form, only the traditional card. */
  lemma CnExamples(first: seq<string>, second: seq<string>)
    requires first == ["中國", "中国", "China"] && second == ["你好", "", "hello"]
    ensures NoteCards(Plain(CnModel, first)) == Ok(NewCards([0, 1]))
    ensures NoteCards(Plain(CnModel, second)) == Ok(NewCards([0]))
  {
    assert first == [first[0], first[1], first[2]] && first[0] != "" && first[1] != "";
    assert second == [second[0], second[1], second[2]] && second[0] != "" && second[1] == "";
    CnCards(first[0], first[1], first[2]);
    assert (if first[0] != "" then [0] else []) + (if first[1] != "" then [1] else []) == [0, 1];
    CnCards(second[0], second[1], second[2]);
    assert (if second[0] != "" then [0] else []) + (if second[1] != "" then [1] else []) == [0];
  }

  /** A hint note with a question gets its one card whether or not the hint
      is filled in. */
  lemma HintCards(question: string, hint: string, answer: string)
    requires question != ""
    ensures NoteCards(Plain(HintModel, [question, hint, answer])) == Ok(NewCards([0]))
  {
    HintModelReq();
    AnyFirstCard(Plain(HintModel, [question, hint, answer]), [0, 1]);
  }

  /** The two notes of the hint test each get card 0. */
  lemma HintExamples(first: seq<string>, second: seq<string>)
    requires first == ["capital of California", "", "Sacramento"]
    requires second == ["capital of Iowa", "French for \"The Moines\"", "Des Moines"]
    ensures NoteCards(Plain(HintModel, first)) == Ok(NewCards([0]))
    ensures NoteCards(Plain(HintModel, second)) == Ok(NewCards([0]))
  {
    assert first == [first[0], first[1], first[2]] && first[0] != "";
    assert second == [second[0], second[1], second[2]] && second[0] != "";
    HintCards(first[0], first[1], first[2]);
    HintCards(second[0], second[1], second[2]);
  }

  // ---------------------------------------------------------------------
  // Cards of cloze notes
  // ---------------------------------------------------------------------

  lemma MyClozeModelRefs()
    ensures ClozeFieldRefs(MyClozeModel) == ["Text"]
  {
    assert "cloze:Text" == "cloze:" + "Text";
    ClozeRefsOfVar(MyClozeModel, "Text");
  }

  /** The cards of a `MY_CLOZE_MODEL` note whose text field holds cloze
      deletions numbered `numbers`. */
  lemma MyClozeCards(text: string, extra: string, numbers: seq<nat>, ords: seq<nat>)
    requires MarkerNumbers(text) == numbers
    requires Increasing(ords) && forall o: nat :: o in ords <==> o + 1 in numbers
    ensures NoteCards(Plain(MyClozeModel, [text, extra])) == Ok(NewCards(ords))
  {
    MyClozeModelRefs();
    ClozeReadsOneField(Plain(MyClozeModel, [text, extra]), 0);
    forall o: nat
      ensures o in OrdsOfValues([text]) <==> o in ords
    {
      OrdsOfValuesMembers([text], o);
      assert [text][0] == text;
    }
    IncreasingUnique(OrdsOfValues([text]), ords);
  }

  /** `{{cN::x}}` for a one-digit `N`. */
  lemma MarkerOneDigit(n: nat, x: string)
    requires 1 <= n <= 9
    ensures Marker(n, x) == "{{c" + [('0' as int + n) as char] + "::" + x + "}}"
  {
  }

  /** A note whose text is plain text followed by one deletion numbered `n`
      gets the single card `n - 1`: `NOTE ONE: {{c1::single deletion}}` gets
      card 0, and so does `NOTE THREE: {{c1::1st deletion::C1-CLOZE}}`, whose
      hint is part of the deletion's text. */
  lemma OneDeletionCards(text: string, head: string, n: nat, x: string, extra: string)
    requires text == head + Marker(n, x)
    requires '{' !in head && n >= 1
    requires |x| > 0 && '}' !in x && '\n' !in x
    ensures NoteCards(Plain(MyClozeModel, [text, extra])) == Ok(NewCards([n - 1]))
  {
    var m := Marker(n, x);
    MarkerNumbersOfMarker(n, x, "");
    assert m + "" == m;
    MarkerNumbersSkipText(head, m);
    MyClozeCards(text, extra, [n], [n - 1]);
  }

  /** The deletion numbers of plain text followed by three deletions. */
  lemma ThreeMarkerNumbers(head: string, n1: nat, x1: string, n2: nat, x2: string, n3: nat, x3: string)
    requires '{' !in head
    requires |x1| > 0 && '}' !in x1 && '\n' !in x1
    requires |x2| > 0 && '}' !in x2 && '\n' !in x2
    requires |x3| > 0 && '}' !in x3 && '\n' !in x3
    ensures MarkerNumbers(head + (Marker(n1, x1) + (" " + (Marker(n2, x2) + (" " + Marker(n3, x3)))))) == [n1, n2, n3]
  {
    var m3 := Marker(n3, x3);
    var tail2 := Marker(n2, x2) + (" " + m3);
    var tail1 := Marker(n1, x1) + (" " + tail2);
    assert MarkerNumbers(" " + m3) == [n3] by {
      MarkerNumbersOfMarker(n3, x3, "");
      assert m3 + "" == m3;
      MarkerNumbersSkipText(" ", m3);
    }
    assert MarkerNumbers(" " + tail2) == [n2, n3] by {
      MarkerNumbersOfMarker(n2, x2, " " + m3);
      MarkerNumbersSkipText(" ", tail2);
    }
    MarkerNumbersOfMarker(n1, x1, " " + tail2);
    MarkerNumbersSkipText(head, tail1);
  }

  /** A note whose text is plain text followed by deletions 1, 2 and 3,
      separated by blanks, gets the cards 0, 1 and 2, as
      `NOTE TWO: {{c1::1st deletion}} {{c2::2nd deletion}} {{c3::3rd deletion}}` does. */
  lemma ThreeDeletionCards(text: string, head: string, x1: string, x2: string, x3: string, extra: string)
    requires text == head + (Marker(1, x1) + (" " + (Marker(2, x2) + (" " + Marker(3, x3)))))
    requires '{' !in head
    requires |x1| > 0 && '}' !in x1 && '\n' !in x1
    requires |x2| > 0 && '}' !in x2 && '\n' !in x2
    requires |x3| > 0 && '}' !in x3 && '\n' !in x3
    ensures NoteCards(Plain(MyClozeModel, [text, extra])) == Ok(NewCards([0, 1, 2]))
  {
    ThreeMarkerNumbers(head, 1, x1, 2, x2, 3, x3);
    assert forall o: nat :: o in [0, 1, 2] <==> o + 1 in [1, 2, 3];
    MyClozeCards(text, extra, [1, 2, 3], [0, 1, 2]);
  }

  /** The text of the first note of the cloze test, as a deletion after plain text. */
  lemma NoteOneText(text: string)
    requires text == "NOTE ONE: {{c1::single deletion}}"
    ensures text == "NOTE ONE: " + Marker(1, "single deletion")
  {
    var r := "NOTE ONE: " + ("{{c" + "1" + "::" + "single deletion" + "}}");
    assert text == r by {
      assert |r| == |text|;
      forall i | 0 <= i < |text| ensures text[i] == r[i] {}
    }
    assert Marker(1, "single deletion") == "{{c" + "1" + "::" + "single deletion" + "}}" by {
      MarkerOneDigit(1, "single deletion");
      assert [('0' as int + 1) as char] == "1";
    }
  }

  /** The first note of the cloze test gets card 0. */
  lemma NoteOneCards(text: string)
    requires text == "NOTE ONE: {{c1::single deletion}}"
    ensures NoteCards(Plain(MyClozeModel, [text, ""])) == Ok(NewCards([0]))
  {
    NoteOneText(text);
    OneDeletionCards(text, "NOTE ONE: ", 1, "single deletion", "");
  }

  /** A deletion `{{cN::x}}` with a one-digit number, spelled out. */
  lemma MarkerSpelled(n: nat, x: string, lit: string)
    requires 1 <= n <= 9 && lit == "{{c" + [('0' as int + n) as char] + "::" + x + "}}"
    ensures lit == Marker(n, x)
  {
    MarkerOneDigit(n, x);
  }

  /** The three deletions of the second note of the cloze test. */
  lemma FirstDeletion(lit: string)
    requires lit == "{{c1::1st deletion}}"
    ensures lit == Marker(1, "1st deletion")
  {
    var r := "{{c" + "1" + "::" + "1st deletion" + "}}";
    assert lit == r by {
      forall i | 0 <= i < |r| ensures lit[i] == r[i] {}
    }
    assert [('0' as int + 1) as char] == "1";
    MarkerSpelled(1, "1st deletion", r);
  }

  lemma SecondDeletion(lit: string)
    requires lit == "{{c2::2nd deletion}}"
    ensures lit == Marker(2, "2nd deletion")
  {
    var r := "{{c" + "2" + "::" + "2nd deletion" + "}}";
    assert lit == r by {
      forall i | 0 <= i < |r| ensures lit[i] == r[i] {}
    }
    assert [('0' as int + 2) as char] == "2";
    MarkerSpelled(2, "2nd deletion", r);
  }

  lemma ThirdDeletion(lit: string)
    requires lit == "{{c3::3rd deletion}}"
    ensures lit == Marker(3, "3rd deletion")
  {
    var r := "{{c" + "3" + "::" + "3rd deletion" + "}}";
    assert lit == r by {
      forall i | 0 <= i < |r| ensures lit[i] == r[i] {}
    }
    assert [('0' as int + 3) as char] == "3";
    MarkerSpelled(3, "3rd deletion", r);
  }

  /** The text of the second note of the cloze test, as three deletions after
      plain text. The test's string is written here in its six pieces. */
  lemma NoteTwoText(text: string)
    requires text == "NOTE TWO: " + ("{{c1::1st deletion}}" + (" " + ("{{c2::2nd deletion}}" + (" " + "{{c3::3rd deletion}}"))))
    ensures text == "NOTE TWO: " + (Marker(1, "1st deletion") + (" " + (Marker(2, "2nd deletion") +
                    (" " + Marker(3, "3rd deletion")))))
  {
    FirstDeletion("{{c1::1st deletion}}");
    SecondDeletion("{{c2::2nd deletion}}");
    ThirdDeletion("{{c3::3rd deletion}}");
  }

  /** The second note of the cloze test gets cards 0, 1 and 2. */
  lemma NoteTwoCards(text: string)
    requires text == "NOTE TWO: " + ("{{c1::1st deletion}}" + (" " + ("{{c2::2nd deletion}}" + (" " + "{{c3::3rd deletion}}"))))
    ensures NoteCards(Plain(MyClozeModel, [text, ""])) == Ok(NewCards([0, 1, 2]))
  {
    NoteTwoText(text);
    ThreeDeletionCards(text, "NOTE TWO: ", "1st deletion", "2nd deletion", "3rd deletion", "");
  }

  /** The text of the third note of the cloze test: the hint `::C1-CLOZE`
      belongs to the deletion's text. */
  lemma NoteThreeText(text: string)
    requires text == "NOTE THREE: {{c1::1st deletion::C1-CLOZE}}"
    ensures text == "NOTE THREE: " + Marker(1, "1st deletion::C1-CLOZE")
  {
    var r := "NOTE THREE: " + ("{{c" + "1" + "::" + "1st deletion::C1-CLOZE" + "}}");
    assert text == r by {
      assert |r| == |text|;
      forall i | 0 <= i < |text| ensures text[i] == r[i] {}
    }
    assert Marker(1, "1st deletion::C1-CLOZE") == "{{c" + "1" + "::" + "1st deletion::C1-CLOZE" + "}}" by {
      MarkerOneDigit(1, "1st deletion::C1-CLOZE");
      assert [('0' as int + 1) as char] == "1";
    }
  }

  /** The third note of the cloze test gets card 0. */
  lemma NoteThreeCards(text: string)
    requires text == "NOTE THREE: {{c1::1st deletion::C1-CLOZE}}"
    ensures NoteCards(Plain(MyClozeModel, [text, ""])) == Ok(NewCards([0]))
  {
    NoteThreeText(text);
    OneDeletionCards(text, "NOTE THREE: ", 1, "1st deletion::C1-CLOZE", "");
  }

  /** A cloze note without deletions gets no card, not card 0. */
  lemma ClozeNoteWithoutDeletions()
    ensures NoteCards(Plain(MyClozeModel, ["no deletions here", ""])) == Ok([])
  {
    MarkerNumbersSkipText("no deletions here", "");
    assert "no deletions here" + "" == "no deletions here";
    MyClozeCards("no deletions here", "", [], []);
  }
}
