/**
 Notes (`genanki/note.py`): a model, the field values, optional sort field,
 tags and guid, and the cards the note yields under its model. Front/back
 models pick templates through the required-field analysis; cloze models
 produce one card per cloze number found in the fields the first template
 refers to.
 */
module Notes {
  import opened Results
  import opened Sequences
  import opened Strings
  import opened Mustache
  import opened Util
  import opened Models
  import opened Cards
  import opened Cloze

  /** A note. `tags` is already the list the constructor keeps (`tags or []`). */
  datatype Note = Note(
    model: Model,
    fields: seq<string>,
    sortField: Option<string>,
    tags: seq<string>,
    guid: Option<string>)

  /** The ordinals of a list of cards. */
  function Ords(cards: seq<Card>): (ords: seq<nat>)
    ensures |ords| == |cards|
    ensures forall i | 0 <= i < |cards| :: ords[i] == cards[i].ord
  {
    seq(|cards|, i requires 0 <= i < |cards| => cards[i].ord)
  }

  /** New cards for the given ordinals, in that order. */
  function NewCards(ords: seq<nat>): (cards: seq<Card>)
    ensures Ords(cards) == ords
    ensures forall i | 0 <= i < |cards| :: !cards[i].suspend
  {
    seq(|ords|, i requires 0 <= i < |ords| => NewCard(ords[i]))
  }

  // ---------------------------------------------------------------------
  // sort_field and guid
  // ---------------------------------------------------------------------

  /** `sort_field`: the explicit value when it is truthy, else the first field
      value; a note without fields raises on the fallback. */
  function SortField(n: Note): (r: Result<string>)
    ensures r.Ok? <==> (n.sortField.Some? && n.sortField.value != "") || |n.fields| > 0
    ensures n.sortField.Some? && n.sortField.value != "" ==> r == Ok(n.sortField.value)
    ensures r.Ok? && (n.sortField.None? || n.sortField.value == "") ==> r.value == n.fields[0]
    ensures r.Err? ==> r.error == FieldIndexOutOfRange(0, 0)
  {
    if n.sortField.Some? && n.sortField.value != "" then Ok(n.sortField.value)
    else if |n.fields| == 0 then Err(FieldIndexOutOfRange(0, 0))
    else Ok(n.fields[0])
  }

  /** An empty explicit sort field counts as no sort field at all. */
  lemma EmptySortFieldFallsBack(n: Note)
    ensures SortField(n.(sortField := Some(""))) == SortField(n.(sortField := None))
  {
  }

  /** `guid`: the explicit value whenever one was given (even an empty
      string), else the hash of the field values. */
  function NoteGuid(n: Note, sha256: string -> Digest): (g: string)
    ensures n.guid.Some? ==> g == n.guid.value
    ensures n.guid.None? ==> IsBase91(g) && |g| <= 10 && FromBase91(g) == HashInt(n.fields, sha256)
    ensures n.guid.None? ==> (|g| == 0 || g[0] != Base91Table[0]) && g == GuidFor(n.fields, sha256)
  {
    if n.guid.None? then GuidFor(n.fields, sha256) else n.guid.value
  }

  /** Notes without an explicit guid and with the same field values share a
      guid, whatever their model, tags or sort field. */
  lemma DerivedGuidFollowsFields(n1: Note, n2: Note, sha256: string -> Digest)
    requires n1.guid.None? && n2.guid.None? && n1.fields == n2.fields
    ensures NoteGuid(n1, sha256) == NoteGuid(n2, sha256)
  {
  }

  // ---------------------------------------------------------------------
  // Front/back cards
  // ---------------------------------------------------------------------

  /** `all` reaches position `k` without stopping, and `fields[ords[k]]`
      raises there: every earlier value was in range and non-empty. */
  predicate AllRaisesAt(fields: seq<string>, ords: seq<nat>, k: nat)
    requires k < |ords|
  {
    ords[k] >= |fields| && forall j | 0 <= j < k :: ords[j] < |fields| && fields[ords[j]] != ""
  }

  /** `any` reaches position `k` without stopping, and `fields[ords[k]]`
      raises there: every earlier value was in range and empty. */
  predicate AnyRaisesAt(fields: seq<string>, ords: seq<nat>, k: nat)
    requires k < |ords|
  {
    ords[k] >= |fields| && forall j | 0 <= j < k :: ords[j] < |fields| && fields[ords[j]] == ""
  }

  /** Past an in-range first ordinal whose value does not stop `all`, the
      raising position moves one place down `ords[1..]`. */
  lemma AllRaisesShift(fields: seq<string>, ords: seq<nat>)
    requires |ords| > 0 && ords[0] < |fields| && fields[ords[0]] != ""
    ensures (exists k | 0 <= k < |ords| :: AllRaisesAt(fields, ords, k)) <==>
            exists k | 0 <= k < |ords[1..]| :: AllRaisesAt(fields, ords[1..], k)
  {
    if exists k | 0 <= k < |ords| :: AllRaisesAt(fields, ords, k) {
      var k :| 0 <= k < |ords| && AllRaisesAt(fields, ords, k);
      assert AllRaisesAt(fields, ords[1..], k - 1);
    }
    if exists k | 0 <= k < |ords[1..]| :: AllRaisesAt(fields, ords[1..], k) {
      var k :| 0 <= k < |ords[1..]| && AllRaisesAt(fields, ords[1..], k);
      assert AllRaisesAt(fields, ords, k + 1);
    }
  }

  /** Past an in-range first ordinal whose value does not stop `any`, the
      raising position moves one place down `ords[1..]`. */
  lemma AnyRaisesShift(fields: seq<string>, ords: seq<nat>)
    requires |ords| > 0 && ords[0] < |fields| && fields[ords[0]] == ""
    ensures (exists k | 0 <= k < |ords| :: AnyRaisesAt(fields, ords, k)) <==>
            exists k | 0 <= k < |ords[1..]| :: AnyRaisesAt(fields, ords[1..], k)
  {
    if exists k | 0 <= k < |ords| :: AnyRaisesAt(fields, ords, k) {
      var k :| 0 <= k < |ords| && AnyRaisesAt(fields, ords, k);
      assert AnyRaisesAt(fields, ords[1..], k - 1);
    }
    if exists k | 0 <= k < |ords[1..]| :: AnyRaisesAt(fields, ords[1..], k) {
      var k :| 0 <= k < |ords[1..]| && AnyRaisesAt(fields, ords[1..], k);
      assert AnyRaisesAt(fields, ords, k + 1);
    }
  }

  /** `all(fields[o] for o in ords)`: stops at the first empty value; an
      ordinal past the end raises unless an earlier empty value stopped it. */
  function EvalAll(fields: seq<string>, ords: seq<nat>): (r: Result<bool>)
    ensures (forall k | 0 <= k < |ords| :: ords[k] < |fields|) ==>
              r == Ok(forall k | 0 <= k < |ords| :: fields[ords[k]] != "")
    ensures r.Err? ==> exists k | 0 <= k < |ords| ::
              (ords[k] >= |fields| && r.error == FieldIndexOutOfRange(ords[k], |fields|) &&
               forall j | 0 <= j < k :: ords[j] < |fields| && fields[ords[j]] != "")
    ensures r.Err? <==> exists k | 0 <= k < |ords| :: AllRaisesAt(fields, ords, k)
    ensures r == Ok(true) <==> forall k | 0 <= k < |ords| :: ords[k] < |fields| && fields[ords[k]] != ""
    decreases |ords|
  {
    if |ords| == 0 then Ok(true)
    else if ords[0] >= |fields| then
      assert AllRaisesAt(fields, ords, 0);
      Err(FieldIndexOutOfRange(ords[0], |fields|))
    else if fields[ords[0]] == "" then
      assert forall k | 0 < k < |ords| :: !AllRaisesAt(fields, ords, k);
      Ok(false)
    else
      var r := EvalAll(fields, ords[1..]);
      assert forall k | 1 <= k < |ords| :: ords[k] == ords[1..][k - 1];
      AllRaisesShift(fields, ords);
      r
  }

  /** `any` reaches position `k` without raising and finds a non-empty value
      there. */
  predicate AnyWitness(fields: seq<string>, ords: seq<nat>, k: nat)
    requires k < |ords|
  {
    (forall j | 0 <= j <= k :: ords[j] < |fields|) && fields[ords[k]] != ""
  }

  /** `any(fields[o] for o in ords)`: stops at the first non-empty value; an
      ordinal past the end raises unless an earlier value stopped it. */
  function EvalAny(fields: seq<string>, ords: seq<nat>): (r: Result<bool>)
    ensures (forall k | 0 <= k < |ords| :: ords[k] < |fields|) ==>
              r == Ok(exists k | 0 <= k < |ords| :: fields[ords[k]] != "")
    ensures r.Err? ==> exists k | 0 <= k < |ords| ::
              (ords[k] >= |fields| && r.error == FieldIndexOutOfRange(ords[k], |fields|) &&
               forall j | 0 <= j < k :: ords[j] < |fields| && fields[ords[j]] == "")
    ensures r.Err? <==> exists k | 0 <= k < |ords| :: AnyRaisesAt(fields, ords, k)
    ensures r == Ok(true) <==> exists k | 0 <= k < |ords| :: AnyWitness(fields, ords, k)
    decreases |ords|
  {
    if |ords| == 0 then Ok(false)
    else if ords[0] >= |fields| then
      assert AnyRaisesAt(fields, ords, 0);
      Err(FieldIndexOutOfRange(ords[0], |fields|))
    else if fields[ords[0]] != "" then
      assert AnyWitness(fields, ords, 0);
      assert forall k | 0 < k < |ords| :: !AnyRaisesAt(fields, ords, k);
      Ok(true)
    else
      var r := EvalAny(fields, ords[1..]);
      assert forall k | 1 <= k < |ords| :: ords[k] == ords[1..][k - 1];
      assert forall k | 1 <= k < |ords| :: AnyWitness(fields, ords, k) == AnyWitness(fields, ords[1..], k - 1);
      assert !AnyWitness(fields, ords, 0);
      AnyRaisesShift(fields, ords);
      assert (exists k | 0 <= k < |ords| :: AnyWitness(fields, ords, k)) <==>
             (exists k | 0 <= k < |ords[1..]| :: AnyWitness(fields, ords[1..], k)) by {
        if exists k | 0 <= k < |ords| :: AnyWitness(fields, ords, k) {
          var k :| 0 <= k < |ords| && AnyWitness(fields, ords, k);
          assert AnyWitness(fields, ords[1..], k - 1);
        }
        if exists k | 0 <= k < |ords[1..]| :: AnyWitness(fields, ords[1..], k) {
          var k :| 0 <= k < |ords[1..]| && AnyWitness(fields, ords[1..], k);
          assert AnyWitness(fields, ords, k + 1);
        }
      }
      r
  }

  /** Every ordinal of the entry names a field of the note. */
  predicate InRange(e: ReqEntry, fields: seq<string>) {
    forall k | 0 <= k < |e.fieldOrds| :: e.fieldOrds[k] < |fields|
  }

  /** When a requirement entry lets its template through: every listed field
      non-empty, or, since `any` stops at the first non-empty value, one
      non-empty value reached before any ordinal past the end. */
  predicate Holds(e: ReqEntry, fields: seq<string>) {
    match e.mode
    case All => forall k | 0 <= k < |e.fieldOrds| :: e.fieldOrds[k] < |fields| && fields[e.fieldOrds[k]] != ""
    case Any => exists k | 0 <= k < |e.fieldOrds| :: AnyWitness(fields, e.fieldOrds, k)
  }

  /** When a requirement entry's test raises: the loop reaches an ordinal
      past the end before `all` meets an empty value or `any` a non-empty one. */
  predicate Raises(e: ReqEntry, fields: seq<string>) {
    match e.mode
    case All => exists k | 0 <= k < |e.fieldOrds| :: AllRaisesAt(fields, e.fieldOrds, k)
    case Any => exists k | 0 <= k < |e.fieldOrds| :: AnyRaisesAt(fields, e.fieldOrds, k)
  }

  /** The `op(...)` test of one requirement entry. */
  function Satisfied(e: ReqEntry, fields: seq<string>): (r: Result<bool>)
    ensures r == Ok(true) <==> Holds(e, fields)
    ensures r.Err? <==> Raises(e, fields)
    ensures InRange(e, fields) ==> r.Ok?
    ensures r.Err? ==> !InRange(e, fields) && r.error.FieldIndexOutOfRange?
  {
    match e.mode
    case All => EvalAll(fields, e.fieldOrds)
    case Any => EvalAny(fields, e.fieldOrds)
  }

  /** The test of each entry, in the order `_front_back_cards` runs them. */
  function Tests(req: seq<ReqEntry>, fields: seq<string>): (rs: seq<Result<bool>>)
    ensures |rs| == |req|
    ensures forall t | 0 <= t < |req| :: rs[t] == Satisfied(req[t], fields)
  {
    seq(|req|, t requires 0 <= t < |req| => Satisfied(req[t], fields))
  }

  /** `_front_back_cards`: one card per template whose requirement holds,
      in template order. */
  function FrontBackCards(n: Note): (r: Result<seq<Card>>)
    ensures ComputeReq(n.model).Err? ==> r == Err(ComputeReq(n.model).error)
    ensures r.Ok? ==> Increasing(Ords(r.value))
    ensures r.Ok? ==> forall i | 0 <= i < |r.value| :: !r.value[i].suspend
  {
    var req :- ComputeReq(n.model);
    var holds :- Collect(Tests(req, n.fields));
    Ok(NewCards(IndicesWhere(holds)))
  }

  /** The front/back path raises exactly when one of the tests raises, which
      only an ordinal past the note's last field can cause. */
  lemma FrontBackCardsErrors(n: Note)
    requires ComputeReq(n.model).Ok?
    ensures var req := ComputeReq(n.model).value;
            FrontBackCards(n).Ok? <==> forall t | 0 <= t < |req| :: Satisfied(req[t], n.fields).Ok?
    ensures var req := ComputeReq(n.model).value;
            (forall t | 0 <= t < |req| :: InRange(req[t], n.fields)) ==> FrontBackCards(n).Ok?
    ensures FrontBackCards(n).Err? ==> FrontBackCards(n).error.FieldIndexOutOfRange?
  {
    var req := ComputeReq(n.model).value;
    var c := Collect(Tests(req, n.fields));
    TestsErrors(req, n.fields);
    assert FrontBackCards(n) == if c.Ok? then Ok(NewCards(IndicesWhere(c.value))) else Err(c.error);
  }

  /** The tests of `_front_back_cards` raise exactly when one of them does,
      and only for an ordinal past the last field. */
  lemma TestsErrors(req: seq<ReqEntry>, fields: seq<string>)
    ensures var c := Collect(Tests(req, fields));
            && (c.Ok? <==> forall t | 0 <= t < |req| :: Satisfied(req[t], fields).Ok?)
            && (c.Err? ==> c.error.FieldIndexOutOfRange?)
  {
    var rs := Tests(req, fields);
    var c := Collect(rs);
    if c.Err? {
      var k :| 0 <= k < |rs| && rs[k] == Err(c.error) && forall j | 0 <= j < k :: rs[j].Ok?;
      assert Satisfied(req[k], fields).Err?;
    }
  }

  /** Position `t` is among the chosen ones exactly when its test succeeded
      with `true`. */
  lemma CollectedFlag(rs: seq<Result<bool>>, t: nat)
    requires Collect(rs).Ok?
    ensures t in IndicesWhere(Collect(rs).value) <==> t < |rs| && rs[t] == Ok(true)
  {
    if t < |rs| {
      assert rs[t] == Ok(Collect(rs).value[t]);
    }
  }

  /** Entry `t` passes its test exactly when its ordinals are in range and its
      requirement holds. */
  lemma ChosenOfReq(req: seq<ReqEntry>, fields: seq<string>, t: nat)
    requires Collect(Tests(req, fields)).Ok?
    ensures t in IndicesWhere(Collect(Tests(req, fields)).value) <==>
            t < |req| && Holds(req[t], fields)
  {
    var rs := Tests(req, fields);
    CollectedFlag(rs, t);
    if t < |req| {
      assert rs[t] == Satisfied(req[t], fields);
    }
  }

  /** A template yields a card exactly when its requirement holds. */
  lemma FrontBackCardsChosen(n: Note, t: nat)
    ensures FrontBackCards(n).Ok? ==> ComputeReq(n.model).Ok?
    ensures FrontBackCards(n).Ok? ==>
              (t in Ords(FrontBackCards(n).value) <==>
               t < |n.model.templates| && Holds(ComputeReq(n.model).value[t], n.fields))
  {
    if FrontBackCards(n).Ok? {
      var req := ComputeReq(n.model).value;
      var c := Collect(Tests(req, n.fields));
      assert c.Ok?;
      assert Ords(FrontBackCards(n).value) == IndicesWhere(c.value);
      ChosenOfReq(req, n.fields, t);
    }
  }

  /** An `'all'` entry over one field tests that field. */
  lemma SatisfiedAllOne(fields: seq<string>, t: nat, i: nat)
    requires i < |fields|
    ensures Satisfied(ReqEntry(t, All, [i]), fields) == Ok(fields[i] != "")
  {
  }

  /** An `'all'` entry over two fields tests both. */
  lemma SatisfiedAllTwo(fields: seq<string>, t: nat, i: nat, j: nat)
    requires i < |fields| && j < |fields|
    ensures Satisfied(ReqEntry(t, All, [i, j]), fields) == Ok(fields[i] != "" && fields[j] != "")
  {
    assert [i, j][1..] == [j] && [j][1..] == [];
    assert EvalAll(fields, [j]) == Ok(fields[j] != "");
  }

  /** An `'any'` entry whose first field is filled in holds, whatever follows. */
  lemma SatisfiedAnyFirst(fields: seq<string>, t: nat, ords: seq<nat>)
    requires |ords| > 0 && ords[0] < |fields| && fields[ords[0]] != ""
    ensures Satisfied(ReqEntry(t, Any, ords), fields) == Ok(true)
  {
  }

  /** The cards of a front/back note once its model's requirements and the
      outcome of each test are known. */
  lemma FrontBackOutcome(n: Note, req: seq<ReqEntry>, holds: seq<bool>)
    requires n.model.modelType == FrontBack
    requires ComputeReq(n.model) == Ok(req)
    requires |holds| == |req|
    requires forall t | 0 <= t < |req| :: Satisfied(req[t], n.fields) == Ok(holds[t])
    ensures NoteCards(n) == Ok(NewCards(IndicesWhere(holds)))
  {
    FrontBackCardsOutcome(n, req, holds);
    assert NoteCards(n) == FrontBackCards(n);
  }

  /** A one-template `'any'` model gives a note its card when the first
      listed field is filled in. */
  lemma AnyFirstCard(n: Note, ords: seq<nat>)
    requires n.model.modelType == FrontBack
    requires ComputeReq(n.model) == Ok([ReqEntry(0, Any, ords)])
    requires |ords| > 0 && ords[0] < |n.fields| && n.fields[ords[0]] != ""
    ensures NoteCards(n) == Ok(NewCards([0]))
  {
    SatisfiedAnyFirst(n.fields, 0, ords);
    FrontBackOutcome(n, [ReqEntry(0, Any, ords)], [true]);
    IndicesWhereOne(true);
  }

  /** A two-template model whose templates each need one field, the first
      field 0 and the second field 1, gives each card when its field is filled. */
  lemma FieldPerTemplateCards(n: Note)
    requires n.model.modelType == FrontBack && |n.fields| >= 2
    requires ComputeReq(n.model) == Ok([ReqEntry(0, All, [0]), ReqEntry(1, All, [1])])
    ensures NoteCards(n) ==
            Ok(NewCards((if n.fields[0] != "" then [0] else []) + (if n.fields[1] != "" then [1] else [])))
  {
    var req := [ReqEntry(0, All, [0]), ReqEntry(1, All, [1])];
    var holds := [n.fields[0] != "", n.fields[1] != ""];
    assert forall t | 0 <= t < |req| :: Satisfied(req[t], n.fields) == Ok(holds[t]) by {
      SatisfiedAllOne(n.fields, 0, 0);
      SatisfiedAllOne(n.fields, 1, 1);
    }
    FrontBackOutcome(n, req, holds);
    IndicesWhereTwo(holds[0], holds[1]);
  }

  lemma FrontBackCardsOutcome(n: Note, req: seq<ReqEntry>, holds: seq<bool>)
    requires ComputeReq(n.model) == Ok(req)
    requires |holds| == |req|
    requires forall t | 0 <= t < |req| :: Satisfied(req[t], n.fields) == Ok(holds[t])
    ensures FrontBackCards(n) == Ok(NewCards(IndicesWhere(holds)))
  {
    CollectAllOk(Tests(req, n.fields), holds);
  }

  // ---------------------------------------------------------------------
  // Cloze cards
  // ---------------------------------------------------------------------

  /** The field names the first template's question refers to through
      `{{cloze:Name}}` (with any filters before `cloze:`) or `<%cloze:Name%>`. */
  function ClozeFieldRefs(m: Model): (refs: seq<string>)
    requires |m.templates| > 0
  {
    var q := Print(m.templates[0].qfmt);
    FieldRefs(q) + LegacyRefs(q)
  }

  /** Index of the first field called `name`. */
  function FirstIndex(names: seq<string>, name: string): (r: Option<nat>)
    ensures r.None? <==> name !in names
    ensures r.Some? ==> r.value < |names| && names[r.value] == name && name !in names[..r.value]
  {
    if name in names then Some(IndexOfName(names, name)) else None
  }

  function IndexOfName(names: seq<string>, name: string): (i: nat)
    requires name in names
    ensures i < |names| && names[i] == name && name !in names[..i]
  {
    if names[0] == name then 0
    else
      assert name in names[1..] by {
        var k :| 0 <= k < |names| && names[k] == name;
        assert names[1..][k - 1] == name;
      }
      var i := 1 + IndexOfName(names[1..], name);
      assert names[..i] == [names[0]] + names[1..][..i - 1];
      i
  }

  /** The value the cloze path reads for a referenced field name: the note's
      value at the first field so named, or "" when the model has no such
      field; a field the note has no value for raises. */
  function RefValue(names: seq<string>, values: seq<string>, name: string): (r: Result<string>)
    ensures name !in names ==> r == Ok("")
    ensures name in names ==> var i := FirstIndex(names, name).value;
              r == (if i < |values| then Ok(values[i]) else Err(FieldIndexOutOfRange(i, |values|)))
  {
    match FirstIndex(names, name)
    case None => Ok("")
    case Some(i) => if i < |values| then Ok(values[i]) else Err(FieldIndexOutOfRange(i, |values|))
  }

  /** `int(m) - 1 for m in numbers if int(m) > 0`. */
  function Predecessors(numbers: seq<nat>): (ords: seq<nat>)
    ensures forall o: nat :: o in ords <==> o + 1 in numbers
    decreases |numbers|
  {
    if |numbers| == 0 then []
    else
      var rest := Predecessors(numbers[1..]);
      assert forall x :: x in numbers <==> x == numbers[0] || x in numbers[1..];
      if numbers[0] > 0 then [numbers[0] - 1] + rest else rest
  }

  /** The values read for each reference, in reference order. */
  function RefValues(names: seq<string>, values: seq<string>, refs: seq<string>): (rs: seq<Result<string>>)
    ensures |rs| == |refs|
    ensures forall j | 0 <= j < |refs| :: rs[j] == RefValue(names, values, refs[j])
  {
    seq(|refs|, j requires 0 <= j < |refs| => RefValue(names, values, refs[j]))
  }

  /** The ordinals of several lists of cloze numbers, each once, smallest first. */
  function OrdsOfNumbers(nss: seq<seq<nat>>): (r: seq<nat>)
    ensures Increasing(r)
    ensures forall o: nat :: o in r <==> exists j | 0 <= j < |nss| :: o + 1 in nss[j]
  {
    var parts := seq(|nss|, j requires 0 <= j < |nss| => Predecessors(nss[j]));
    var r := SortedDistinct(Concat(parts));
    forall o: nat
      ensures o in r <==> exists j | 0 <= j < |nss| :: o + 1 in nss[j]
    {
      if o in r {
        var j :| 0 <= j < |parts| && o in parts[j];
        assert o + 1 in nss[j];
      }
      if exists j | 0 <= j < |nss| :: o + 1 in nss[j] {
        var j :| 0 <= j < |nss| && o + 1 in nss[j];
        assert o in parts[j];
      }
    }
    r
  }

  /** The cloze numbers of each value, in value order. */
  function NumbersOfValues(vs: seq<string>): (nss: seq<seq<nat>>)
    ensures |nss| == |vs|
    ensures forall j | 0 <= j < |vs| :: nss[j] == MarkerNumbers(vs[j])
  {
    seq(|vs|, j requires 0 <= j < |vs| => MarkerNumbers(vs[j]))
  }

  /** The cloze ordinals of a list of field values, each once, smallest first. */
  function OrdsOfValues(vs: seq<string>): (r: seq<nat>)
    ensures Increasing(r)
  {
    OrdsOfNumbers(NumbersOfValues(vs))
  }

  /** An ordinal is among them exactly when some value holds a cloze
      deletion numbered one higher. */
  lemma OrdsOfValuesMembers(vs: seq<string>, o: nat)
    ensures o in OrdsOfValues(vs) <==> exists j | 0 <= j < |vs| :: o + 1 in MarkerNumbers(vs[j])
  {
    var nss := NumbersOfValues(vs);
    if o in OrdsOfValues(vs) {
      var j :| 0 <= j < |nss| && o + 1 in nss[j];
      assert o + 1 in MarkerNumbers(vs[j]);
    }
    if exists j | 0 <= j < |vs| :: o + 1 in MarkerNumbers(vs[j]) {
      var j :| 0 <= j < |vs| && o + 1 in MarkerNumbers(vs[j]);
      assert o + 1 in nss[j];
    }
  }

  /** The set `card_ords` as a sorted list, or the error of the first
      reference whose field has no value. */
  function ClozeOrds(names: seq<string>, values: seq<string>, refs: seq<string>): (r: Result<seq<nat>>)
    ensures r.Ok? <==> forall j | 0 <= j < |refs| :: RefValue(names, values, refs[j]).Ok?
    ensures r.Ok? ==> Increasing(r.value)
    ensures r.Err? ==> r.error.FieldIndexOutOfRange?
  {
    var rs := RefValues(names, values, refs);
    var c := Collect(rs);
    if c.Err? then
      var k :| 0 <= k < |rs| && rs[k] == Err(c.error) && forall j | 0 <= j < k :: rs[j].Ok?;
      assert RefValue(names, values, refs[k]).Err?;
      Err(c.error)
    else
      Ok(OrdsOfValues(c.value))
  }

  /** An ordinal is produced exactly when some referenced field holds a
      cloze marker numbered one higher. */
  lemma ClozeOrdsMembers(names: seq<string>, values: seq<string>, refs: seq<string>, o: nat)
    requires ClozeOrds(names, values, refs).Ok?
    ensures o in ClozeOrds(names, values, refs).value <==>
            exists j | 0 <= j < |refs| :: o + 1 in MarkerNumbers(RefValue(names, values, refs[j]).value)
  {
    var rs := RefValues(names, values, refs);
    var c := Collect(rs);
    assert c.Ok?;
    var vs := c.value;
    assert ClozeOrds(names, values, refs) == Ok(OrdsOfValues(vs));
    OrdsOfValuesMembers(vs, o);
    forall j | 0 <= j < |refs|
      ensures MarkerNumbers(RefValue(names, values, refs[j]).value) == MarkerNumbers(vs[j])
    {
      assert rs[j] == Ok(vs[j]);
    }
  }

  /** A reference to a field the model does not have reads as "", which holds
      no cloze deletion, so it adds no ordinal. */
  lemma AbsentRefAddsNothing(names: seq<string>, values: seq<string>, refs: seq<string>, name: string)
    requires ClozeOrds(names, values, refs).Ok? && name !in names
    ensures ClozeOrds(names, values, refs + [name]) == ClozeOrds(names, values, refs)
  {
    var more := refs + [name];
    assert forall j | 0 <= j < |refs| :: more[j] == refs[j];
    assert more[|refs|] == name;
    assert ClozeOrds(names, values, more).Ok?;
    assert MarkerNumbers("") == [];
    forall o: nat
      ensures o in ClozeOrds(names, values, more).value <==> o in ClozeOrds(names, values, refs).value
    {
      ClozeOrdsMembers(names, values, more, o);
      ClozeOrdsMembers(names, values, refs, o);
    }
    IncreasingUnique(ClozeOrds(names, values, more).value, ClozeOrds(names, values, refs).value);
  }

  /** `_cloze_cards`: one new card per distinct cloze number, smallest first. */
  function ClozeCards(n: Note): (r: Result<seq<Card>>)
    ensures |n.model.templates| == 0 ==> r == Err(NoTemplates)
    ensures |n.model.templates| > 0 ==>
              r.Ok? == ClozeOrds(FieldNames(n.model.fields), n.fields, ClozeFieldRefs(n.model)).Ok?
    ensures r.Ok? ==> Ords(r.value) == ClozeOrds(FieldNames(n.model.fields), n.fields, ClozeFieldRefs(n.model)).value
    ensures r.Ok? ==> forall i | 0 <= i < |r.value| :: !r.value[i].suspend
  {
    if |n.model.templates| == 0 then Err(NoTemplates)
    else
      var ords :- ClozeOrds(FieldNames(n.model.fields), n.fields, ClozeFieldRefs(n.model));
      Ok(NewCards(ords))
  }

  /** A question that is the single variable `{{cloze:Name}}` refers to the
      field `Name` alone. */
  lemma ClozeRefsOfVar(m: Model, name: string)
    requires |m.templates| > 0 && m.templates[0].qfmt == [Var("cloze:" + name)]
    requires |name| > 0 && ':' !in name && '}' !in name && '\n' !in name && '<' !in name
    ensures ClozeFieldRefs(m) == [name]
  {
    PrintVar("cloze:" + name);
    assert Print(m.templates[0].qfmt) == "{{cloze:" + name + "}}";
    SoleFieldRef(name);
  }

  /** A cloze model whose question refers to the single field `k` reads the
      cloze numbers of that field's value and of nothing else. */
  lemma ClozeReadsOneField(n: Note, k: nat)
    requires |n.model.templates| > 0
    requires k < |n.model.fields| && k < |n.fields|
    requires ClozeFieldRefs(n.model) == [n.model.fields[k].name]
    requires forall j | 0 <= j < k :: n.model.fields[j].name != n.model.fields[k].name
    ensures ClozeCards(n) == Ok(NewCards(OrdsOfValues([n.fields[k]])))
  {
    var names := FieldNames(n.model.fields);
    var refs := [names[k]];
    assert FirstIndex(names, names[k]) == Some(k) by {
      assert names[k] !in names[..k] by {
        forall j | 0 <= j < k ensures names[..k][j] != names[k] {}
      }
    }
    var rs := RefValues(names, n.fields, refs);
    assert rs == [Ok(n.fields[k])];
    CollectAllOk(rs, [n.fields[k]]);
  }

  /** A cloze note whose referenced fields hold no usable cloze marker yields
      no cards at all: the set comparison meant as an emptiness test compares
      with a dict and is never true, so the `{0}` fallback is never taken. */
  lemma NoMarkersNoCards(n: Note)
    requires |n.model.templates| > 0
    requires var refs := ClozeFieldRefs(n.model);
             forall j | 0 <= j < |refs| ::
               RefValue(FieldNames(n.model.fields), n.fields, refs[j]).Ok? &&
               MarkerNumbers(RefValue(FieldNames(n.model.fields), n.fields, refs[j]).value) == []
    ensures ClozeCards(n) == Ok([])
  {
    var names, refs := FieldNames(n.model.fields), ClozeFieldRefs(n.model);
    var o := ClozeOrds(names, n.fields, refs);
    assert o.Ok?;
    if |o.value| > 0 {
      ClozeOrdsMembers(names, n.fields, refs, o.value[0]);
    }
  }

  // ---------------------------------------------------------------------
  // cards
  // ---------------------------------------------------------------------

  /** `cards`: dispatch on the model type. */
  function NoteCards(n: Note): (r: Result<seq<Card>>)
    ensures n.model.modelType.Unrecognized? ==> r == Err(UnknownModelType)
    ensures n.model.modelType == FrontBack ==> r == FrontBackCards(n)
    ensures n.model.modelType == Cloze ==> r == ClozeCards(n)
    ensures r.Ok? ==> Increasing(Ords(r.value)) && forall i | 0 <= i < |r.value| :: !r.value[i].suspend
  {
    match n.model.modelType
    case FrontBack => FrontBackCards(n)
    case Cloze => ClozeCards(n)
    case Unrecognized(_) => Err(UnknownModelType)
  }

  // ---------------------------------------------------------------------
  // Database columns
  // ---------------------------------------------------------------------

  /** `_format_fields`: the values joined by the unit separator. */
  function FormatFields(fields: seq<string>): (s: string)
    ensures forall k | 0 <= k < |fields| :: |fields[k]| <= |s|
  {
    JoinBound(fields, "\U{1F}");
    Join(fields, "\U{1F}")
  }

  lemma {:induction false} JoinBound(parts: seq<string>, sep: string)
    ensures forall k | 0 <= k < |parts| :: |parts[k]| <= |Join(parts, sep)|
    decreases |parts|
  {
    if |parts| > 1 {
      JoinBound(parts[1..], sep);
      assert forall k | 1 <= k < |parts| :: parts[k] == parts[1..][k - 1];
    }
  }

  /** The `flds` column gives the field values back when none of them holds
      the separator. */
  lemma FormatFieldsRoundTrip(fields: seq<string>)
    requires |fields| >= 1
    requires forall k | 0 <= k < |fields| :: '\U{1F}' !in fields[k]
    ensures Split(FormatFields(fields), '\U{1F}') == fields
  {
    SplitJoin(fields, '\U{1F}');
  }

  /** A note without fields and a note with one empty field store the same
      `flds` text. */
  lemma FormatFieldsEmptyAmbiguous()
    ensures FormatFields([]) == FormatFields([""])
  {
  }

  /** `_format_tags`: the tags separated by spaces with a space on either side. */
  function FormatTags(tags: seq<string>): (s: string)
    ensures |s| >= 2 && s[0] == ' ' && s[|s| - 1] == ' '
  {
    " " + Join(tags, " ") + " "
  }

  /** Stripping the outer spaces and splitting on spaces gives the tags back
      when there is at least one tag and none holds a space. */
  lemma FormatTagsRoundTrip(tags: seq<string>)
    requires |tags| >= 1
    requires forall k | 0 <= k < |tags| :: ' ' !in tags[k]
    ensures var s := FormatTags(tags); Split(s[1..|s| - 1], ' ') == tags
  {
    var s := FormatTags(tags);
    assert s[1..|s| - 1] == Join(tags, " ");
    SplitJoin(tags, ' ');
  }

  /** The columns of a `notes` row after the auto-assigned id. */
  datatype NoteRow = NoteRow(
    guid: string, mid: int, mod: int, usn: int, tags: string, flds: string,
    sfld: string, csum: int, flags: int, data: string)

  /** The row `write_to_db` inserts for a note; computing the sort field is
      the one step that can raise. */
  function NoteRowOf(n: Note, nowTs: int, sha256: string -> Digest): (r: Result<NoteRow>)
    ensures r.Ok? <==> SortField(n).Ok?
    ensures r.Err? ==> r.error == FieldIndexOutOfRange(0, 0)
    ensures r.Ok? ==> r.value.sfld == SortField(n).value && r.value.guid == NoteGuid(n, sha256)
    ensures r.Ok? ==> r.value.mid == n.model.modelId && r.value.mod == nowTs && r.value.usn == -1
    ensures r.Ok? ==> r.value.csum == 0 && r.value.flags == 0 && r.value.data == ""
    ensures r.Ok? ==> r.value.flds == FormatFields(n.fields) && r.value.tags == FormatTags(n.tags)
  {
    var sfld :- SortField(n);
    Ok(NoteRow(NoteGuid(n, sha256), n.model.modelId, nowTs, -1, FormatTags(n.tags),
               FormatFields(n.fields), sfld, 0, 0, ""))
  }

  /** The rows `write_to_db` inserts for `cards`, once the note row has the
      id `noteId`. `Note.cards` is computed once and cached, and a caller may
      suspend its cards before the note is written, so the list is given as
      the caller holds it; it starts out as `NoteCards(n)`. */
  function CardRowsOf(cards: seq<Card>, nowTs: int, deckId: int, noteId: int): (r: seq<CardRow>)
    ensures |r| == |cards|
    ensures forall i | 0 <= i < |r| ::
              CardOfRow(r[i]) == cards[i] && r[i].nid == noteId && r[i].did == deckId && r[i].mod == nowTs
  {
    seq(|cards|, i requires 0 <= i < |cards| => CardRowOf(cards[i], nowTs, deckId, noteId))
  }

  /** Written as computed, a note's cards go to the new queue, one row per
      card in order, with the card's template ordinal. */
  lemma ComputedCardRows(n: Note, nowTs: int, deckId: int, noteId: int)
    ensures NoteCards(n).Ok? ==>
              var cards := NoteCards(n).value;
              var rows := CardRowsOf(cards, nowTs, deckId, noteId);
              |rows| == |cards| &&
              forall i | 0 <= i < |rows| :: rows[i].ord == cards[i].ord && rows[i].queue == 0
  {
    if NoteCards(n).Ok? {
      var cards := NoteCards(n).value;
      var rows := CardRowsOf(cards, nowTs, deckId, noteId);
      forall i | 0 <= i < |rows| ensures rows[i].ord == cards[i].ord && rows[i].queue == 0 {
        assert rows[i] == CardRowOf(cards[i], nowTs, deckId, noteId);
      }
    }
  }

  /** Suspending card `k` before writing puts its row, and only its row, in
      the suspended queue. */
  lemma SuspendedCardRow(cards: seq<Card>, k: nat, nowTs: int, deckId: int, noteId: int)
    requires k < |cards|
    ensures var rows := CardRowsOf(cards, nowTs, deckId, noteId);
            var rows' := CardRowsOf(cards[k := cards[k].(suspend := true)], nowTs, deckId, noteId);
            && |rows'| == |rows| && rows'[k].queue == -1 && rows'[k].ord == rows[k].ord
            && forall i | 0 <= i < |rows| && i != k :: rows'[i] == rows[i]
  {
    var cards' := cards[k := cards[k].(suspend := true)];
    var rows := CardRowsOf(cards, nowTs, deckId, noteId);
    var rows' := CardRowsOf(cards', nowTs, deckId, noteId);
    assert rows'[k] == CardRowOf(cards'[k], nowTs, deckId, noteId);
    forall i | 0 <= i < |rows| && i != k ensures rows'[i] == rows[i] {
      assert cards'[i] == cards[i];
    }
  }
}
