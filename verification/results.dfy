/**
 Failure-carrying results shared by the model. Each `Error` case stands for
 one exception the library raises while resolving a note's cards.
 */
module Results {

  /** The exceptions of the card-generation core. */
  datatype Error =
    /** `_req` found no field whose presence makes the template's question
        side show content (a bare `Exception` in the library). */
    | NoRequiredFields(templateOrd: nat)
    /** `Note.cards` met a model type that is neither front/back nor cloze
        (a `ValueError`). */
    | UnknownModelType
    /** A field ordinal at or past the end of the note's field list
        (an `IndexError`). */
    | FieldIndexOutOfRange(index: nat, count: nat)
    /** The cloze path reads the first template of a model that has none
        (an `IndexError`). */
    | NoTemplates

  datatype Result<+T> = Ok(value: T) | Err(error: Error) {
    predicate IsFailure() {
      Err?
    }

    function PropagateFailure<U>(): Result<U>
      requires Err?
    {
      Err(error)
    }

    function Extract(): T
      requires Ok?
    {
      value
    }
  }

  /** The values of a run of results, or the error of the first failing one. */
  function Collect<T>(rs: seq<Result<T>>): (r: Result<seq<T>>)
    ensures r.Ok? <==> forall k | 0 <= k < |rs| :: rs[k].Ok?
    ensures r.Ok? ==> |r.value| == |rs| && forall k | 0 <= k < |rs| :: rs[k] == Ok(r.value[k])
    ensures r.Err? ==> exists k | 0 <= k < |rs| ::
              rs[k] == Err(r.error) && forall j | 0 <= j < k :: rs[j].Ok?
  {
    if |rs| == 0 then Ok([])
    else if rs[0].Err? then Err(rs[0].error)
    else
      var rest := Collect(rs[1..]);
      if rest.Err? then
        assert forall k | 1 <= k < |rs| :: rs[k] == rs[1..][k - 1];
        Err(rest.error)
      else
        var v := [rs[0].value] + rest.value;
        assert forall k | 1 <= k < |rs| :: rs[k] == rs[1..][k - 1];
        Ok(v)
  }

  /** Collecting results that all hold gives their values. */
  lemma CollectAllOk<T>(rs: seq<Result<T>>, vs: seq<T>)
    requires |vs| == |rs|
    requires forall k | 0 <= k < |rs| :: rs[k] == Ok(vs[k])
    ensures Collect(rs) == Ok(vs)
  {
    var r := Collect(rs);
    assert r.Ok? by {
      assert forall k | 0 <= k < |rs| :: rs[k].Ok?;
    }
    assert r.value == vs;
  }

  /** Collecting stops at the first failing result. */
  lemma CollectFirstError<T>(rs: seq<Result<T>>, t: nat)
    requires t < |rs| && rs[t].Err?
    requires forall j | 0 <= j < t :: rs[j].Ok?
    ensures Collect(rs) == Err(rs[t].error)
  {
    var r := Collect(rs);
    var k :| 0 <= k < |rs| && rs[k] == Err(r.error) && forall j | 0 <= j < k :: rs[j].Ok?;
    assert k == t;
  }

  datatype Option<+T> = None | Some(value: T)
}
