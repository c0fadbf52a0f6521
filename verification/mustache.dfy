/**
 The part of mustache that card templates use, standing in for the pystache
 renderer the library calls: literal text, `{{Name}}` substitution, and
 `{{#Name}}...{{/Name}}` sections that render their body only when the value
 is non-empty. A key the context does not hold renders as the empty string;
 this is how `{{type:Back}}` and `{{cloze:Text}}` behave, since no field is
 called `type:Back` or `cloze:Text`.
 */
module Mustache {

  datatype Node =
    | Text(text: string)
    | Var(key: string)
    | Section(key: string, body: seq<Node>)

  /** Field values by field name. */
  type Context = map<string, string>

  /** The value of `key`, or `""` when the context does not hold it. */
  function Lookup(ctx: Context, key: string): string {
    if key in ctx then ctx[key] else ""
  }

  /** The text a template renders to in the given context. */
  function Render(t: seq<Node>, ctx: Context): string
    decreases t
  {
    if |t| == 0 then ""
    else
      var head :=
        match t[0]
        case Text(s) => s
        case Var(k) => Lookup(ctx, k)
        case Section(k, body) => if Lookup(ctx, k) != "" then Render(body, ctx) else "";
      head + Render(t[1..], ctx)
  }

  /** Every key a template reads, in variables and section heads alike. */
  function Keys(t: seq<Node>): set<string>
    decreases t
  {
    if |t| == 0 then {}
    else
      var head :=
        match t[0]
        case Text(_) => {}
        case Var(k) => {k}
        case Section(k, body) => {k} + Keys(body);
      head + Keys(t[1..])
  }

  /** The literal text of a template outside its sections. */
  function TopText(t: seq<Node>): string
    decreases t
  {
    if |t| == 0 then ""
    else (if t[0].Text? then t[0].text else "") + TopText(t[1..])
  }

  /** The template written back in mustache syntax. */
  function Print(t: seq<Node>): string
    decreases t
  {
    if |t| == 0 then ""
    else
      var head :=
        match t[0]
        case Text(s) => s
        case Var(k) => "{{" + k + "}}"
        case Section(k, body) => "{{#" + k + "}}" + Print(body) + "{{/" + k + "}}";
      head + Print(t[1..])
  }

  /** A template of one variable prints as that tag. */
  lemma PrintVar(k: string)
    ensures Print([Var(k)]) == "{{" + k + "}}"
  {
    assert [Var(k)][1..] == [];
  }

  /** Rendering distributes over concatenation of templates. */
  lemma {:induction false} RenderAppend(a: seq<Node>, b: seq<Node>, ctx: Context)
    ensures Render(a + b, ctx) == Render(a, ctx) + Render(b, ctx)
    decreases |a|
  {
    if |a| > 0 {
      assert (a + b)[0] == a[0];
      assert (a + b)[1..] == a[1..] + b;
      RenderAppend(a[1..], b, ctx);
    } else {
      assert a + b == b;
    }
  }

  /** The render reads the context only at the template's keys. */
  lemma {:induction false} RenderFrame(t: seq<Node>, c1: Context, c2: Context)
    requires forall k | k in Keys(t) :: Lookup(c1, k) == Lookup(c2, k)
    ensures Render(t, c1) == Render(t, c2)
    decreases t
  {
    if |t| > 0 {
      assert Keys(t[1..]) <= Keys(t);
      RenderFrame(t[1..], c1, c2);
      match t[0]
      case Text(_) =>
      case Var(k) =>
        assert k in Keys(t);
      case Section(k, body) =>
        assert k in Keys(t) && Keys(body) <= Keys(t);
        RenderFrame(body, c1, c2);
    }
  }

  /** With every key empty, only the literal text outside sections is left. */
  lemma {:induction false} RenderVacant(t: seq<Node>, ctx: Context)
    requires forall k | k in Keys(t) :: Lookup(ctx, k) == ""
    ensures Render(t, ctx) == TopText(t)
    decreases |t|
  {
    if |t| > 0 {
      assert Keys(t[1..]) <= Keys(t);
      RenderVacant(t[1..], ctx);
      match t[0]
      case Text(_) =>
      case Var(k) =>
        assert k in Keys(t);
      case Section(k, body) =>
        assert k in Keys(t);
    }
  }
}
