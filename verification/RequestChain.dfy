/** The whole way of a tool call's arguments into the upstream request: the operation is
    compiled to text (pkg/openapi/request_jq.go), the text is read and evaluated into an
    envelope (pkg/transform/engine.go), and the envelope fills the URL template
    (pkg/upstream/http/executor.go). */
module RequestChain {
  import opened Json
  import opened ArgNames
  import opened RequestCompiler
  import opened JqText
  import opened UrlTemplate

  /** The envelope that the text of a compiled request gives for some arguments. */
  function EnvelopeFromText(text: string, args: map<string, Value>, fmt: Formatter): Option<Envelope> {
    match ReadProgram(text)
    case None => None
    case Some(program) => EnvelopeOf(Object(EvalProgram(program, args, fmt)), fmt)
  }

  /** The texts of the path arguments under the raw names of their parameters. */
  function PathTexts(op: Operation, args: map<string, Value>, fmt: Formatter): map<string, string> {
    map n | n in NamesAt(op.params, Path) :: fmt.ToString(Given(op, args, Path, n))
  }

  lemma PathIsTexts(env: Envelope, op: Operation, args: map<string, Value>, fmt: Formatter)
    requires Routed(env, op, args, fmt)
    ensures env.path == PathTexts(op, args, fmt)
  {
    hide Given, RoutedOptional;
    assert env.path.Keys == NamesAt(op.params, Path);
  }

  /** From operation to text to envelope to path: the envelope routes every argument, and in
      whatever order its path values are substituted, the path is the flat template with
      every placeholder of a path parameter replaced at once by the escaped text of its
      argument. If the template has no stray braces, none is left exactly when every
      placeholder names a path parameter. */
  lemma TextToPath(program: Program, op: Operation, m: map<string, string>, args: map<string, Value>, fmt: Formatter,
                   template: string, order: seq<string>)
    requires Compiled(program, op, m) && DistinctPlaces(op.params) && WellPlaced(op) && IsMapping(m, op)
    requires NamesClean(op, m)
    requires Flat(Parse(template)) && forall n :: n in NamesAt(op.params, Path) ==> BraceFree(n)
    requires IsOrder(order, NamesAt(op.params, Path))
    ensures var r := EnvelopeFromText(ProgramText(program), args, fmt);
            var path := Render(Parse(template), PathTexts(op, args, fmt));
            && r.Some? && Routed(r.value, op, args, fmt) && r.value.path.Keys == NamesAt(op.params, Path)
            && InOrder(template, r.value.path, order) == path
    ensures IsPlain(Parse(template)) ==>
              (BraceFree(Render(Parse(template), PathTexts(op, args, fmt))) <==>
               forall p :: p in Parse(template) && p.Hole? ==> p.name in NamesAt(op.params, Path))
  {
    CompiledTextRoutes(program, op, m, args, fmt);
    var env := EnvelopeFromText(ProgramText(program), args, fmt).value;
    var texts := PathTexts(op, args, fmt);
    PathIsTexts(env, op, args, fmt);
    assert texts.Keys == NamesAt(op.params, Path);
    AllOf(texts, order);
    hide *;
    OrderFree(template, texts, order);
    if IsPlain(Parse(template)) {
      FilledIsBraceFree(Parse(template), texts);
    }
  }

  lemma AllOf(values: map<string, string>, order: seq<string>)
    requires IsOrder(order, values.Keys)
    ensures Restrict(values, order) == values
    ensures forall name :: name in order <==> name in values
    ensures forall i, j :: 0 <= i < j < |order| ==> order[i] != order[j]
  {
  }
}
