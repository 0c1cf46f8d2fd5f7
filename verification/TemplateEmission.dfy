/** What the compiler emits for a tree: statements, the next serial number and the
    static raw/output flags, or the first problem it reports. */
module TemplateEmission {
  import opened Outcomes
  import opened TemplateLanguage
  import opened TargetProgram

  datatype Problem =
    | FirstOutsideEach
    | NotAFieldPath
    | BadMessageTag
    | MissingMessage
    | ParameterMismatch
    | TooManyFilters
    | UnknownFilter
    | BadPartialTag
    | MissingPartial
    | RecursivePartial
    | RawInEach
    | OutputAfterRaw

  /** Inside a kind case, paths below `path` are read below `value` instead. */
  datatype Alias = Alias(path: Expr, value: Expr)

  /** Where emission stands: the current value's variable, the loop that `@first` means,
      the aliases from the outermost case inwards, and the partials being inlined. */
  datatype Frame = Frame(current: Name, first: Option<nat>, aliases: seq<Alias>, stack: seq<string>)

  datatype Emitted<+T> = Emitted(code: T, serial: nat, raw: bool, output: bool)

  // ---------- Expressions ----------

  /** One alias step: replace the alias path where it is a prefix. */
  function Redirect(e: Expr, alias: Alias): Expr {
    if e.Path? && alias.path.Path? && alias.value.Path? && e.root == alias.path.root && alias.path.segs <= e.segs
    then Path(alias.value.root, alias.value.segs + e.segs[|alias.path.segs|..])
    else e
  }

  function RedirectAll(e: Expr, aliases: seq<Alias>): Expr
    decreases aliases
  {
    if aliases == [] then e else RedirectAll(Redirect(e, aliases[0]), aliases[1..])
  }

  function Expression(ref: Ref, frame: Frame): Result<Expr, Problem> {
    match ref
    case First => if frame.first.Some? then Success(IsFirst(frame.first.value)) else Failure(FirstOutsideEach)
    case Malformed => Failure(NotAFieldPath)
    case Field(segs) => Success(RedirectAll(Path(frame.current, segs), frame.aliases))
  }

  // ---------- Values and messages ----------

  function EmitInsert(ref: Ref, filters: seq<string>, frame: Frame): Result<Output, Problem> {
    if |filters| > 1 then Failure(TooManyFilters)
    else
      var value :- Expression(ref, frame);
      if FilterName(filters) !in HELPERS then Failure(UnknownFilter)
      else Success(OutHelper(HELPERS[FilterName(filters)], value))
  }

  predicate Distinct(names: seq<string>) {
    forall i, j :: 0 <= i < j < |names| ==> names[i] != names[j]
  }

  function ArgNames(args: seq<(string, Ref)>): (names: seq<string>)
    ensures |names| == |args|
    ensures forall i :: 0 <= i < |args| ==> names[i] == args[i].0
  {
    if args == [] then [] else [args[0].0] + ArgNames(args[1..])
  }

  /** The call supplies exactly the declared parameter names. */
  predicate ParametersMatch(names: seq<string>, definition: Definition) {
    |names| == |definition.parameters| && Distinct(names) &&
    forall name :: name in names ==> name in definition.parameters
  }

  function EmitArgs(args: seq<(string, Ref)>, definition: Definition, frame: Frame): Result<seq<OutArg>, Problem> {
    if args == [] then Success([])
    else
      var value :- Expression(args[0].1, frame);
      var rest :- EmitArgs(args[1..], definition, frame);
      Success([OutArg(args[0].0, Selects(definition, args[0].0), value)] + rest)
  }

  function EmitMessage(definitions: Definitions, call: Option<MessageCall>, frame: Frame): Result<Output, Problem> {
    if call.None? then Failure(BadMessageTag)
    else if call.value.key !in definitions then Failure(MissingMessage)
    else
      var definition := definitions[call.value.key];
      if !ParametersMatch(ArgNames(call.value.args), definition) then Failure(ParameterMismatch)
      else
        var args :- EmitArgs(call.value.args, definition, frame);
        Success(OutMessage(call.value.key, args))
  }

  // ---------- Blocks ----------

  function EmitPrefix(prefix: seq<string>): seq<Stmt> {
    if prefix == [] then [] else [Out(OutLiteral(prefix[0]))] + EmitPrefix(prefix[1..])
  }

  predicate PrefixOutputs(prefix: seq<string>) {
    exists text :: text in prefix && text != ""
  }

  /** The partials that can still be entered: the termination measure of inlining. */
  function Room(lib: Library, stack: seq<string>): nat {
    |lib.templates.Keys - (set key | key in stack)|
  }

  lemma RoomShrinks(lib: Library, stack: seq<string>, key: string)
    requires key in lib.templates && key !in stack
    ensures Room(lib, stack + [key]) < Room(lib, stack)
  {
    var before := lib.templates.Keys - (set k | k in stack);
    var after := lib.templates.Keys - (set k | k in stack + [key]);
    assert after == before - {key};
  }

  function EmitNodes(lib: Library, nodes: seq<Node>, frame: Frame, serial: nat, raw: bool, output: bool): (r: Result<Emitted<seq<Stmt>>, Problem>)
    ensures r.Success? ==> r.value.serial >= serial && (raw ==> r.value.raw) && (output ==> r.value.output)
    decreases Room(lib, frame.stack), nodes, 0
  {
    if nodes == [] then Success(Emitted([], serial, raw, output))
    else
      var node :- EmitNode(lib, nodes[0], frame, serial);
      if raw && node.output then Failure(OutputAfterRaw)
      else
        var rest :- EmitNodes(lib, nodes[1..], frame, node.serial, raw || node.raw, output || node.output);
        Success(rest.(code := node.code + rest.code))
  }

  function EmitNode(lib: Library, node: Node, frame: Frame, serial: nat): (r: Result<Emitted<seq<Stmt>>, Problem>)
    ensures r.Success? ==> r.value.serial >= serial
    decreases Room(lib, frame.stack), node, 0
  {
    match node
    case Literal(text) => Success(Emitted([Out(OutLiteral(text))], serial, false, |text| > 0))
    case Insert(ref, filters) =>
      var out :- EmitInsert(ref, filters, frame);
      Success(Emitted([Out(out)], serial, FilterName(filters) == "raw_last", true))
    case Message(call) =>
      var out :- EmitMessage(lib.definitions, call, frame);
      Success(Emitted([Out(out)], serial, false, true))
    case Partial(call) =>
      if call.None? then Failure(BadPartialTag)
      else
        var key := PartialKey(call.value.name);
        if key !in lib.templates then Failure(MissingPartial)
        else if key in frame.stack then Failure(RecursivePartial)
        else
          var value :- Expression(if call.value.arg.Some? then call.value.arg.value else Field([]), frame);
          RoomShrinks(lib, frame.stack, key);
          var body :- EmitNodes(lib, lib.templates[key].nodes, EnterPartial(frame, serial, key), serial + 1, false, false);
          Success(body.(code := [LetPart(serial, lib.templates[key].view, value, body.code)]))
    case If(unless, cond, body, rest) =>
      var value :- Expression(cond, frame);
      var taken :- EmitNodes(lib, body, frame, serial, false, false);
      var others :- EmitChain(lib, rest, frame, taken.serial);
      Success(Emitted([IfStmt(unless, value, taken.code, others.code)], others.serial,
                      taken.raw || others.raw, taken.output || others.output))
    case Each(list, body) =>
      var value :- Expression(list, frame);
      var inner :- EmitNodes(lib, body, EnterEach(frame, serial), serial + 1, false, false);
      if inner.raw then Failure(RawInEach)
      else Success(inner.(code := [ForEach(serial, value, inner.code)]))
    case Switch(subject, prefix, cases) =>
      var value :- Expression(subject, frame);
      var arms :- EmitCases(lib, cases, EnterCase(frame, value, serial), serial + 1);
      Success(Emitted(EmitPrefix(prefix) + [SwitchStmt(serial, value, arms.code)], arms.serial,
                      arms.raw, PrefixOutputs(prefix) || arms.output))
  }

  function EnterPartial(frame: Frame, serial: nat, key: string): Frame {
    frame.(current := Part(serial), first := None, stack := frame.stack + [key])
  }

  function EnterEach(frame: Frame, serial: nat): Frame {
    frame.(current := Item(serial), first := Some(serial))
  }

  function EnterCase(frame: Frame, value: Expr, serial: nat): Frame {
    frame.(aliases := frame.aliases + [Alias(value, Path(Kind(serial), ["value"]))])
  }

  function EmitChain(lib: Library, chain: Chain, frame: Frame, serial: nat): (r: Result<Emitted<ElseStmt>, Problem>)
    ensures r.Success? ==> r.value.serial >= serial
    decreases Room(lib, frame.stack), chain, 0
  {
    match chain
    case NoElse => Success(Emitted(EndIf, serial, false, false))
    case Else(body) =>
      var taken :- EmitNodes(lib, body, frame, serial, false, false);
      Success(Emitted(Otherwise(taken.code), taken.serial, taken.raw, taken.output))
    case ElseIf(cond, body, rest) =>
      var value :- Expression(cond, frame);
      var taken :- EmitNodes(lib, body, frame, serial, false, false);
      var others :- EmitChain(lib, rest, frame, taken.serial);
      Success(Emitted(OtherwiseIf(value, taken.code, others.code), others.serial,
                      taken.raw || others.raw, taken.output || others.output))
  }

  function EmitCases(lib: Library, cases: seq<Case>, frame: Frame, serial: nat): (r: Result<Emitted<seq<Arm>>, Problem>)
    ensures r.Success? ==> r.value.serial >= serial
    decreases Room(lib, frame.stack), cases, 0
  {
    if cases == [] then Success(Emitted([], serial, false, false))
    else
      var body :- EmitNodes(lib, cases[0].body, frame, serial, false, false);
      var rest :- EmitCases(lib, cases[1..], frame, body.serial);
      Success(Emitted([Arm(cases[0].names, body.code)] + rest.code, rest.serial,
                      body.raw || rest.raw, body.output || rest.output))
  }

  // ---------- Whole modules ----------

  /** One render function per template, in file order, with one running serial number. */
  function EmitFunctions(lib: Library, names: seq<string>, serial: nat): Result<seq<Function>, Problem>
    requires forall name :: name in names ==> name in lib.templates
  {
    if names == [] then Success([])
    else
      var template := lib.templates[names[0]];
      var body :- EmitNodes(lib, template.nodes, TopFrame(names[0]), serial, false, false);
      var rest :- EmitFunctions(lib, names[1..], body.serial);
      Success([Function(names[0], template.view, body.code)] + rest)
  }

  function TopFrame(name: string): Frame {
    Frame(View, None, [], [name])
  }
}
