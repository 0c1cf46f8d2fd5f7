/** The compiler as the program runs it: one shared list of output lines, one serial
    counter, the set of used helpers and the map of imported view types, all updated in
    place while the trees are walked. */
module TemplateCompiler {
  import opened Outcomes
  import opened TemplateLanguage
  import opened TargetProgram
  import opened TemplateEmission

  // ---------- What a piece of code adds ----------

  function ArgHelpers(args: seq<OutArg>): set<string> {
    set arg | arg in args :: if arg.selects then "selectParameter" else "parameter"
  }

  function OutputHelpers(output: Output): set<string> {
    match output
    case OutLiteral(_) => {}
    case OutHelper(helper, _) => {helper}
    case OutMessage(_, args) => ArgHelpers(args)
  }

  /** The runtime helpers that generated code calls. */
  function Helpers(stmts: seq<Stmt>): set<string>
    decreases stmts, 1
  {
    if stmts == [] then {} else StmtHelpers(stmts[0]) + Helpers(stmts[1..])
  }

  function StmtHelpers(stmt: Stmt): set<string>
    decreases stmt, 0
  {
    match stmt
    case Out(output) => OutputHelpers(output)
    case LetPart(_, _, _, body) => Helpers(body)
    case IfStmt(_, _, body, rest) => {"truthy"} + Helpers(body) + ElseHelpers(rest)
    case ForEach(_, _, body) => {"each"} + Helpers(body)
    case SwitchStmt(_, _, arms) => {"kind", "assertNever"} + ArmHelpers(arms)
  }

  function ElseHelpers(rest: ElseStmt): set<string>
    decreases rest, 0
  {
    match rest
    case EndIf => {}
    case Otherwise(body) => Helpers(body)
    case OtherwiseIf(_, body, rest') => Helpers(body) + ElseHelpers(rest')
  }

  function ArmHelpers(arms: seq<Arm>): set<string>
    decreases arms, 0
  {
    if arms == [] then {} else Helpers(arms[0].body) + ArmHelpers(arms[1..])
  }

  function FunctionHelpers(functions: seq<Function>): set<string> {
    if functions == [] then {}
    else FunctionHelpers(functions[..|functions| - 1]) + Helpers(functions[|functions| - 1].body)
  }

  /** The view types that generated code names. */
  function Views(lines: seq<Line>): set<string> {
    if lines == [] then {}
    else (if lines[0].OpenPart? || lines[0].OpenFunction? then {lines[0].view} else {}) + Views(lines[1..])
  }

  lemma {:induction false} ViewsConcat(a: seq<Line>, b: seq<Line>)
    ensures Views(a + b) == Views(a) + Views(b)
  {
    if a == [] {
      assert a + b == b;
    } else {
      ViewsConcat(a[1..], b);
      assert (a + b)[0] == a[0] && (a + b)[1..] == a[1..] + b;
    }
  }

  lemma {:induction false} HelpersConcat(a: seq<Stmt>, b: seq<Stmt>)
    ensures Helpers(a + b) == Helpers(a) + Helpers(b)
  {
    hide StmtHelpers;
    if a == [] {
      assert a + b == b;
    } else {
      HelpersConcat(a[1..], b);
      assert (a + b)[0] == a[0] && (a + b)[1..] == a[1..] + b;
    }
  }

  /** An addition to the emitter's state, with the flags of the code added. */
  datatype Piece = Piece(lines: seq<Line>, helpers: set<string>, serial: nat, raw: bool, output: bool) {
    function Join(next: Piece): Piece {
      Piece(lines + next.lines, helpers + next.helpers, next.serial, raw || next.raw, output || next.output)
    }

    function JoinTo(next: Result<Piece, Problem>): Result<Piece, Problem> {
      match next
      case Failure(p) => Failure(p)
      case Success(piece) => Success(Join(piece))
    }
  }

  function OfStmts(r: Result<Emitted<seq<Stmt>>, Problem>): Result<Piece, Problem> {
    match r
    case Failure(p) => Failure(p)
    case Success(e) => Success(Piece(Flatten(e.code), Helpers(e.code), e.serial, e.raw, e.output))
  }

  function OfElse(r: Result<Emitted<ElseStmt>, Problem>): Result<Piece, Problem> {
    match r
    case Failure(p) => Failure(p)
    case Success(e) => Success(Piece(FlattenElse(e.code), ElseHelpers(e.code), e.serial, e.raw, e.output))
  }

  function OfArms(r: Result<Emitted<seq<Arm>>, Problem>): Result<Piece, Problem> {
    match r
    case Failure(p) => Failure(p)
    case Success(e) => Success(Piece(FlattenArms(e.code), ArmHelpers(e.code), e.serial, e.raw, e.output))
  }

  /** One more node of a list. */
  lemma NodesStep(lib: Library, nodes: seq<Node>, frame: Frame, serial: nat, raw: bool, output: bool)
    requires nodes != [] && EmitNode(lib, nodes[0], frame, serial).Success?
    requires var node := EmitNode(lib, nodes[0], frame, serial).value; !(raw && node.output)
    ensures var node := EmitNode(lib, nodes[0], frame, serial).value;
            OfStmts(EmitNodes(lib, nodes, frame, serial, raw, output)) ==
            OfStmts(Success(node)).value.JoinTo(
              OfStmts(EmitNodes(lib, nodes[1..], frame, node.serial, raw || node.raw, output || node.output)))
  {
    var node := EmitNode(lib, nodes[0], frame, serial).value;
    var rest := EmitNodes(lib, nodes[1..], frame, node.serial, raw || node.raw, output || node.output);
    if rest.Success? {
      FlattenConcat(node.code, rest.value.code);
      HelpersConcat(node.code, rest.value.code);
    }
  }

  lemma JoinAssociates(a: Piece, b: Piece, r: Result<Piece, Problem>)
    ensures a.Join(b).JoinTo(r) == a.JoinTo(b.JoinTo(r))
  {
    if r.Success? {
      assert a.lines + b.lines + r.value.lines == a.lines + (b.lines + r.value.lines);
      assert a.helpers + b.helpers + r.value.helpers == a.helpers + (b.helpers + r.value.helpers);
    }
  }

  lemma JoinEmpty(serial: nat, r: Result<Piece, Problem>)
    ensures Piece([], {}, serial, false, false).JoinTo(r) == r
  {
    if r.Success? {
      assert [] + r.value.lines == r.value.lines;
      assert {} + r.value.helpers == r.value.helpers;
    }
  }

  datatype Flags = Flags(raw: bool, output: bool)

  class Emitter {
    const lib: Library
    var lines: seq<Line>
    var serial: nat
    var used: set<string>
    var imports: map<string, Template>

    constructor (lib: Library)
      ensures this.lib == lib && lines == [] && serial == 0 && used == {} && imports == map[]
      ensures Valid()
    {
      this.lib := lib;
      lines, serial, used, imports := [], 0, {}, map[];
    }

    /** Every view type the lines name is imported under its own name, and no other. */
    ghost predicate Valid()
      reads this
    {
      imports.Keys == Views(lines) && forall view :: view in imports ==> imports[view].view == view
    }

    /** What a method may have done: failed, or added exactly one piece. */
    ghost predicate Did(lines0: seq<Line>, used0: set<string>, r: Result<Flags, Problem>, spec: Result<Piece, Problem>)
      reads this
    {
      match spec
      case Failure(p) => r == Failure(p)
      case Success(piece) =>
        && r == Success(Flags(piece.raw, piece.output))
        && lines == lines0 + piece.lines
        && used == used0 + piece.helpers
        && serial == piece.serial
        && Valid()
    }

    method Add(line: Line)
      requires Valid() && !line.OpenPart? && !line.OpenFunction?
      modifies this`lines
      ensures Valid() && lines == old(lines) + [line]
    {
      ViewsConcat(lines, [line]);
      lines := lines + [line];
    }

    /** A line that names a view type imports that type. */
    method AddView(line: Line, template: Template)
      requires Valid() && (line.OpenPart? || line.OpenFunction?) && line.view == template.view
      modifies this`lines, this`imports
      ensures Valid() && lines == old(lines) + [line]
    {
      ViewsConcat(lines, [line]);
      assert [line][1..] == [];
      lines := lines + [line];
      imports := imports[template.view := template];
    }

    method Emit(nodes: seq<Node>, frame: Frame) returns (r: Result<Flags, Problem>)
      requires Valid()
      modifies this
      ensures Did(old(lines), old(used), r, OfStmts(EmitNodes(lib, nodes, frame, old(serial), false, false)))
      decreases Room(lib, frame.stack), nodes, 0
    {
      hide EmitNode, Views;
      var raw, output := false, false;
      ghost var spec := OfStmts(EmitNodes(lib, nodes, frame, serial, false, false));
      ghost var done := Piece([], {}, serial, false, false);
      ghost var lines0, used0 := lines, used;
      assert nodes[0..] == nodes;
      JoinEmpty(serial, spec);
      for i := 0 to |nodes|
        invariant Valid()
        invariant done.serial == serial && done.raw == raw && done.output == output
        invariant lines == lines0 + done.lines && used == used0 + done.helpers
        invariant spec == done.JoinTo(OfStmts(EmitNodes(lib, nodes[i..], frame, serial, raw, output)))
      {
        assert nodes[i..][0] == nodes[i] && nodes[i..][1..] == nodes[i + 1..];
        ghost var serial0 := serial;
        var flags := EmitOne(nodes[i], frame);
        if flags.Failure? {
          return Failure(flags.error);
        }
        if raw && flags.value.output {
          return Failure(OutputAfterRaw);
        }
        ghost var piece := OfStmts(EmitNode(lib, nodes[i], frame, serial0)).value;
        NodesStep(lib, nodes[i..], frame, serial0, raw, output);
        JoinAssociates(done, piece, OfStmts(EmitNodes(lib, nodes[i + 1..], frame, serial, raw || flags.value.raw, output || flags.value.output)));
        done := done.Join(piece);
        raw := raw || flags.value.raw;
        output := output || flags.value.output;
      }
      assert nodes[|nodes|..] == [];
      assert done.lines + [] == done.lines;
      return Success(Flags(raw, output));
    }

    method EmitOne(node: Node, frame: Frame) returns (r: Result<Flags, Problem>)
      requires Valid()
      modifies this
      ensures Did(old(lines), old(used), r, OfStmts(EmitNode(lib, node, frame, old(serial))))
      decreases Room(lib, frame.stack), node, 1
    {
      match node
      case Literal(text) =>
        AddOutput(OutLiteral(text));
        r := Success(Flags(false, |text| > 0));
      case Insert(ref, filters) =>
        var out := EmitInsert(ref, filters, frame);
        if out.Failure? { return Failure(out.error); }
        AddOutput(out.value);
        r := Success(Flags(FilterName(filters) == "raw_last", true));
      case Message(call) =>
        var out := EmitMessage(lib.definitions, call, frame);
        if out.Failure? { return Failure(out.error); }
        AddOutput(out.value);
        r := Success(Flags(false, true));
      case Partial(_) => r := EmitPartial(node, frame);
      case If(_, _, _, _) => r := EmitIf(node, frame);
      case Each(_, _) => r := EmitEach(node, frame);
      case Switch(_, _, _) => r := EmitSwitch(node, frame);
    }

    /** `out += ...` with the helpers it calls. */
    method AddOutput(output: Output)
      requires Valid()
      modifies this`lines, this`used
      ensures Valid()
      ensures lines == old(lines) + Flatten([Out(output)]) && used == old(used) + Helpers([Out(output)])
    {
      assert [Out(output)][1..] == [];
      Add(OutLine(output));
      used := used + OutputHelpers(output);
    }

    method EmitPartial(node: Node, frame: Frame) returns (r: Result<Flags, Problem>)
      requires node.Partial? && Valid()
      modifies this
      ensures Did(old(lines), old(used), r, OfStmts(EmitNode(lib, node, frame, old(serial))))
      decreases Room(lib, frame.stack), node, 0
    {
      hide Expression, EmitNodes, Flatten, Helpers, Views;
      if node.partial.None? { return Failure(BadPartialTag); }
      var call := node.partial.value;
      var key := PartialKey(call.name);
      if key !in lib.templates { return Failure(MissingPartial); }
      if key in frame.stack { return Failure(RecursivePartial); }
      PartialPieces(lib, node, frame, serial);
      var template := lib.templates[key];
      var id := serial;
      var value := Expression(if call.arg.Some? then call.arg.value else Field([]), frame);
      serial := serial + 1;
      if value.Failure? { return Failure(value.error); }
      RoomShrinks(lib, frame.stack, key);
      AddView(OpenPart(id, template.view, value.value), template);
      var inner := Emit(template.nodes, EnterPartial(frame, id, key));
      if inner.Failure? { return Failure(inner.error); }
      Add(Close);
      r := inner;
      ghost var body := OfStmts(EmitNodes(lib, template.nodes, EnterPartial(frame, id, key), id + 1, false, false)).value;
      Enclosed(old(lines), OpenPart(id, template.view, value.value), body.lines, Close);
    }

    method EmitIf(node: Node, frame: Frame) returns (r: Result<Flags, Problem>)
      requires node.If? && Valid()
      modifies this
      ensures Did(old(lines), old(used), r, OfStmts(EmitNode(lib, node, frame, old(serial))))
      decreases Room(lib, frame.stack), node, 0
    {
      hide Expression, EmitNodes, EmitNode, EmitChain, Flatten, FlattenElse, Helpers, ElseHelpers, Views;
      IfPieces(lib, node, frame, serial);
      used := used + {"truthy"};
      var value := Expression(node.cond, frame);
      if value.Failure? { return Failure(value.error); }
      Add(OpenIf(node.unless, value.value));
      var taken := Emit(node.body, frame);
      if taken.Failure? { return Failure(taken.error); }
      var others := EmitRest(node.rest, frame);
      if others.Failure? { return Failure(others.error); }
      r := Success(Flags(taken.value.raw || others.value.raw, taken.value.output || others.value.output));
    }

    /** The remaining branches and the closing brace. */
    method EmitRest(chain: Chain, frame: Frame) returns (r: Result<Flags, Problem>)
      requires Valid()
      modifies this
      ensures Did(old(lines), old(used), r, OfElse(EmitChain(lib, chain, frame, old(serial))))
      decreases Room(lib, frame.stack), chain, 1
    {
      hide BranchSpec, Views;
      ghost var spec := OfElse(EmitChain(lib, chain, frame, serial));
      ghost var done := Piece([], {}, serial, false, false);
      JoinEmpty(serial, spec);
      ghost var lines1, used1 := lines, used;
      var raw, output := false, false;
      var rest := chain;
      while !rest.NoElse?
        invariant Valid()
        invariant rest == chain || rest < chain || rest.NoElse?
        invariant done.serial == serial && done.raw == raw && done.output == output
        invariant lines == lines1 + done.lines && used == used1 + done.helpers
        invariant spec == done.JoinTo(OfElse(EmitChain(lib, rest, frame, serial)))
        decreases !rest.NoElse?, rest
      {
        ChainStep(lib, rest, frame, serial);
        ghost var branchSpec := BranchSpec(lib, rest, frame, serial);
        var branch := EmitBranch(rest, frame);
        if branch.Failure? { return Failure(branch.error); }
        raw := raw || branch.value.raw;
        output := output || branch.value.output;
        rest := AfterBranch(rest);
        JoinAssociates(done, branchSpec.value, OfElse(EmitChain(lib, rest, frame, serial)));
        Associate(lines1, done.lines, branchSpec.value.lines);
        done := done.Join(branchSpec.value);
      }
      Associate(lines1, done.lines, [Close]);
      Add(Close);
      r := Success(Flags(raw, output));
      assert done.helpers + {} == done.helpers;
    }

    method EmitBranch(chain: Chain, frame: Frame) returns (r: Result<Flags, Problem>)
      requires !chain.NoElse? && Valid()
      modifies this
      ensures Did(old(lines), old(used), r, BranchSpec(lib, chain, frame, old(serial)))
      decreases Room(lib, frame.stack), chain, 0
    {
      var head := ElseLine;
      if chain.ElseIf? {
        var cond := Expression(chain.cond, frame);
        if cond.Failure? { return Failure(cond.error); }
        head := ElseIfLine(cond.value);
      }
      Add(head);
      r := Emit(chain.body, frame);
    }

    method EmitEach(node: Node, frame: Frame) returns (r: Result<Flags, Problem>)
      requires node.Each? && Valid()
      modifies this
      ensures Did(old(lines), old(used), r, OfStmts(EmitNode(lib, node, frame, old(serial))))
      decreases Room(lib, frame.stack), node, 0
    {
      hide Expression, EmitNode, EmitNodes, Flatten, Helpers, Views;
      EachPieces(lib, node, frame, serial);
      var id := serial;
      serial := serial + 1;
      used := used + {"each"};
      var value := Expression(node.list, frame);
      if value.Failure? { return Failure(value.error); }
      Add(OpenEach(id, value.value));
      var inner := Emit(node.body, EnterEach(frame, id));
      if inner.Failure? { return Failure(inner.error); }
      if inner.value.raw { return Failure(RawInEach); }
      Add(Close);
      r := inner;
      ghost var body := OfStmts(EmitNodes(lib, node.body, EnterEach(frame, id), id + 1, false, false)).value;
      Enclosed(old(lines), OpenEach(id, value.value), body.lines, Close);
    }

    method EmitSwitch(node: Node, frame: Frame) returns (r: Result<Flags, Problem>)
      requires node.Switch? && Valid()
      modifies this
      ensures Did(old(lines), old(used), r, OfStmts(EmitNode(lib, node, frame, old(serial))))
      decreases Room(lib, frame.stack), node, 0
    {
      hide EmitNode, EmitPrefix, PrefixOutputs, Flatten, Helpers, KindSpec, Views;
      SwitchPieces(lib, node, frame, serial);
      var prefix := AddPrefix(node.prefix);
      var block := EmitKind(node.subject, node.cases, frame);
      if block.Failure? { return Failure(block.error); }
      r := Success(Flags(block.value.raw, prefix || block.value.output));
    }

    method EmitKind(subject: Ref, cases: seq<Case>, frame: Frame) returns (r: Result<Flags, Problem>)
      requires Valid()
      modifies this
      ensures Did(old(lines), old(used), r, KindSpec(lib, subject, cases, frame, old(serial)))
      decreases Room(lib, frame.stack), cases, 1
    {
      hide Expression, EmitCases, FlattenArms, ArmHelpers, Views;
      var value := Expression(subject, frame);
      if value.Failure? { return Failure(value.error); }
      var id := serial;
      serial := serial + 1;
      used := used + {"kind"};
      Add(OpenSwitch(id, value.value));
      r := EmitArms(cases, EnterCase(frame, value.value, id));
      if r.Failure? { return Failure(r.error); }
      used := used + {"assertNever"};
      Add(EndSwitch(id));
      ghost var arms := OfArms(EmitCases(lib, cases, EnterCase(frame, value.value, id), id + 1)).value;
      Enclosed(old(lines), OpenSwitch(id, value.value), arms.lines, EndSwitch(id));
      assert old(used) + {"kind"} + arms.helpers + {"assertNever"} == old(used) + ({"kind"} + arms.helpers + {"assertNever"});
    }

    method EmitArms(cases: seq<Case>, frame: Frame) returns (r: Result<Flags, Problem>)
      requires Valid()
      modifies this
      ensures Did(old(lines), old(used), r, OfArms(EmitCases(lib, cases, frame, old(serial))))
      decreases Room(lib, frame.stack), cases, 0
    {
      hide ArmSpec, Views;
      ghost var spec := OfArms(EmitCases(lib, cases, frame, serial));
      ghost var done := Piece([], {}, serial, false, false);
      JoinEmpty(serial, spec);
      ghost var lines1, used1 := lines, used;
      var raw, output := false, false;
      assert cases[0..] == cases;
      for i := 0 to |cases|
        invariant Valid()
        invariant done.serial == serial && done.raw == raw && done.output == output
        invariant lines == lines1 + done.lines && used == used1 + done.helpers
        invariant spec == done.JoinTo(OfArms(EmitCases(lib, cases[i..], frame, serial)))
      {
        assert cases[i..][0] == cases[i] && cases[i..][1..] == cases[i + 1..];
        CasesStep(lib, cases[i..], frame, serial);
        ghost var armSpec := ArmSpec(lib, cases[i], frame, serial);
        var arm := EmitArm(cases[i], frame);
        if arm.Failure? { return Failure(arm.error); }
        raw := raw || arm.value.raw;
        output := output || arm.value.output;
        JoinAssociates(done, armSpec.value, OfArms(EmitCases(lib, cases[i + 1..], frame, serial)));
        Associate(lines1, done.lines, armSpec.value.lines);
        done := done.Join(armSpec.value);
      }
      assert cases[|cases|..] == [];
      assert done.lines + [] == done.lines && done.helpers + {} == done.helpers;
      r := Success(Flags(raw, output));
    }

    method EmitArm(arm: Case, frame: Frame) returns (r: Result<Flags, Problem>)
      requires Valid()
      modifies this
      ensures Did(old(lines), old(used), r, ArmSpec(lib, arm, frame, old(serial)))
      decreases Room(lib, frame.stack), arm, 0
    {
      AddLabels(arm.names);
      Add(OpenBlock);
      ghost var serial0 := serial;
      r := Emit(arm.body, frame);
      if r.Success? {
        Add(BreakLine);
        Add(Close);
        ghost var code := EmitNodes(lib, arm.body, frame, serial0, false, false).value.code;
        ArmLines(old(lines), CaseLines(arm.names), Flatten(code));
      }
    }

    method AddPrefix(prefix: seq<string>) returns (output: bool)
      requires Valid()
      modifies this`lines
      ensures Valid() && lines == old(lines) + Flatten(EmitPrefix(prefix))
      ensures output == PrefixOutputs(prefix) && Helpers(EmitPrefix(prefix)) == {}
    {
      output := false;
      for i := 0 to |prefix|
        invariant Valid()
        invariant lines == old(lines) + Flatten(EmitPrefix(prefix[..i]))
        invariant Helpers(EmitPrefix(prefix[..i])) == {}
        invariant output == PrefixOutputs(prefix[..i])
      {
        Add(OutLine(OutLiteral(prefix[i])));
        PrefixStep(prefix[..i], prefix[i]);
        assert prefix[..i + 1] == prefix[..i] + [prefix[i]];
        output := output || |prefix[i]| > 0;
      }
      assert prefix[..|prefix|] == prefix;
    }

    method AddLabels(names: seq<string>)
      requires Valid()
      modifies this`lines
      ensures Valid() && lines == old(lines) + CaseLines(names)
    {
      for i := 0 to |names|
        invariant Valid() && lines == old(lines) + CaseLines(names[..i])
      {
        Add(CaseLabel(names[i]));
        LabelsStep(names[..i], names[i]);
        assert names[..i + 1] == names[..i] + [names[i]];
      }
      assert names[..|names|] == names;
    }

    method EmitFunction(name: string) returns (r: Result<Flags, Problem>)
      requires Valid() && name in lib.templates
      modifies this
      ensures match EmitNodes(lib, lib.templates[name].nodes, TopFrame(name), old(serial), false, false)
              case Failure(p) => r == Failure(p)
              case Success(body) =>
                r.Success? && Valid() && serial == body.serial && used == old(used) + Helpers(body.code) &&
                lines == old(lines) + FlattenFunction(Function(name, lib.templates[name].view, body.code))
    {
      var template := lib.templates[name];
      AddView(OpenFunction(name, template.view), template);
      r := Emit(template.nodes, TopFrame(name));
      if r.Success? {
        Add(EndFunction);
      }
    }

    /** Every template becomes one function, in file order. */
    method Compile(names: seq<string>) returns (r: Result<(), Problem>)
      requires Valid() && lines == [] && serial == 0 && used == {}
      requires forall name :: name in names ==> name in lib.templates
      modifies this
      ensures match EmitFunctions(lib, names, 0)
              case Failure(p) => r == Failure(p)
              case Success(functions) =>
                r.Success? && lines == FlattenFunctions(functions) && used == FunctionHelpers(functions) && Valid()
    {
      ghost var done: seq<Function> := [];
      assert names[0..] == names;
      PrependNothing(EmitFunctions(lib, names, 0));
      for i := 0 to |names|
        invariant Valid() && lines == FlattenFunctions(done) && used == FunctionHelpers(done)
        invariant EmitFunctions(lib, names, 0) == Prepend(done, EmitFunctions(lib, names[i..], serial))
      {
        assert names[i..][0] == names[i] && names[i..][1..] == names[i + 1..];
        ghost var serial0 := serial;
        var flags := EmitFunction(names[i]);
        if flags.Failure? { return Failure(flags.error); }
        ghost var f := FunctionsStep(lib, names[i..], serial0, done);
        assert (done + [f])[..|done|] == done;
        done := done + [f];
      }
      assert names[|names|..] == [];
      assert done + [] == done;
      r := Success(());
    }
  }

  function Prepend(done: seq<Function>, r: Result<seq<Function>, Problem>): Result<seq<Function>, Problem> {
    match r
    case Failure(p) => Failure(p)
    case Success(rest) => Success(done + rest)
  }

  lemma PrependNothing(r: Result<seq<Function>, Problem>)
    ensures Prepend([], r) == r
  {
    if r.Success? {
      assert [] + r.value == r.value;
    }
  }

  lemma FunctionsStep(lib: Library, names: seq<string>, serial: nat, done: seq<Function>) returns (f: Function)
    requires names != [] && forall name :: name in names ==> name in lib.templates
    requires EmitNodes(lib, lib.templates[names[0]].nodes, TopFrame(names[0]), serial, false, false).Success?
    ensures var body := EmitNodes(lib, lib.templates[names[0]].nodes, TopFrame(names[0]), serial, false, false).value;
            && f == Function(names[0], lib.templates[names[0]].view, body.code)
            && Prepend(done, EmitFunctions(lib, names, serial)) == Prepend(done + [f], EmitFunctions(lib, names[1..], body.serial))
            && FlattenFunctions(done + [f]) == FlattenFunctions(done) + FlattenFunction(f)
  {
    var body := EmitNodes(lib, lib.templates[names[0]].nodes, TopFrame(names[0]), serial, false, false).value;
    f := Function(names[0], lib.templates[names[0]].view, body.code);
    assert FlattenFunctions([f]) == FlattenFunction(f) by { assert [f][1..] == []; }
    FlattenFunctionsConcat(done, [f]);
    var rest := EmitFunctions(lib, names[1..], body.serial);
    if rest.Success? {
      assert done + ([f] + rest.value) == done + [f] + rest.value;
    }
  }

  // ---------- One step of each loop ----------

  lemma ArmLines(before: seq<Line>, labels: seq<Line>, body: seq<Line>)
    ensures before + labels + [OpenBlock] + body + [BreakLine] + [Close] ==
            before + (labels + [OpenBlock] + body + [BreakLine, Close])
  {
  }

  lemma Enclosed(before: seq<Line>, open: Line, inner: seq<Line>, end: Line)
    ensures before + [open] + inner + [end] == before + ([open] + inner + [end])
  {
  }

  lemma FlattenSingle(stmt: Stmt)
    ensures Flatten([stmt]) == FlattenStmt(stmt) && Helpers([stmt]) == StmtHelpers(stmt)
  {
    assert [stmt][1..] == [];
  }

  function AfterBranch(chain: Chain): Chain
    requires !chain.NoElse?
  {
    if chain.ElseIf? then chain.rest else NoElse
  }

  /** One branch after the first: its line and its body. */
  function BranchSpec(lib: Library, chain: Chain, frame: Frame, serial: nat): Result<Piece, Problem>
    requires !chain.NoElse?
  {
    var head :- if chain.ElseIf? then BranchHead(Expression(chain.cond, frame)) else Success(ElseLine);
    var code :- EmitNodes(lib, chain.body, frame, serial, false, false);
    Success(Piece([head] + Flatten(code.code), Helpers(code.code), code.serial, code.raw, code.output))
  }

  function BranchHead(cond: Result<Expr, Problem>): Result<Line, Problem> {
    match cond
    case Failure(p) => Failure(p)
    case Success(value) => Success(ElseIfLine(value))
  }

  /** First the one piece, then the other. */
  function Both(first: Result<Piece, Problem>, second: Result<Piece, Problem>): Result<Piece, Problem> {
    match first
    case Failure(p) => Failure(p)
    case Success(piece) => piece.JoinTo(second)
  }

  lemma ChainStep(lib: Library, chain: Chain, frame: Frame, serial: nat)
    requires !chain.NoElse?
    ensures var branch := BranchSpec(lib, chain, frame, serial);
            OfElse(EmitChain(lib, chain, frame, serial)) ==
            Both(branch, OfElse(EmitChain(lib, AfterBranch(chain), frame, if branch.Success? then branch.value.serial else serial)))
  {
    var branch := BranchSpec(lib, chain, frame, serial);
    if branch.Success? {
      assert branch.value.helpers + {} == branch.value.helpers;
    }
  }

  function ArmSpec(lib: Library, arm: Case, frame: Frame, serial: nat): Result<Piece, Problem> {
    var code :- EmitNodes(lib, arm.body, frame, serial, false, false);
    Success(Piece(CaseLines(arm.names) + [OpenBlock] + Flatten(code.code) + [BreakLine, Close],
                  Helpers(code.code), code.serial, code.raw, code.output))
  }

  lemma CasesStep(lib: Library, cases: seq<Case>, frame: Frame, serial: nat)
    requires cases != []
    ensures var arm := ArmSpec(lib, cases[0], frame, serial);
            OfArms(EmitCases(lib, cases, frame, serial)) ==
            Both(arm, OfArms(EmitCases(lib, cases[1..], frame, if arm.Success? then arm.value.serial else serial)))
  {
    var code := EmitNodes(lib, cases[0].body, frame, serial, false, false);
    if code.Success? {
      var rest := EmitCases(lib, cases[1..], frame, code.value.serial);
      if rest.Success? {
        var arms := [Arm(cases[0].names, code.value.code)] + rest.value.code;
        assert arms[1..] == rest.value.code;
      }
    }
  }

  /** A block of one inner list: its opening line, the list, the closing brace. */
  function Enclose(open: Line, helpers: set<string>, inner: Result<Piece, Problem>): Result<Piece, Problem> {
    match inner
    case Failure(p) => Failure(p)
    case Success(piece) => Success(piece.(lines := [open] + piece.lines + [Close], helpers := helpers + piece.helpers))
  }

  lemma EachPieces(lib: Library, node: Node, frame: Frame, serial: nat)
    requires node.Each?
    ensures var list := Expression(node.list, frame);
            var body := OfStmts(EmitNodes(lib, node.body, EnterEach(frame, serial), serial + 1, false, false));
            OfStmts(EmitNode(lib, node, frame, serial)) ==
            if list.Failure? then Failure(list.error)
            else if body.Success? && body.value.raw then Failure(RawInEach)
            else Enclose(OpenEach(serial, list.value), {"each"}, body)
  {
    var r := EmitNode(lib, node, frame, serial);
    if r.Success? {
      FlattenSingle(r.value.code[0]);
    }
  }

  lemma PartialPieces(lib: Library, node: Node, frame: Frame, serial: nat)
    requires node.Partial? && node.partial.Some?
    requires PartialKey(node.partial.value.name) in lib.templates && PartialKey(node.partial.value.name) !in frame.stack
    ensures var call := node.partial.value;
            var key := PartialKey(call.name);
            var value := Expression(if call.arg.Some? then call.arg.value else Field([]), frame);
            var body := OfStmts(EmitNodes(lib, lib.templates[key].nodes, EnterPartial(frame, serial, key), serial + 1, false, false));
            OfStmts(EmitNode(lib, node, frame, serial)) ==
            if value.Failure? then Failure(value.error)
            else Enclose(OpenPart(serial, lib.templates[key].view, value.value), {}, body)
  {
    var r := EmitNode(lib, node, frame, serial);
    if r.Success? {
      FlattenSingle(r.value.code[0]);
      assert {} + Helpers(r.value.code[0].body) == Helpers(r.value.code[0].body);
    }
  }

  lemma IfPieces(lib: Library, node: Node, frame: Frame, serial: nat)
    requires node.If?
    ensures var cond := Expression(node.cond, frame);
            var body := OfStmts(EmitNodes(lib, node.body, frame, serial, false, false));
            OfStmts(EmitNode(lib, node, frame, serial)) ==
            if cond.Failure? then Failure(cond.error)
            else if body.Failure? then body
            else Piece([OpenIf(node.unless, cond.value)], {"truthy"}, serial, false, false).Join(body.value).JoinTo(
                   OfElse(EmitChain(lib, node.rest, frame, body.value.serial)))
  {
    var r := EmitNode(lib, node, frame, serial);
    if r.Success? {
      FlattenSingle(r.value.code[0]);
    }
  }

  /** The switch block after its prefix. */
  function KindSpec(lib: Library, subject: Ref, cases: seq<Case>, frame: Frame, serial: nat): Result<Piece, Problem> {
    var value :- Expression(subject, frame);
    var arms :- OfArms(EmitCases(lib, cases, EnterCase(frame, value, serial), serial + 1));
    Success(arms.(lines := [OpenSwitch(serial, value)] + arms.lines + [EndSwitch(serial)],
                  helpers := {"kind"} + arms.helpers + {"assertNever"}))
  }

  lemma SwitchPieces(lib: Library, node: Node, frame: Frame, serial: nat)
    requires node.Switch?
    ensures OfStmts(EmitNode(lib, node, frame, serial)) ==
            Piece(Flatten(EmitPrefix(node.prefix)), Helpers(EmitPrefix(node.prefix)), serial, false, PrefixOutputs(node.prefix)).JoinTo(
              KindSpec(lib, node.subject, node.cases, frame, serial))
  {
    var r := EmitNode(lib, node, frame, serial);
    if r.Success? {
      var subject := Expression(node.subject, frame).value;
      var arms := EmitCases(lib, node.cases, EnterCase(frame, subject, serial), serial + 1).value;
      var switch := SwitchStmt(serial, subject, arms.code);
      FlattenSingle(switch);
      FlattenConcat(EmitPrefix(node.prefix), [switch]);
      HelpersConcat(EmitPrefix(node.prefix), [switch]);
      assert {"kind", "assertNever"} + ArmHelpers(arms.code) == {"kind"} + ArmHelpers(arms.code) + {"assertNever"};
    }
  }

  lemma {:induction false} PrefixConcat(prefix: seq<string>, text: string)
    ensures EmitPrefix(prefix + [text]) == EmitPrefix(prefix) + [Out(OutLiteral(text))]
  {
    if prefix == [] {
      assert (prefix + [text])[1..] == [];
    } else {
      PrefixConcat(prefix[1..], text);
      assert (prefix + [text])[1..] == prefix[1..] + [text];
    }
  }

  lemma PrefixStep(prefix: seq<string>, text: string)
    ensures Flatten(EmitPrefix(prefix + [text])) == Flatten(EmitPrefix(prefix)) + [OutLine(OutLiteral(text))]
    ensures Helpers(EmitPrefix(prefix + [text])) == Helpers(EmitPrefix(prefix))
    ensures PrefixOutputs(prefix + [text]) == (PrefixOutputs(prefix) || |text| > 0)
  {
    var out := Out(OutLiteral(text));
    PrefixConcat(prefix, text);
    FlattenConcat(EmitPrefix(prefix), [out]);
    HelpersConcat(EmitPrefix(prefix), [out]);
    FlattenSingle(out);
    assert text in prefix + [text];
    assert forall t :: t in prefix ==> t in prefix + [text];
  }

  lemma {:induction false} LabelsStep(names: seq<string>, name: string)
    ensures CaseLines(names + [name]) == CaseLines(names) + [CaseLabel(name)]
  {
    if names == [] {
      assert (names + [name])[1..] == [];
    } else {
      LabelsStep(names[1..], name);
      assert (names + [name])[1..] == names[1..] + [name];
    }
  }
}
