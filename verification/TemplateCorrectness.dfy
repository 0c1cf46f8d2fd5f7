/** The compiler preserves meaning, and its raw-last analysis is sound. */
module TemplateCorrectness {
  import opened Outcomes
  import opened TemplateLanguage
  import opened TargetProgram
  import opened TemplateEmission

  // ---------- Environments that model an interpreter state ----------

  /** Names bound so far carry serial numbers below `serial`, so fresh ones cannot capture. */
  predicate Older(name: Name, serial: nat) {
    name.View? || name.id < serial
  }

  predicate Bound(env: Env, e: Expr) {
    match e
    case Path(root, _) => root in env
    case IsFirst(id) => Index(id) in env
  }

  /** Both ends of an alias denote the same value. */
  predicate AliasHolds(env: Env, alias: Alias) {
    Bound(env, alias.path) && Bound(env, alias.value) && Eval(env, alias.path) == Eval(env, alias.value)
  }

  ghost predicate Models(env: Env, frame: Frame, serial: nat, cur: Val, first: Option<bool>) {
    && (forall name :: name in env ==> Older(name, serial))
    && frame.current in env && env[frame.current] == cur
    && (forall alias :: alias in frame.aliases ==> AliasHolds(env, alias))
    && match frame.first
       case None => first == None
       case Some(id) => Index(id) in env && first == Some(env[Index(id)] == Num(0.0))
  }

  /** `env'` adds names to `env` and rebinds none. */
  ghost predicate Extends(env: Env, env': Env) {
    forall name :: name in env ==> name in env' && env'[name] == env[name]
  }

  lemma ExtendsKeepsAliases(env: Env, env': Env, aliases: seq<Alias>)
    requires Extends(env, env')
    requires forall alias :: alias in aliases ==> AliasHolds(env, alias)
    ensures forall alias :: alias in aliases ==> AliasHolds(env', alias)
  {
    forall alias | alias in aliases ensures AliasHolds(env', alias) {
      assert AliasHolds(env, alias);
    }
  }

  lemma ModelsPartial(env: Env, frame: Frame, serial: nat, cur: Val, first: Option<bool>, key: string, v: Val)
    requires Models(env, frame, serial, cur, first)
    ensures Models(env[Part(serial) := v], EnterPartial(frame, serial, key), serial + 1, v, None)
  {
    assert Part(serial) !in env;
    ExtendsKeepsAliases(env, env[Part(serial) := v], frame.aliases);
  }

  lemma ModelsEach(env: Env, frame: Frame, serial: nat, cur: Val, first: Option<bool>, k: nat, v: Val)
    requires Models(env, frame, serial, cur, first)
    ensures Models(env[Index(serial) := Num(k as real)][Item(serial) := v], EnterEach(frame, serial), serial + 1, v, Some(k == 0))
  {
    assert Item(serial) !in env && Index(serial) !in env;
    ExtendsKeepsAliases(env, env[Index(serial) := Num(k as real)][Item(serial) := v], frame.aliases);
  }

  lemma ModelsCase(env: Env, frame: Frame, serial: nat, cur: Val, first: Option<bool>, value: Expr, v: Val, tag: Val)
    requires Models(env, frame, serial, cur, first)
    requires Bound(env, value) && Eval(env, value) == Some(v)
    ensures var env' := env[Kind(serial) := Obj(map["kind" := tag, "value" := v])];
            Models(env', EnterCase(frame, value, serial), serial + 1, cur, first)
  {
    var env' := env[Kind(serial) := Obj(map["kind" := tag, "value" := v])];
    assert Kind(serial) !in env;
    ExtendsKeepsAliases(env, env', frame.aliases);
    var alias := Alias(value, Path(Kind(serial), ["value"]));
    assert Walk(v, ["value"][1..]) == Some(v);
    assert Eval(env', alias.value) == Some(v) && Eval(env', alias.path) == Some(v);
  }

  // ---------- Expressions ----------

  lemma RedirectEval(env: Env, e: Expr, alias: Alias)
    requires Bound(env, e) && AliasHolds(env, alias)
    ensures Bound(env, Redirect(e, alias)) && Eval(env, Redirect(e, alias)) == Eval(env, e)
  {
    if Redirect(e, alias) != e {
      var below := e.segs[|alias.path.segs|..];
      assert e.segs == alias.path.segs + below;
      WalkConcat(env[e.root], alias.path.segs, below);
      WalkConcat(env[alias.value.root], alias.value.segs, below);
    }
  }

  lemma {:induction false} RedirectAllEval(env: Env, e: Expr, aliases: seq<Alias>)
    requires Bound(env, e)
    requires forall alias :: alias in aliases ==> AliasHolds(env, alias)
    ensures Bound(env, RedirectAll(e, aliases)) && Eval(env, RedirectAll(e, aliases)) == Eval(env, e)
    decreases aliases
  {
    if aliases != [] {
      RedirectEval(env, e, aliases[0]);
      RedirectAllEval(env, Redirect(e, aliases[0]), aliases[1..]);
    }
  }

  /** A compiled path reads the value its source path names, through every stacked alias. */
  lemma ExpressionCorrect(ref: Ref, frame: Frame, serial: nat, env: Env, cur: Val, first: Option<bool>)
    requires Models(env, frame, serial, cur, first)
    requires Expression(ref, frame).Success?
    ensures Bound(env, Expression(ref, frame).value)
    ensures Eval(env, Expression(ref, frame).value) == Lookup(ref, cur, first)
  {
    if ref.Field? {
      RedirectAllEval(env, Path(frame.current, ref.segs), frame.aliases);
    }
  }

  lemma {:induction false} ArgsCorrect(args: seq<(string, Ref)>, definition: Definition, frame: Frame, serial: nat, env: Env, cur: Val, first: Option<bool>)
    requires Models(env, frame, serial, cur, first)
    requires EmitArgs(args, definition, frame).Success?
    ensures EvalArgs(env, EmitArgs(args, definition, frame).value) == LookupArgs(definition, args, cur, first)
  {
    if args != [] {
      ExpressionCorrect(args[0].1, frame, serial, env, cur, first);
      ArgsCorrect(args[1..], definition, frame, serial, env, cur, first);
      var out := EmitArgs(args, definition, frame).value;
      assert out[1..] == EmitArgs(args[1..], definition, frame).value;
    }
  }

  lemma {:induction false} PrefixCorrect(rt: Runtime, prefix: seq<string>, env: Env)
    ensures Exec(rt, EmitPrefix(prefix), env) == RenderPrefix(prefix)
  {
    if prefix != [] {
      PrefixCorrect(rt, prefix[1..], env);
      var out := EmitPrefix(prefix);
      assert out[1..] == EmitPrefix(prefix[1..]);
    }
  }

  lemma ExecOne(rt: Runtime, stmt: Stmt, env: Env)
    ensures Exec(rt, [stmt], env) == ExecStmt(rt, stmt, env)
  {
    assert [stmt][1..] == [];
    var run := ExecStmt(rt, stmt, env);
    assert run.trace + [] == run.trace;
  }

  // ---------- Meaning is preserved ----------

  lemma {:induction false} NodesCorrect(rt: Runtime, lib: Library, nodes: seq<Node>, frame: Frame, serial: nat, raw: bool, output: bool,
                                        env: Env, cur: Val, first: Option<bool>, depth: nat)
    requires Models(env, frame, serial, cur, first)
    requires depth >= Room(lib, frame.stack)
    requires EmitNodes(lib, nodes, frame, serial, raw, output).Success?
    ensures var emitted := EmitNodes(lib, nodes, frame, serial, raw, output).value;
            Exec(rt, emitted.code, env) == RenderNodes(rt, lib, depth, nodes, cur, first)
    decreases Room(lib, frame.stack), nodes, 0
  {
    hide EmitNode, RenderNode, ExecStmt;
    if nodes != [] {
      NodeCorrect(rt, lib, nodes[0], frame, serial, env, cur, first, depth);
      var node := EmitNode(lib, nodes[0], frame, serial).value;
      NodesCorrect(rt, lib, nodes[1..], frame, node.serial, raw || node.raw, output || node.output, env, cur, first, depth);
      var rest := EmitNodes(lib, nodes[1..], frame, node.serial, raw || node.raw, output || node.output).value;
      ExecConcat(rt, node.code, rest.code, env);
    }
  }

  lemma {:induction false} NodeCorrect(rt: Runtime, lib: Library, node: Node, frame: Frame, serial: nat,
                                       env: Env, cur: Val, first: Option<bool>, depth: nat)
    requires Models(env, frame, serial, cur, first)
    requires depth >= Room(lib, frame.stack)
    requires EmitNode(lib, node, frame, serial).Success?
    ensures var emitted := EmitNode(lib, node, frame, serial).value;
            Exec(rt, emitted.code, env) == RenderNode(rt, lib, depth, node, cur, first)
    decreases Room(lib, frame.stack), node, 1
  {
    hide Lookup, Expression, RenderInsert, EmitInsert, EmitArgs, LookupArgs, EvalArgs;
    match node
    case Literal(text) => ExecOne(rt, Out(OutLiteral(text)), env);
    case Insert(ref, filters) =>
      ExecOne(rt, Out(EmitInsert(ref, filters, frame).value), env);
      InsertCorrect(rt, ref, filters, frame, serial, env, cur, first);
    case Message(call) =>
      ExecOne(rt, Out(EmitMessage(lib.definitions, call, frame).value), env);
      ArgsCorrect(call.value.args, lib.definitions[call.value.key], frame, serial, env, cur, first);
    case Partial(_) => PartialCorrect(rt, lib, node, frame, serial, env, cur, first, depth);
    case If(_, _, _, _) => IfCorrect(rt, lib, node, frame, serial, env, cur, first, depth);
    case Each(_, _) => EachCorrect(rt, lib, node, frame, serial, env, cur, first, depth);
    case Switch(_, _, _) => SwitchCorrect(rt, lib, node, frame, serial, env, cur, first, depth);
  }

  lemma {:induction false} IfCorrect(rt: Runtime, lib: Library, node: Node, frame: Frame, serial: nat,
                                       env: Env, cur: Val, first: Option<bool>, depth: nat)
    requires node.If?
    requires Models(env, frame, serial, cur, first)
    requires depth >= Room(lib, frame.stack)
    requires EmitNode(lib, node, frame, serial).Success?
    ensures var emitted := EmitNode(lib, node, frame, serial).value;
            Exec(rt, emitted.code, env) == RenderNode(rt, lib, depth, node, cur, first)
    decreases Room(lib, frame.stack), node, 0
  {
    hide Lookup, Expression, EmitNodes, EmitChain, RenderNodes, RenderChain, Exec, ExecElse;
    ExecOne(rt, EmitNode(lib, node, frame, serial).value.code[0], env);
    ExpressionCorrect(node.cond, frame, serial, env, cur, first);
    NodesCorrect(rt, lib, node.body, frame, serial, false, false, env, cur, first, depth);
    var taken := EmitNodes(lib, node.body, frame, serial, false, false).value;
    ChainCorrect(rt, lib, node.rest, frame, taken.serial, env, cur, first, depth);
  }

  lemma {:induction false} EachCorrect(rt: Runtime, lib: Library, node: Node, frame: Frame, serial: nat,
                                       env: Env, cur: Val, first: Option<bool>, depth: nat)
    requires node.Each?
    requires Models(env, frame, serial, cur, first)
    requires depth >= Room(lib, frame.stack)
    requires EmitNode(lib, node, frame, serial).Success?
    ensures var emitted := EmitNode(lib, node, frame, serial).value;
            Exec(rt, emitted.code, env) == RenderNode(rt, lib, depth, node, cur, first)
    decreases Room(lib, frame.stack), node, 0
  {
    hide Lookup, Expression, EmitNodes, RenderNodes, RenderItems, Exec, ExecItems;
    ExecOne(rt, EmitNode(lib, node, frame, serial).value.code[0], env);
    ExpressionCorrect(node.list, frame, serial, env, cur, first);
    match Lookup(node.list, cur, first) {
      case Some(List(items)) => ItemsCorrect(rt, lib, node.body, frame, serial, env, cur, first, depth, items, 0);
      case _ =>
    }
  }

  lemma {:induction false} SwitchCorrect(rt: Runtime, lib: Library, node: Node, frame: Frame, serial: nat,
                                       env: Env, cur: Val, first: Option<bool>, depth: nat)
    requires node.Switch?
    requires Models(env, frame, serial, cur, first)
    requires depth >= Room(lib, frame.stack)
    requires EmitNode(lib, node, frame, serial).Success?
    ensures var emitted := EmitNode(lib, node, frame, serial).value;
            Exec(rt, emitted.code, env) == RenderNode(rt, lib, depth, node, cur, first)
    decreases Room(lib, frame.stack), node, 0
  {
    hide Lookup, Expression, EmitCases, RenderKind, ExecKind;
    var value := Expression(node.subject, frame).value;
    var arms := EmitCases(lib, node.cases, EnterCase(frame, value, serial), serial + 1).value;
    var switch := SwitchStmt(serial, value, arms.code);
    KindCorrect(rt, lib, node.subject, node.cases, frame, serial, env, cur, first, depth);
    PrefixCorrect(rt, node.prefix, env);
    ExecOne(rt, switch, env);
    ExecConcat(rt, EmitPrefix(node.prefix), [switch], env);
  }

  lemma InsertCorrect(rt: Runtime, ref: Ref, filters: seq<string>, frame: Frame, serial: nat, env: Env, cur: Val, first: Option<bool>)
    requires Models(env, frame, serial, cur, first)
    requires EmitInsert(ref, filters, frame).Success?
    ensures ExecOutput(rt, EmitInsert(ref, filters, frame).value, env) == RenderInsert(rt, ref, filters, cur, first)
  {
    ExpressionCorrect(ref, frame, serial, env, cur, first);
    var filter := FilterName(filters);
    assert HELPERS[filter] == "rawLast" <==> filter == "raw_last";
  }

  lemma {:induction false} PartialCorrect(rt: Runtime, lib: Library, node: Node, frame: Frame, serial: nat,
                                          env: Env, cur: Val, first: Option<bool>, depth: nat)
    requires node.Partial?
    requires Models(env, frame, serial, cur, first)
    requires depth >= Room(lib, frame.stack)
    requires EmitNode(lib, node, frame, serial).Success?
    ensures var emitted := EmitNode(lib, node, frame, serial).value;
            Exec(rt, emitted.code, env) == RenderNode(rt, lib, depth, node, cur, first)
    decreases Room(lib, frame.stack), node, 0
  {
    hide Lookup, Expression, EmitNodes, RenderNodes, Exec;
    var call := node.partial.value;
    var key := PartialKey(call.name);
    var arg := if call.arg.Some? then call.arg.value else Field([]);
    ExecOne(rt, EmitNode(lib, node, frame, serial).value.code[0], env);
    ExpressionCorrect(arg, frame, serial, env, cur, first);
    RoomShrinks(lib, frame.stack, key);
    match Lookup(arg, cur, first) {
      case None =>
      case Some(v) =>
        ModelsPartial(env, frame, serial, cur, first, key, v);
        NodesCorrect(rt, lib, lib.templates[key].nodes, EnterPartial(frame, serial, key), serial + 1, false, false,
                     env[Part(serial) := v], v, None, depth - 1);
    }
  }

  lemma {:induction false} ChainCorrect(rt: Runtime, lib: Library, chain: Chain, frame: Frame, serial: nat,
                                        env: Env, cur: Val, first: Option<bool>, depth: nat)
    requires Models(env, frame, serial, cur, first)
    requires depth >= Room(lib, frame.stack)
    requires EmitChain(lib, chain, frame, serial).Success?
    ensures var emitted := EmitChain(lib, chain, frame, serial).value;
            ExecElse(rt, emitted.code, env) == RenderChain(rt, lib, depth, chain, cur, first)
    decreases Room(lib, frame.stack), chain, 0
  {
    hide Lookup, Expression, EmitNodes, RenderNodes, Exec;
    match chain
    case NoElse =>
    case Else(body) => NodesCorrect(rt, lib, body, frame, serial, false, false, env, cur, first, depth);
    case ElseIf(cond, body, rest) =>
      ExpressionCorrect(cond, frame, serial, env, cur, first);
      NodesCorrect(rt, lib, body, frame, serial, false, false, env, cur, first, depth);
      var taken := EmitNodes(lib, body, frame, serial, false, false).value;
      ChainCorrect(rt, lib, rest, frame, taken.serial, env, cur, first, depth);
  }

  lemma {:induction false} ItemsCorrect(rt: Runtime, lib: Library, body: seq<Node>, frame: Frame, serial: nat,
                                        env: Env, cur: Val, first: Option<bool>, depth: nat, items: seq<Val>, k: nat)
    requires Models(env, frame, serial, cur, first)
    requires depth >= Room(lib, frame.stack)
    requires k <= |items|
    requires EmitNodes(lib, body, EnterEach(frame, serial), serial + 1, false, false).Success?
    ensures var inner := EmitNodes(lib, body, EnterEach(frame, serial), serial + 1, false, false).value;
            ExecItems(rt, serial, inner.code, items, k, env) == RenderItems(rt, lib, depth, body, items, k)
    decreases Room(lib, frame.stack), body, 1 + |items| - k
  {
    hide EmitNodes, RenderNodes, Exec;
    if k < |items| {
      ModelsEach(env, frame, serial, cur, first, k, items[k]);
      NodesCorrect(rt, lib, body, EnterEach(frame, serial), serial + 1, false, false,
                   env[Index(serial) := Num(k as real)][Item(serial) := items[k]], items[k], Some(k == 0), depth);
      ItemsCorrect(rt, lib, body, frame, serial, env, cur, first, depth, items, k + 1);
    }
  }

  lemma {:induction false} KindCorrect(rt: Runtime, lib: Library, subject: Ref, cases: seq<Case>, frame: Frame, serial: nat,
                                       env: Env, cur: Val, first: Option<bool>, depth: nat)
    requires Models(env, frame, serial, cur, first)
    requires depth >= Room(lib, frame.stack)
    requires Expression(subject, frame).Success?
    requires EmitCases(lib, cases, EnterCase(frame, Expression(subject, frame).value, serial), serial + 1).Success?
    ensures var value := Expression(subject, frame).value;
            var arms := EmitCases(lib, cases, EnterCase(frame, value, serial), serial + 1).value;
            ExecKind(rt, serial, value, arms.code, env) == RenderKind(rt, lib, depth, subject, cases, cur, first)
    decreases Room(lib, frame.stack), cases, 1
  {
    hide RenderCases, ExecArms, EmitCases, Redirect, RedirectAll, Walk;
    var value := Expression(subject, frame).value;
    ExpressionCorrect(subject, frame, serial, env, cur, first);
    match Lookup(subject, cur, first) {
      case None =>
      case Some(v) =>
        match KindLabel(v) {
          case None =>
          case Some(tag) =>
            var env' := env[Kind(serial) := Obj(map["kind" := tag, "value" := v])];
            ModelsCase(env, frame, serial, cur, first, value, v, tag);
            CasesCorrect(rt, lib, cases, EnterCase(frame, value, serial), serial + 1, tag, env', cur, first, depth);
        }
    }
  }

  lemma {:induction false} CasesCorrect(rt: Runtime, lib: Library, cases: seq<Case>, frame: Frame, serial: nat, tag: Val,
                                        env: Env, cur: Val, first: Option<bool>, depth: nat)
    requires Models(env, frame, serial, cur, first)
    requires depth >= Room(lib, frame.stack)
    requires EmitCases(lib, cases, frame, serial).Success?
    ensures var emitted := EmitCases(lib, cases, frame, serial).value;
            ExecArms(rt, emitted.code, tag, env) == RenderCases(rt, lib, depth, cases, tag, cur, first)
    decreases Room(lib, frame.stack), cases, 0
  {
    hide EmitNodes, RenderNodes, Exec;
    if cases != [] {
      NodesCorrect(rt, lib, cases[0].body, frame, serial, false, false, env, cur, first, depth);
      var body := EmitNodes(lib, cases[0].body, frame, serial, false, false).value;
      CasesCorrect(rt, lib, cases[1..], frame, body.serial, tag, env, cur, first, depth);
      var emitted := EmitCases(lib, cases, frame, serial).value;
      assert emitted.code[1..] == EmitCases(lib, cases[1..], frame, body.serial).value.code;
    }
  }

  // ---------- Raw output is last ----------

  /** What the flags promise of a trace: raw only if flagged, nothing if no output is
      flagged, and nothing after a raw segment (so at most one raw segment). */
  predicate Within(trace: seq<Segment>, raw: bool, output: bool) {
    && (forall i :: 0 <= i < |trace| && trace[i].raw ==> raw && i == |trace| - 1)
    && (trace != [] ==> output)
  }

  lemma WithinConcat(a: seq<Segment>, rawA: bool, outputA: bool, b: seq<Segment>, rawB: bool, outputB: bool)
    requires Within(a, rawA, outputA) && Within(b, rawB, outputB)
    requires !(rawA && outputB)
    ensures Within(a + b, rawA || rawB, outputA || outputB)
  {
  }

  lemma {:induction false} NodesRawLast(rt: Runtime, lib: Library, nodes: seq<Node>, frame: Frame, serial: nat, raw: bool, output: bool,
                                        before: seq<Segment>, cur: Val, first: Option<bool>, depth: nat)
    requires EmitNodes(lib, nodes, frame, serial, raw, output).Success?
    requires Within(before, raw, output)
    ensures var emitted := EmitNodes(lib, nodes, frame, serial, raw, output).value;
            Within(before + RenderNodes(rt, lib, depth, nodes, cur, first).trace, emitted.raw, emitted.output)
    decreases Room(lib, frame.stack), nodes, 0
  {
    hide EmitNode, RenderNode;
    if nodes == [] {
      assert before + [] == before;
    } else {
      NodeRawLast(rt, lib, nodes[0], frame, serial, cur, first, depth);
      var node := EmitNode(lib, nodes[0], frame, serial).value;
      var trace := RenderNode(rt, lib, depth, nodes[0], cur, first).trace;
      var rest := RenderNodes(rt, lib, depth, nodes[1..], cur, first).trace;
      WithinConcat(before, raw, output, trace, node.raw, node.output);
      NodesRawLast(rt, lib, nodes[1..], frame, node.serial, raw || node.raw, output || node.output, before + trace, cur, first, depth);
      assert before + trace + rest == before + (trace + rest);
    }
  }

  /** A body whose flags start empty. */
  lemma {:induction false} BodyRawLast(rt: Runtime, lib: Library, nodes: seq<Node>, frame: Frame, serial: nat, cur: Val, first: Option<bool>, depth: nat)
    requires EmitNodes(lib, nodes, frame, serial, false, false).Success?
    ensures var emitted := EmitNodes(lib, nodes, frame, serial, false, false).value;
            Within(RenderNodes(rt, lib, depth, nodes, cur, first).trace, emitted.raw, emitted.output)
    decreases Room(lib, frame.stack), nodes, 1
  {
    NodesRawLast(rt, lib, nodes, frame, serial, false, false, [], cur, first, depth);
    var trace := RenderNodes(rt, lib, depth, nodes, cur, first).trace;
    assert [] + trace == trace;
  }

  lemma {:induction false} NodeRawLast(rt: Runtime, lib: Library, node: Node, frame: Frame, serial: nat, cur: Val, first: Option<bool>, depth: nat)
    requires EmitNode(lib, node, frame, serial).Success?
    ensures var emitted := EmitNode(lib, node, frame, serial).value;
            Within(RenderNode(rt, lib, depth, node, cur, first).trace, emitted.raw, emitted.output)
    decreases Room(lib, frame.stack), node, 1
  {
    hide Lookup, Expression, EmitNodes, RenderNodes, EmitChain, RenderChain, RenderItems;
    match node
    case Literal(_) =>
    case Insert(_, _) =>
    case Message(_) =>
    case Partial(_) => PartialRawLast(rt, lib, node, frame, serial, cur, first, depth);
    case If(_, _, body, rest) =>
      BodyRawLast(rt, lib, body, frame, serial, cur, first, depth);
      ChainRawLast(rt, lib, rest, frame, EmitNodes(lib, body, frame, serial, false, false).value.serial, cur, first, depth);
    case Each(list, body) =>
      match Lookup(list, cur, first) {
        case Some(List(items)) => ItemsRawLast(rt, lib, body, frame, serial, items, 0, depth);
        case _ =>
      }
    case Switch(_, _, _) => SwitchRawLast(rt, lib, node, frame, serial, cur, first, depth);
  }

  lemma {:induction false} PartialRawLast(rt: Runtime, lib: Library, node: Node, frame: Frame, serial: nat, cur: Val, first: Option<bool>, depth: nat)
    requires node.Partial? && EmitNode(lib, node, frame, serial).Success?
    ensures var emitted := EmitNode(lib, node, frame, serial).value;
            Within(RenderNode(rt, lib, depth, node, cur, first).trace, emitted.raw, emitted.output)
    decreases Room(lib, frame.stack), node, 0
  {
    hide Lookup, Expression, EmitNodes, RenderNodes;
    var call := node.partial.value;
    var key := PartialKey(call.name);
    var arg := if call.arg.Some? then call.arg.value else Field([]);
    RoomShrinks(lib, frame.stack, key);
    if depth > 0 && Lookup(arg, cur, first).Some? {
      BodyRawLast(rt, lib, lib.templates[key].nodes, EnterPartial(frame, serial, key), serial + 1,
                  Lookup(arg, cur, first).value, None, depth - 1);
    }
  }

  lemma {:induction false} SwitchRawLast(rt: Runtime, lib: Library, node: Node, frame: Frame, serial: nat, cur: Val, first: Option<bool>, depth: nat)
    requires node.Switch? && EmitNode(lib, node, frame, serial).Success?
    ensures var emitted := EmitNode(lib, node, frame, serial).value;
            Within(RenderNode(rt, lib, depth, node, cur, first).trace, emitted.raw, emitted.output)
    decreases Room(lib, frame.stack), node, 0
  {
    hide Expression, EmitCases, RenderKind;
    var inCase := EnterCase(frame, Expression(node.subject, frame).value, serial);
    var arms := EmitCases(lib, node.cases, inCase, serial + 1).value;
    KindRawLast(rt, lib, node.subject, node.cases, inCase, serial + 1, cur, first, depth);
    PrefixTrace(node.prefix);
    WithinConcat(RenderPrefix(node.prefix).trace, false, PrefixOutputs(node.prefix),
                 RenderKind(rt, lib, depth, node.subject, node.cases, cur, first).trace, arms.raw, arms.output);
  }

  lemma {:induction false} PrefixTrace(prefix: seq<string>)
    ensures Within(RenderPrefix(prefix).trace, false, PrefixOutputs(prefix)) && RenderPrefix(prefix).status == Finished
  {
    if prefix != [] {
      PrefixTrace(prefix[1..]);
      assert prefix[0] in prefix;
      assert forall text :: text in prefix[1..] ==> text in prefix;
    }
  }

  lemma {:induction false} ChainRawLast(rt: Runtime, lib: Library, chain: Chain, frame: Frame, serial: nat, cur: Val, first: Option<bool>, depth: nat)
    requires EmitChain(lib, chain, frame, serial).Success?
    ensures var emitted := EmitChain(lib, chain, frame, serial).value;
            Within(RenderChain(rt, lib, depth, chain, cur, first).trace, emitted.raw, emitted.output)
    decreases Room(lib, frame.stack), chain, 0
  {
    hide Lookup, Expression, EmitNodes, RenderNodes;
    match chain
    case NoElse =>
    case Else(body) => BodyRawLast(rt, lib, body, frame, serial, cur, first, depth);
    case ElseIf(cond, body, rest) =>
      BodyRawLast(rt, lib, body, frame, serial, cur, first, depth);
      ChainRawLast(rt, lib, rest, frame, EmitNodes(lib, body, frame, serial, false, false).value.serial, cur, first, depth);
  }

  /** However often a loop runs, it outputs nothing raw. */
  lemma {:induction false} ItemsRawLast(rt: Runtime, lib: Library, body: seq<Node>, frame: Frame, serial: nat, items: seq<Val>, k: nat, depth: nat)
    requires k <= |items|
    requires EmitNodes(lib, body, EnterEach(frame, serial), serial + 1, false, false).Success?
    requires !EmitNodes(lib, body, EnterEach(frame, serial), serial + 1, false, false).value.raw
    ensures Within(RenderItems(rt, lib, depth, body, items, k).trace, false,
                   EmitNodes(lib, body, EnterEach(frame, serial), serial + 1, false, false).value.output)
    decreases Room(lib, frame.stack), body, 2 + |items| - k
  {
    hide EmitNodes, RenderNodes;
    if k < |items| {
      BodyRawLast(rt, lib, body, EnterEach(frame, serial), serial + 1, items[k], Some(k == 0), depth);
      ItemsRawLast(rt, lib, body, frame, serial, items, k + 1, depth);
    }
  }

  lemma {:induction false} KindRawLast(rt: Runtime, lib: Library, subject: Ref, cases: seq<Case>, frame: Frame, serial: nat, cur: Val, first: Option<bool>, depth: nat)
    requires EmitCases(lib, cases, frame, serial).Success?
    ensures var emitted := EmitCases(lib, cases, frame, serial).value;
            Within(RenderKind(rt, lib, depth, subject, cases, cur, first).trace, emitted.raw, emitted.output)
    decreases Room(lib, frame.stack), cases, 1
  {
    match Lookup(subject, cur, first)
    case None =>
    case Some(v) =>
      match KindLabel(v)
      case None =>
      case Some(tag) => CasesRawLast(rt, lib, cases, frame, serial, tag, cur, first, depth);
  }

  lemma {:induction false} CasesRawLast(rt: Runtime, lib: Library, cases: seq<Case>, frame: Frame, serial: nat, tag: Val,
                                        cur: Val, first: Option<bool>, depth: nat)
    requires EmitCases(lib, cases, frame, serial).Success?
    ensures var emitted := EmitCases(lib, cases, frame, serial).value;
            Within(RenderCases(rt, lib, depth, cases, tag, cur, first).trace, emitted.raw, emitted.output)
    decreases Room(lib, frame.stack), cases, 0
  {
    hide EmitNodes, RenderNodes;
    if cases != [] {
      BodyRawLast(rt, lib, cases[0].body, frame, serial, cur, first, depth);
      CasesRawLast(rt, lib, cases[1..], frame, EmitNodes(lib, cases[0].body, frame, serial, false, false).value.serial, tag, cur, first, depth);
    }
  }

  // ---------- Whole modules ----------

  /** Every function of an accepted module, called on any view, does exactly what the
      interpreter does on its template; it never runs out of depth; and whatever it has
      written at any point, a raw segment is followed by nothing. */
  lemma {:induction false} FunctionsCorrect(rt: Runtime, lib: Library, names: seq<string>, serial: nat, i: nat, view: Val, depth: nat)
    requires forall name :: name in names ==> name in lib.templates
    requires EmitFunctions(lib, names, serial).Success?
    requires i < |names| && depth >= |lib.templates|
    ensures |EmitFunctions(lib, names, serial).value| == |names|
    ensures var f := EmitFunctions(lib, names, serial).value[i];
            var run := Exec(rt, f.body, map[View := view]);
            && f.name == names[i]
            && run == RenderNodes(rt, lib, depth, lib.templates[names[i]].nodes, view, None)
            && run.status != TooDeep
            && forall k :: 0 <= k < |run.trace| && run.trace[k].raw ==> k == |run.trace| - 1
    decreases names
  {
    hide EmitNodes, RenderNodes, Exec;
    var nodes := lib.templates[names[0]].nodes;
    var body := EmitNodes(lib, nodes, TopFrame(names[0]), serial, false, false).value;
    FunctionCount(lib, names, serial);
    if i == 0 {
      assert lib.templates.Keys - (set key | key in [names[0]]) == lib.templates.Keys - {names[0]};
      NodesCorrect(rt, lib, nodes, TopFrame(names[0]), serial, false, false, map[View := view], view, None, depth);
      BodyRawLast(rt, lib, nodes, TopFrame(names[0]), serial, view, None, depth);
    } else {
      FunctionsCorrect(rt, lib, names[1..], body.serial, i - 1, view, depth);
    }
  }

  lemma {:induction false} FunctionCount(lib: Library, names: seq<string>, serial: nat)
    requires forall name :: name in names ==> name in lib.templates
    requires EmitFunctions(lib, names, serial).Success?
    ensures |EmitFunctions(lib, names, serial).value| == |names|
    decreases names
  {
    if names != [] {
      FunctionCount(lib, names[1..],
        EmitNodes(lib, lib.templates[names[0]].nodes, TopFrame(names[0]), serial, false, false).value.serial);
    }
  }

  lemma {:induction false} FindByIndex(functions: seq<Function>, i: nat)
    requires i < |functions|
    requires forall j :: 0 <= j < |functions| && functions[j].name == functions[i].name ==> j == i
    ensures FindFunction(functions, functions[i].name) == Some(functions[i])
  {
    if i > 0 {
      assert functions[0].name != functions[i].name;
      FindByIndex(functions[1..], i - 1);
    }
  }

  /** The main theorem: from the flat lines of an accepted module, calling a template's
      function on any view gives the run of the direct interpreter. */
  lemma CompiledModuleMeansItsTemplates(rt: Runtime, lib: Library, names: seq<string>, name: string, view: Val, depth: nat)
    requires forall n :: n in names ==> n in lib.templates
    requires Distinct(names) && name in names
    requires EmitFunctions(lib, names, 0).Success?
    requires depth >= |lib.templates|
    ensures var lines := FlattenFunctions(EmitFunctions(lib, names, 0).value);
            var run := RenderNodes(rt, lib, depth, lib.templates[name].nodes, view, None);
            Call(rt, lines, name, view) == Some(run) && run.status != TooDeep &&
            forall k :: 0 <= k < |run.trace| && run.trace[k].raw ==> k == |run.trace| - 1
  {
    var functions := EmitFunctions(lib, names, 0).value;
    var i :| 0 <= i < |names| && names[i] == name;
    forall j | 0 <= j < |names| ensures |functions| == |names| && functions[j].name == names[j] {
      FunctionsCorrect(rt, lib, names, 0, j, view, depth);
    }
    FunctionsCorrect(rt, lib, names, 0, i, view, depth);
    FindByIndex(functions, i);
    ReadFlattenFunctions(functions);
  }
}
