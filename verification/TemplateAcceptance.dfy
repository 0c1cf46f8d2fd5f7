/** Which templates the compiler accepts. The conditions below look at the trees alone, with
    no variables, serial numbers or running flags, and emission succeeds exactly on them. */
module TemplateAcceptance {
  import opened Outcomes
  import opened TemplateLanguage
  import opened TargetProgram
  import opened TemplateEmission

  // ---------- The conditions ----------

  /** A field path, or `@first` within a loop of the same template file. */
  predicate PathOk(ref: Ref, looped: bool) {
    ref.Field? || (ref.First? && looped)
  }

  predicate FilterOk(filters: seq<string>) {
    filters == [] || (|filters| == 1 && filters[0] in {"inline", "quote", "cell", "line", "code", "text", "raw_last"})
  }

  /** Every declared parameter once, and nothing else. */
  ghost predicate Supplies(args: seq<(string, Ref)>, parameters: seq<string>) {
    forall name: string ::
      multiset(ArgNames(args))[name] == multiset(parameters)[name] <= 1
  }

  ghost predicate MessageOk(definitions: Definitions, call: Option<MessageCall>, looped: bool) {
    && call.Some? && call.value.key in definitions
    && Supplies(call.value.args, definitions[call.value.key].parameters)
    && forall arg :: arg in call.value.args ==> PathOk(arg.1, looped)
  }

  /** The partial may be inlined here: it exists and is not being inlined already. */
  predicate Enters(lib: Library, call: Option<PartialCall>, stack: seq<string>) {
    call.Some? && PartialKey(call.value.name) in lib.templates && PartialKey(call.value.name) !in stack
  }

  /** Some branch of the node writes raw text. */
  ghost predicate Raw(lib: Library, node: Node, stack: seq<string>)
    decreases Room(lib, stack), node, 0
  {
    match node
    case Insert(_, filters) => filters != [] && filters[0] == "raw_last"
    case Partial(call) =>
      Enters(lib, call, stack) &&
      var key := PartialKey(call.value.name);
      RoomShrinks(lib, stack, key);
      AnyRaw(lib, lib.templates[key].nodes, stack + [key])
    case If(_, _, body, rest) => AnyRaw(lib, body, stack) || ChainRaw(lib, rest, stack)
    case Each(_, body) => AnyRaw(lib, body, stack)
    case Switch(_, _, cases) => CasesRaw(lib, cases, stack)
    case _ => false
  }

  ghost predicate AnyRaw(lib: Library, nodes: seq<Node>, stack: seq<string>)
    decreases Room(lib, stack), nodes, 0
  {
    exists i :: 0 <= i < |nodes| && Raw(lib, nodes[i], stack)
  }

  ghost predicate ChainRaw(lib: Library, chain: Chain, stack: seq<string>)
    decreases Room(lib, stack), chain, 0
  {
    match chain
    case NoElse => false
    case Else(body) => AnyRaw(lib, body, stack)
    case ElseIf(_, body, rest) => AnyRaw(lib, body, stack) || ChainRaw(lib, rest, stack)
  }

  ghost predicate CasesRaw(lib: Library, cases: seq<Case>, stack: seq<string>)
    decreases Room(lib, stack), cases, 0
  {
    exists i :: 0 <= i < |cases| && AnyRaw(lib, cases[i].body, stack)
  }

  /** Some branch of the node writes something. */
  ghost predicate Writes(lib: Library, node: Node, stack: seq<string>)
    decreases Room(lib, stack), node, 0
  {
    match node
    case Literal(text) => text != ""
    case Insert(_, _) => true
    case Message(_) => true
    case Partial(call) =>
      Enters(lib, call, stack) &&
      var key := PartialKey(call.value.name);
      RoomShrinks(lib, stack, key);
      AnyWrites(lib, lib.templates[key].nodes, stack + [key])
    case If(_, _, body, rest) => AnyWrites(lib, body, stack) || ChainWrites(lib, rest, stack)
    case Each(_, body) => AnyWrites(lib, body, stack)
    case Switch(_, prefix, cases) =>
      (exists text :: text in prefix && text != "") || CasesWrite(lib, cases, stack)
  }

  ghost predicate AnyWrites(lib: Library, nodes: seq<Node>, stack: seq<string>)
    decreases Room(lib, stack), nodes, 0
  {
    exists i :: 0 <= i < |nodes| && Writes(lib, nodes[i], stack)
  }

  ghost predicate ChainWrites(lib: Library, chain: Chain, stack: seq<string>)
    decreases Room(lib, stack), chain, 0
  {
    match chain
    case NoElse => false
    case Else(body) => AnyWrites(lib, body, stack)
    case ElseIf(_, body, rest) => AnyWrites(lib, body, stack) || ChainWrites(lib, rest, stack)
  }

  ghost predicate CasesWrite(lib: Library, cases: seq<Case>, stack: seq<string>)
    decreases Room(lib, stack), cases, 0
  {
    exists i :: 0 <= i < |cases| && AnyWrites(lib, cases[i].body, stack)
  }

  /** Paths, filters, messages and partials are as they should be, no loop body is raw, and
      nothing is written after raw text. */
  ghost predicate NodeOk(lib: Library, node: Node, looped: bool, stack: seq<string>)
    decreases Room(lib, stack), node, 0
  {
    match node
    case Literal(_) => true
    case Insert(ref, filters) => PathOk(ref, looped) && FilterOk(filters)
    case Message(call) => MessageOk(lib.definitions, call, looped)
    case Partial(call) =>
      Enters(lib, call, stack) && (call.value.arg.Some? ==> PathOk(call.value.arg.value, looped)) &&
      var key := PartialKey(call.value.name);
      RoomShrinks(lib, stack, key);
      NodesOk(lib, lib.templates[key].nodes, false, stack + [key])
    case If(_, cond, body, rest) => PathOk(cond, looped) && NodesOk(lib, body, looped, stack) && ChainOk(lib, rest, looped, stack)
    case Each(list, body) => PathOk(list, looped) && NodesOk(lib, body, true, stack) && !AnyRaw(lib, body, stack)
    case Switch(subject, _, cases) =>
      PathOk(subject, looped) && CasesOk(lib, cases, looped, stack)
  }

  ghost predicate NodesOk(lib: Library, nodes: seq<Node>, looped: bool, stack: seq<string>)
    decreases Room(lib, stack), nodes, 0
  {
    && (forall i :: 0 <= i < |nodes| ==> NodeOk(lib, nodes[i], looped, stack))
    && (forall i, j :: 0 <= i < j < |nodes| ==> !(Raw(lib, nodes[i], stack) && Writes(lib, nodes[j], stack)))
  }

  ghost predicate ChainOk(lib: Library, chain: Chain, looped: bool, stack: seq<string>)
    decreases Room(lib, stack), chain, 0
  {
    match chain
    case NoElse => true
    case Else(body) => NodesOk(lib, body, looped, stack)
    case ElseIf(cond, body, rest) => PathOk(cond, looped) && NodesOk(lib, body, looped, stack) && ChainOk(lib, rest, looped, stack)
  }

  ghost predicate CasesOk(lib: Library, cases: seq<Case>, looped: bool, stack: seq<string>)
    decreases Room(lib, stack), cases, 0
  {
    forall i :: 0 <= i < |cases| ==> NodesOk(lib, cases[i].body, looped, stack)
  }

  // ---------- Values and messages ----------

  lemma InsertAccepted(ref: Ref, filters: seq<string>, frame: Frame)
    ensures EmitInsert(ref, filters, frame).Success? <==> PathOk(ref, frame.first.Some?) && FilterOk(filters)
  {
  }

  lemma {:induction false} ArgsAccepted(args: seq<(string, Ref)>, definition: Definition, frame: Frame)
    ensures EmitArgs(args, definition, frame).Success? <==> forall arg :: arg in args ==> PathOk(arg.1, frame.first.Some?)
  {
    if args != [] {
      ArgsAccepted(args[1..], definition, frame);
      assert args == [args[0]] + args[1..];
    }
  }

  lemma {:induction false} DistinctCounts(names: seq<string>)
    ensures Distinct(names) <==> forall name: string :: multiset(names)[name] <= 1
  {
    if names != [] {
      var rest, last := names[..|names| - 1], names[|names| - 1];
      DistinctCounts(rest);
      assert names == rest + [last];
      assert multiset(names) == multiset(rest) + multiset{last};
      if Distinct(names) {
        forall name: string ensures multiset(names)[name] <= 1 {
          assert name == last ==> name !in rest;
        }
      } else {
        var i, j :| 0 <= i < j < |names| && names[i] == names[j];
        if j == |rest| {
          assert rest[i] == last;
          assert multiset(names)[last] >= 2;
        } else {
          assert !Distinct(rest);
          var name :| multiset(rest)[name] > 1;
          assert multiset(names)[name] > 1;
        }
      }
    }
  }

  function Names(s: seq<string>): set<string> {
    set x | x in s
  }

  lemma {:induction false} FewerNames(a: set<string>, b: set<string>)
    requires a <= b
    ensures |a| <= |b| && (|a| == |b| ==> a == b)
    decreases a
  {
    if a != {} {
      var x :| x in a;
      FewerNames(a - {x}, b - {x});
    }
  }

  lemma {:induction false} NameCount(s: seq<string>)
    ensures |Names(s)| <= |s| && (|Names(s)| == |s| <==> Distinct(s))
  {
    if s == [] {
      assert Names(s) == {};
    } else {
      var rest, last := s[..|s| - 1], s[|s| - 1];
      NameCount(rest);
      assert s == rest + [last];
      assert Names(s) == Names(rest) + {last};
      if last in rest {
        assert Names(s) == Names(rest);
        var i :| 0 <= i < |rest| && rest[i] == last;
        assert s[i] == s[|rest|];
      } else if Distinct(rest) {
        assert Distinct(s);
      } else {
        var i, j :| 0 <= i < j < |rest| && rest[i] == rest[j];
        assert s[i] == s[j];
      }
    }
  }

  /** The three checks on the names together mean: every declared parameter once. */
  lemma ParametersAccepted(args: seq<(string, Ref)>, definition: Definition)
    ensures ParametersMatch(ArgNames(args), definition) <==> Supplies(args, definition.parameters)
  {
    var names, parameters := ArgNames(args), definition.parameters;
    DistinctCounts(names);
    DistinctCounts(parameters);
    NameCount(names);
    NameCount(parameters);
    if ParametersMatch(names, definition) {
      FewerNames(Names(names), Names(parameters));
      assert Names(names) == Names(parameters);
      forall name: string ensures multiset(names)[name] == multiset(parameters)[name] <= 1 {
        assert name in Names(names) <==> name in Names(parameters);
      }
    }
    if Supplies(args, parameters) {
      assert multiset(names) == multiset(parameters);
      assert |names| == |multiset(names)| == |multiset(parameters)| == |parameters|;
      forall name: string ensures multiset(names)[name] <= 1 {
        assert multiset(parameters)[name] <= 1;
      }
      forall name | name in names ensures name in parameters {
        assert name in multiset(names);
      }
    }
  }

  lemma MessageAccepted(definitions: Definitions, call: Option<MessageCall>, frame: Frame)
    ensures EmitMessage(definitions, call, frame).Success? <==> MessageOk(definitions, call, frame.first.Some?)
  {
    if call.Some? && call.value.key in definitions {
      ParametersAccepted(call.value.args, definitions[call.value.key]);
      ArgsAccepted(call.value.args, definitions[call.value.key], frame);
    }
    hide ParametersMatch, Supplies;
  }

  // ---------- Trees ----------

  /** Adding a node at the front. */
  lemma FrontNode(lib: Library, nodes: seq<Node>, looped: bool, stack: seq<string>)
    requires nodes != []
    ensures AnyRaw(lib, nodes, stack) <==> Raw(lib, nodes[0], stack) || AnyRaw(lib, nodes[1..], stack)
    ensures AnyWrites(lib, nodes, stack) <==> Writes(lib, nodes[0], stack) || AnyWrites(lib, nodes[1..], stack)
    ensures NodesOk(lib, nodes, looped, stack) <==>
            && NodeOk(lib, nodes[0], looped, stack) && NodesOk(lib, nodes[1..], looped, stack)
            && !(Raw(lib, nodes[0], stack) && AnyWrites(lib, nodes[1..], stack))
  {
    hide Raw, Writes, NodeOk;
    var rest := nodes[1..];
    assert forall i :: 0 < i < |nodes| ==> nodes[i] == rest[i - 1];
    assert forall i :: 0 <= i < |rest| ==> rest[i] == nodes[i + 1];
  }

  lemma {:induction false} NodesAccepted(lib: Library, nodes: seq<Node>, frame: Frame, serial: nat, raw: bool, output: bool)
    ensures var r := EmitNodes(lib, nodes, frame, serial, raw, output);
            && (r.Success? <==> NodesOk(lib, nodes, frame.first.Some?, frame.stack) && !(raw && AnyWrites(lib, nodes, frame.stack)))
            && (r.Success? ==> (r.value.raw <==> raw || AnyRaw(lib, nodes, frame.stack)))
            && (r.Success? ==> (r.value.output <==> output || AnyWrites(lib, nodes, frame.stack)))
    decreases Room(lib, frame.stack), nodes, 0
  {
    if nodes != [] {
      FrontNode(lib, nodes, frame.first.Some?, frame.stack);
      NodeAccepted(lib, nodes[0], frame, serial);
      var node := EmitNode(lib, nodes[0], frame, serial);
      hide NodesOk, NodeOk, AnyRaw, AnyWrites, Raw, Writes, EmitNode;
      if node.Success? && !(raw && node.value.output) {
        NodesAccepted(lib, nodes[1..], frame, node.value.serial, raw || node.value.raw, output || node.value.output);
      }
    }
  }

  /** The node is emitted if and only if it meets the conditions, with the flags they give. */
  ghost predicate Agrees(lib: Library, node: Node, frame: Frame, serial: nat) {
    var r := EmitNode(lib, node, frame, serial);
    && (r.Success? <==> NodeOk(lib, node, frame.first.Some?, frame.stack))
    && (r.Success? ==> (r.value.raw <==> Raw(lib, node, frame.stack)) && (r.value.output <==> Writes(lib, node, frame.stack)))
  }

  lemma {:induction false} NodeAccepted(lib: Library, node: Node, frame: Frame, serial: nat)
    ensures Agrees(lib, node, frame, serial)
    decreases Room(lib, frame.stack), node, 1
  {
    match node
    case Literal(_) =>
    case Insert(ref, filters) => InsertAccepted(ref, filters, frame);
    case Message(call) =>
      hide EmitMessage, MessageOk;
      MessageAccepted(lib.definitions, call, frame);
    case Partial(call) => PartialAccepted(lib, node, frame, serial);
    case If(_, _, _, _) => IfAccepted(lib, node, frame, serial);
    case Each(_, _) => EachAccepted(lib, node, frame, serial);
    case Switch(_, _, _) => SwitchAccepted(lib, node, frame, serial);
  }

  lemma {:induction false} PartialAccepted(lib: Library, node: Node, frame: Frame, serial: nat)
    requires node.Partial?
    ensures Agrees(lib, node, frame, serial)
    decreases Room(lib, frame.stack), node, 0
  {
    hide EmitNodes, NodesOk, AnyRaw, AnyWrites;
    if Enters(lib, node.partial, frame.stack) {
      var key := PartialKey(node.partial.value.name);
      RoomShrinks(lib, frame.stack, key);
      NodesAccepted(lib, lib.templates[key].nodes, EnterPartial(frame, serial, key), serial + 1, false, false);
    }
  }

  lemma {:induction false} IfAccepted(lib: Library, node: Node, frame: Frame, serial: nat)
    requires node.If?
    ensures Agrees(lib, node, frame, serial)
    decreases Room(lib, frame.stack), node, 0
  {
    hide EmitNodes, EmitChain, NodesOk, ChainOk, AnyRaw, AnyWrites, ChainRaw, ChainWrites;
    NodesAccepted(lib, node.body, frame, serial, false, false);
    var taken := EmitNodes(lib, node.body, frame, serial, false, false);
    if taken.Success? {
      ChainAccepted(lib, node.rest, frame, taken.value.serial);
    }
  }

  lemma {:induction false} EachAccepted(lib: Library, node: Node, frame: Frame, serial: nat)
    requires node.Each?
    ensures Agrees(lib, node, frame, serial)
    decreases Room(lib, frame.stack), node, 0
  {
    hide EmitNodes, NodesOk, AnyRaw, AnyWrites;
    NodesAccepted(lib, node.body, EnterEach(frame, serial), serial + 1, false, false);
  }

  lemma {:induction false} SwitchAccepted(lib: Library, node: Node, frame: Frame, serial: nat)
    requires node.Switch?
    ensures Agrees(lib, node, frame, serial)
    decreases Room(lib, frame.stack), node, 0
  {
    hide EmitCases, EmitPrefix, Redirect, RedirectAll, CasesOk, CasesRaw, CasesWrite;
    var value := Expression(node.subject, frame);
    if value.Success? {
      CasesAccepted(lib, node.cases, EnterCase(frame, value.value, serial), serial + 1);
    }
  }

  lemma {:induction false} ChainAccepted(lib: Library, chain: Chain, frame: Frame, serial: nat)
    ensures var r := EmitChain(lib, chain, frame, serial);
            && (r.Success? <==> ChainOk(lib, chain, frame.first.Some?, frame.stack))
            && (r.Success? ==> (r.value.raw <==> ChainRaw(lib, chain, frame.stack)) && (r.value.output <==> ChainWrites(lib, chain, frame.stack)))
    decreases Room(lib, frame.stack), chain, 0
  {
    match chain
    case NoElse =>
    case Else(body) =>
      NodesAccepted(lib, body, frame, serial, false, false);
      hide EmitNodes, NodesOk, AnyRaw, AnyWrites;
    case ElseIf(cond, body, rest) =>
      NodesAccepted(lib, body, frame, serial, false, false);
      var taken := EmitNodes(lib, body, frame, serial, false, false);
      if taken.Success? {
        ChainAccepted(lib, rest, frame, taken.value.serial);
      }
      hide EmitNodes, NodesOk, AnyRaw, AnyWrites;
  }

  lemma {:induction false} CasesAccepted(lib: Library, cases: seq<Case>, frame: Frame, serial: nat)
    ensures var r := EmitCases(lib, cases, frame, serial);
            && (r.Success? <==> CasesOk(lib, cases, frame.first.Some?, frame.stack))
            && (r.Success? ==> (r.value.raw <==> CasesRaw(lib, cases, frame.stack)))
            && (r.Success? ==> (r.value.output <==> CasesWrite(lib, cases, frame.stack)))
    decreases Room(lib, frame.stack), cases, 0
  {
    if cases != [] {
      NodesAccepted(lib, cases[0].body, frame, serial, false, false);
      var body := EmitNodes(lib, cases[0].body, frame, serial, false, false);
      hide EmitNodes, NodesOk, AnyRaw, AnyWrites;
      var rest := cases[1..];
      assert forall i :: 0 < i < |cases| ==> cases[i] == rest[i - 1];
      assert forall i :: 0 <= i < |rest| ==> rest[i] == cases[i + 1];
      if body.Success? {
        CasesAccepted(lib, rest, frame, body.value.serial);
      }
    }
  }

  /** The main theorem: a module is compiled if and only if each of its templates meets the
      conditions, on its own, outside any loop and with only itself being inlined. */
  lemma {:induction false} ModuleAccepted(lib: Library, names: seq<string>, serial: nat)
    requires forall name :: name in names ==> name in lib.templates
    ensures EmitFunctions(lib, names, serial).Success? <==>
            forall i :: 0 <= i < |names| ==> NodesOk(lib, lib.templates[names[i]].nodes, false, [names[i]])
  {
    if names != [] {
      var template := lib.templates[names[0]];
      NodesAccepted(lib, template.nodes, TopFrame(names[0]), serial, false, false);
      var body := EmitNodes(lib, template.nodes, TopFrame(names[0]), serial, false, false);
      hide EmitNodes, NodesOk, AnyRaw, AnyWrites;
      var rest := names[1..];
      assert forall i :: 0 < i < |names| ==> names[i] == rest[i - 1];
      assert forall i :: 0 <= i < |rest| ==> rest[i] == names[i + 1];
      if body.Success? {
        ModuleAccepted(lib, rest, body.value.serial);
      }
    }
  }
}
