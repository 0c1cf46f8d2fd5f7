/** The generated program: flat lines, the block structure a parser gives them, and
    the execution of that structure. */
module TargetProgram {
  import opened Outcomes
  import opened TemplateLanguage

  /** Generated identifiers: `view`, `itemN`, `indexN`, `partN` and `kindN`. */
  datatype Name = View | Item(id: nat) | Index(id: nat) | Part(id: nat) | Kind(id: nat)

  /** `root.a.b`, or the flag `(indexN === 0)`. */
  datatype Expr = Path(root: Name, segs: seq<string>) | IsFirst(id: nat)

  datatype OutArg = OutArg(name: string, selects: bool, value: Expr)
  datatype Output =
    | OutLiteral(text: string)
    | OutHelper(helper: string, value: Expr)
    | OutMessage(key: string, args: seq<OutArg>)

  // ---------- Flat lines ----------

  datatype Line =
    | OutLine(output: Output)
    | OpenPart(id: nat, view: string, value: Expr)
    | OpenIf(negated: bool, cond: Expr)
    | ElseIfLine(cond: Expr)
    | ElseLine
    | OpenEach(id: nat, list: Expr)
    | OpenSwitch(id: nat, subject: Expr)
    | CaseLabel(name: string)
    | OpenBlock
    | BreakLine
    | Close
    | EndSwitch(id: nat)
    | OpenFunction(name: string, view: string)
    | EndFunction

  // ---------- Structured statements ----------

  datatype Stmt =
    | Out(output: Output)
    | LetPart(id: nat, view: string, value: Expr, body: seq<Stmt>)
    | IfStmt(negated: bool, cond: Expr, body: seq<Stmt>, rest: ElseStmt)
    | ForEach(id: nat, list: Expr, body: seq<Stmt>)
    | SwitchStmt(id: nat, subject: Expr, arms: seq<Arm>)

  datatype ElseStmt =
    | EndIf
    | Otherwise(body: seq<Stmt>)
    | OtherwiseIf(cond: Expr, body: seq<Stmt>, rest: ElseStmt)

  datatype Arm = Arm(names: seq<string>, body: seq<Stmt>)

  function CaseLines(names: seq<string>): seq<Line> {
    if names == [] then [] else [CaseLabel(names[0])] + CaseLines(names[1..])
  }

  function Flatten(stmts: seq<Stmt>): seq<Line>
    decreases stmts
  {
    if stmts == [] then [] else FlattenStmt(stmts[0]) + Flatten(stmts[1..])
  }

  function FlattenStmt(stmt: Stmt): seq<Line>
    decreases stmt
  {
    match stmt
    case Out(output) => [OutLine(output)]
    case LetPart(id, view, value, body) => [OpenPart(id, view, value)] + Flatten(body) + [Close]
    case IfStmt(negated, cond, body, rest) => [OpenIf(negated, cond)] + Flatten(body) + FlattenElse(rest)
    case ForEach(id, list, body) => [OpenEach(id, list)] + Flatten(body) + [Close]
    case SwitchStmt(id, subject, arms) => [OpenSwitch(id, subject)] + FlattenArms(arms) + [EndSwitch(id)]
  }

  function FlattenElse(rest: ElseStmt): seq<Line>
    decreases rest
  {
    match rest
    case EndIf => [Close]
    case Otherwise(body) => [ElseLine] + Flatten(body) + [Close]
    case OtherwiseIf(cond, body, rest') => [ElseIfLine(cond)] + Flatten(body) + FlattenElse(rest')
  }

  function FlattenArms(arms: seq<Arm>): seq<Line>
    decreases arms
  {
    if arms == [] then []
    else CaseLines(arms[0].names) + [OpenBlock] + Flatten(arms[0].body) + [BreakLine, Close] + FlattenArms(arms[1..])
  }

  // ---------- Reading lines back as blocks ----------

  /** Lines that end a statement list. */
  predicate Ends(line: Line) {
    line.ElseIfLine? || line.ElseLine? || line.CaseLabel? || line.OpenBlock? || line.BreakLine? ||
    line.Close? || line.EndSwitch? || line.OpenFunction? || line.EndFunction?
  }

  datatype Read<T> = Read(value: T, rest: seq<Line>)

  function ReadStmts(lines: seq<Line>): (r: Option<Read<seq<Stmt>>>)
    ensures r.Some? ==> |r.value.rest| <= |lines|
    decreases |lines|, 2
  {
    if lines == [] || Ends(lines[0]) then Some(Read([], lines))
    else
      match ReadStmt(lines)
      case None => None
      case Some(Read(stmt, rest)) =>
        match ReadStmts(rest)
        case None => None
        case Some(Read(stmts, rest')) => Some(Read([stmt] + stmts, rest'))
  }

  function ReadStmt(lines: seq<Line>): (r: Option<Read<Stmt>>)
    requires lines != [] && !Ends(lines[0])
    ensures r.Some? ==> |r.value.rest| < |lines|
    decreases |lines|, 1
  {
    match lines[0]
    case OutLine(output) => Some(Read(Out(output), lines[1..]))
    case OpenPart(id, view, value) =>
      (match ReadStmts(lines[1..])
       case Some(Read(body, rest)) =>
         if rest != [] && rest[0].Close? then Some(Read(LetPart(id, view, value, body), rest[1..])) else None
       case None => None)
    case OpenIf(negated, cond) =>
      (match ReadStmts(lines[1..])
       case Some(Read(body, rest)) =>
         (match ReadElse(rest)
          case Some(Read(els, rest')) => Some(Read(IfStmt(negated, cond, body, els), rest'))
          case None => None)
       case None => None)
    case OpenEach(id, list) =>
      (match ReadStmts(lines[1..])
       case Some(Read(body, rest)) =>
         if rest != [] && rest[0].Close? then Some(Read(ForEach(id, list, body), rest[1..])) else None
       case None => None)
    case OpenSwitch(id, subject) =>
      (match ReadArms(lines[1..])
       case Some(Read(arms, rest)) =>
         if rest != [] && rest[0] == EndSwitch(id) then Some(Read(SwitchStmt(id, subject, arms), rest[1..])) else None
       case None => None)
  }

  function ReadElse(lines: seq<Line>): (r: Option<Read<ElseStmt>>)
    ensures r.Some? ==> |r.value.rest| < |lines|
    decreases |lines|, 1
  {
    if lines == [] then None
    else
      match lines[0]
      case Close => Some(Read(EndIf, lines[1..]))
      case ElseLine =>
        (match ReadStmts(lines[1..])
         case Some(Read(body, rest)) =>
           if rest != [] && rest[0].Close? then Some(Read(Otherwise(body), rest[1..])) else None
         case None => None)
      case ElseIfLine(cond) =>
        (match ReadStmts(lines[1..])
         case Some(Read(body, rest)) =>
           (match ReadElse(rest)
            case Some(Read(els, rest')) => Some(Read(OtherwiseIf(cond, body, els), rest'))
            case None => None)
         case None => None)
      case _ => None
  }

  function ReadLabels(lines: seq<Line>): (r: Read<seq<string>>)
    ensures |r.rest| <= |lines|
  {
    if lines == [] || !lines[0].CaseLabel? then Read([], lines)
    else
      var Read(names, rest) := ReadLabels(lines[1..]);
      Read([lines[0].name] + names, rest)
  }

  function ReadArms(lines: seq<Line>): (r: Option<Read<seq<Arm>>>)
    ensures r.Some? ==> |r.value.rest| <= |lines|
    decreases |lines|, 1
  {
    if lines == [] || lines[0].EndSwitch? then Some(Read([], lines))
    else
      var Read(names, rest0) := ReadLabels(lines);
      if rest0 == [] || !rest0[0].OpenBlock? then None
      else
        match ReadStmts(rest0[1..])
        case None => None
        case Some(Read(body, rest1)) =>
          if |rest1| < 2 || !rest1[0].BreakLine? || !rest1[1].Close? then None
          else
            match ReadArms(rest1[2..])
            case None => None
            case Some(Read(arms, rest2)) => Some(Read([Arm(names, body)] + arms, rest2))
  }

  lemma {:induction false} ReadFlattenLabels(names: seq<string>, tail: seq<Line>)
    requires tail != [] && !tail[0].CaseLabel?
    ensures ReadLabels(CaseLines(names) + tail) == Read(names, tail)
  {
    if names == [] {
      assert CaseLines(names) + tail == tail;
    } else {
      ReadFlattenLabels(names[1..], tail);
      var lines := CaseLines(names) + tail;
      assert lines[0] == CaseLabel(names[0]);
      assert lines[1..] == CaseLines(names[1..]) + tail;
      assert [names[0]] + names[1..] == names;
    }
  }

  /** Flat code has exactly one block structure: the one it was flattened from. */
  lemma {:induction false} ReadFlatten(stmts: seq<Stmt>, tail: seq<Line>)
    requires tail == [] || Ends(tail[0])
    ensures ReadStmts(Flatten(stmts) + tail) == Some(Read(stmts, tail))
    decreases stmts, 1
  {
    hide ReadStmt, FlattenStmt;
    if stmts == [] {
      assert Flatten(stmts) + tail == tail;
    } else {
      var rest := Flatten(stmts[1..]) + tail;
      ReadFlattenStmt(stmts[0], rest);
      ReadFlatten(stmts[1..], tail);
      assert Flatten(stmts) + tail == FlattenStmt(stmts[0]) + rest;
      assert [stmts[0]] + stmts[1..] == stmts;
    }
  }

  lemma {:induction false} ReadFlattenStmt(stmt: Stmt, tail: seq<Line>)
    ensures FlattenStmt(stmt) != [] && !Ends((FlattenStmt(stmt) + tail)[0])
    ensures ReadStmt(FlattenStmt(stmt) + tail) == Some(Read(stmt, tail))
    decreases stmt, 0
  {
    hide Flatten, ReadStmts, FlattenElse, ReadElse, FlattenArms, ReadArms;
    match stmt
    case Out(output) =>
      assert ([OutLine(output)] + tail)[1..] == tail;
    case LetPart(id, view, value, body) =>
      ReadFlattenBody(OpenPart(id, view, value), body, tail);
    case IfStmt(negated, cond, body, rest) =>
      ReadFlattenElse(rest, tail);
      Regroup(OpenIf(negated, cond), Flatten(body), FlattenElse(rest), tail);
      ReadFlatten(body, FlattenElse(rest) + tail);
    case ForEach(id, list, body) =>
      ReadFlattenBody(OpenEach(id, list), body, tail);
    case SwitchStmt(id, subject, arms) =>
      Regroup(OpenSwitch(id, subject), FlattenArms(arms), [EndSwitch(id)], tail);
      ReadFlattenArms(arms, [EndSwitch(id)] + tail);
      assert ([EndSwitch(id)] + tail)[1..] == tail;
  }

  lemma Regroup(open: Line, body: seq<Line>, end: seq<Line>, tail: seq<Line>)
    ensures var lines := [open] + body + end + tail; lines[0] == open && lines[1..] == body + (end + tail)
  {
  }

  /** A block `{ ... }` that holds just a statement list. */
  lemma {:induction false} ReadFlattenBody(open: Line, body: seq<Stmt>, tail: seq<Line>)
    ensures var lines := [open] + Flatten(body) + [Close] + tail;
            lines[0] == open && ReadStmts(lines[1..]) == Some(Read(body, [Close] + tail)) &&
            ([Close] + tail)[1..] == tail
    decreases body, 2
  {
    ReadFlatten(body, [Close] + tail);
    Regroup(open, Flatten(body), [Close], tail);
  }

  lemma {:induction false} ReadFlattenElse(rest: ElseStmt, tail: seq<Line>)
    ensures FlattenElse(rest) != [] && Ends((FlattenElse(rest) + tail)[0])
    ensures ReadElse(FlattenElse(rest) + tail) == Some(Read(rest, tail))
    decreases rest, 0
  {
    match rest
    case EndIf =>
      assert ([Close] + tail)[1..] == tail;
    case Otherwise(body) =>
      ReadFlattenBody(ElseLine, body, tail);
    case OtherwiseIf(cond, body, rest') =>
      ReadFlattenElse(rest', tail);
      Regroup(ElseIfLine(cond), Flatten(body), FlattenElse(rest'), tail);
      ReadFlatten(body, FlattenElse(rest') + tail);
  }

  lemma {:induction false} ReadFlattenArms(arms: seq<Arm>, tail: seq<Line>)
    requires tail != [] && tail[0].EndSwitch?
    ensures ReadArms(FlattenArms(arms) + tail) == Some(Read(arms, tail))
    decreases arms, 1
  {
    if arms == [] {
      assert FlattenArms(arms) + tail == tail;
    } else {
      var arm, after := arms[0], FlattenArms(arms[1..]) + tail;
      var inner := [BreakLine, Close] + after;
      var lines := CaseLines(arm.names) + [OpenBlock] + (Flatten(arm.body) + inner);
      assert FlattenArms(arms) + tail == lines by {
        RegroupArm(CaseLines(arm.names), Flatten(arm.body), FlattenArms(arms[1..]), tail);
      }
      assert ReadArms(lines) == Some(Read([arm] + arms[1..], tail)) by {
        ReadArm(arm.names, Flatten(arm.body), inner);
        ReadFlatten(arm.body, inner);
        ReadFlattenArms(arms[1..], tail);
        JoinArm(arm, arms[1..], lines, inner, after, tail);
      }
      assert [arms[0]] + arms[1..] == arms;
    }
  }

  lemma RegroupArm(labels: seq<Line>, body: seq<Line>, arms: seq<Line>, tail: seq<Line>)
    ensures labels + [OpenBlock] + body + [BreakLine, Close] + arms + tail
         == labels + [OpenBlock] + (body + ([BreakLine, Close] + (arms + tail)))
  {
  }

  /** One step of the arm reader, given what its parts read. */
  lemma JoinArm(arm: Arm, arms: seq<Arm>, lines: seq<Line>, inner: seq<Line>, after: seq<Line>, tail: seq<Line>)
    requires lines != [] && !lines[0].EndSwitch?
    requires inner == [BreakLine, Close] + after
    requires ReadLabels(lines) == Read(arm.names, [OpenBlock] + (Flatten(arm.body) + inner))
    requires ReadStmts(Flatten(arm.body) + inner) == Some(Read(arm.body, inner))
    requires ReadArms(after) == Some(Read(arms, tail))
    ensures ReadArms(lines) == Some(Read([arm] + arms, tail))
  {
    var block := [OpenBlock] + (Flatten(arm.body) + inner);
    assert block[1..] == Flatten(arm.body) + inner;
    assert inner[2..] == after;
  }

  lemma ReadArm(names: seq<string>, body: seq<Line>, inner: seq<Line>)
    ensures var lines := CaseLines(names) + [OpenBlock] + (body + inner);
            !lines[0].EndSwitch? && ReadLabels(lines) == Read(names, [OpenBlock] + (body + inner)) &&
            ([OpenBlock] + (body + inner))[1..] == body + inner
  {
    var block := [OpenBlock] + (body + inner);
    assert CaseLines(names) + [OpenBlock] + (body + inner) == CaseLines(names) + block;
    ReadFlattenLabels(names, block);
  }

  // ---------- The module ----------

  /** One exported render function. */
  datatype Function = Function(name: string, view: string, body: seq<Stmt>)

  function FlattenFunctions(functions: seq<Function>): seq<Line> {
    if functions == [] then [] else FlattenFunction(functions[0]) + FlattenFunctions(functions[1..])
  }

  function FlattenFunction(f: Function): seq<Line> {
    [OpenFunction(f.name, f.view)] + Flatten(f.body) + [EndFunction]
  }

  function ReadFunctions(lines: seq<Line>): Option<seq<Function>>
    decreases |lines|
  {
    if lines == [] then Some([])
    else if !lines[0].OpenFunction? then None
    else
      match ReadStmts(lines[1..])
      case None => None
      case Some(Read(body, rest)) =>
        if rest == [] || !rest[0].EndFunction? then None
        else
          match ReadFunctions(rest[1..])
          case None => None
          case Some(functions) => Some([Function(lines[0].name, lines[0].view, body)] + functions)
  }

  lemma {:induction false} ReadFlattenFunctions(functions: seq<Function>)
    ensures ReadFunctions(FlattenFunctions(functions)) == Some(functions)
  {
    if functions != [] {
      ReadFlattenFunctions(functions[1..]);
      ReadFlattenFunction(functions[0], functions[1..], FlattenFunctions(functions[1..]));
      assert [functions[0]] + functions[1..] == functions;
    }
  }

  lemma {:induction false} ReadFlattenFunction(f: Function, rest: seq<Function>, tail: seq<Line>)
    requires ReadFunctions(tail) == Some(rest)
    ensures ReadFunctions(FlattenFunction(f) + tail) == Some([f] + rest)
  {
    ReadFlatten(f.body, [EndFunction] + tail);
    Regroup(OpenFunction(f.name, f.view), Flatten(f.body), [EndFunction], tail);
    assert ([EndFunction] + tail)[1..] == tail;
  }

  lemma Associate(a: seq<Line>, b: seq<Line>, c: seq<Line>)
    ensures (a + b) + c == a + (b + c)
  {
  }

  lemma {:induction false} FlattenFunctionsConcat(a: seq<Function>, b: seq<Function>)
    ensures FlattenFunctions(a + b) == FlattenFunctions(a) + FlattenFunctions(b)
  {
    if a == [] {
      assert a + b == b;
    } else {
      FlattenFunctionsConcat(a[1..], b);
      assert (a + b)[0] == a[0] && (a + b)[1..] == a[1..] + b;
      Associate(FlattenFunction(a[0]), FlattenFunctions(a[1..]), FlattenFunctions(b));
    }
  }

  lemma {:induction false} FlattenConcat(a: seq<Stmt>, b: seq<Stmt>)
    ensures Flatten(a + b) == Flatten(a) + Flatten(b)
  {
    hide FlattenStmt;
    if a == [] {
      assert a + b == b;
    } else {
      FlattenConcat(a[1..], b);
      assert (a + b)[0] == a[0] && (a + b)[1..] == a[1..] + b;
      Associate(FlattenStmt(a[0]), Flatten(a[1..]), Flatten(b));
    }
  }

  // ---------- Execution ----------

  type Env = map<Name, Val>

  function Eval(env: Env, e: Expr): Option<Val> {
    match e
    case Path(root, segs) => if root in env then Walk(env[root], segs) else None
    case IsFirst(id) => if Index(id) in env then Some(Bool(env[Index(id)] == Num(0.0))) else None
  }

  function EvalArgs(env: Env, args: seq<OutArg>): Option<seq<Argument>> {
    if args == [] then Some([])
    else
      match (Eval(env, args[0].value), EvalArgs(env, args[1..]))
      case (Some(v), Some(rest)) => Some([Argument(args[0].name, args[0].selects, v)] + rest)
      case _ => None
  }

  function ExecOutput(rt: Runtime, output: Output, env: Env): (r: Run)
    ensures r.status != TooDeep
  {
    match output
    case OutLiteral(text) => WroteLiteral(text)
    case OutHelper(helper, value) =>
      (match Eval(env, value)
       case None => EXCEPTION
       case Some(v) => WroteOption(rt.format(helper, v), helper == "rawLast"))
    case OutMessage(key, args) =>
      match EvalArgs(env, args)
      case None => EXCEPTION
      case Some(values) => WroteOption(rt.message(key, values), false)
  }

  /** The object `{ kind, value }` that the helper `kind` returns. */
  function KindObject(v: Val): Option<Val> {
    match KindLabel(v)
    case None => None
    case Some(tag) => Some(Obj(map["kind" := tag, "value" := v]))
  }

  function Exec(rt: Runtime, stmts: seq<Stmt>, env: Env): (r: Run)
    ensures r.status != TooDeep
    decreases stmts, 0
  {
    if stmts == [] then NOTHING
    else ExecStmt(rt, stmts[0], env).Then(Exec(rt, stmts[1..], env))
  }

  function ExecStmt(rt: Runtime, stmt: Stmt, env: Env): (r: Run)
    ensures r.status != TooDeep
    decreases stmt, 0
  {
    match stmt
    case Out(output) => ExecOutput(rt, output, env)
    case LetPart(id, view, value, body) =>
      (match Eval(env, value)
       case None => EXCEPTION
       case Some(v) => Exec(rt, body, env[Part(id) := v]))
    case IfStmt(negated, cond, body, rest) =>
      (match Eval(env, cond)
       case None => EXCEPTION
       case Some(v) => if Holds(v) != negated then Exec(rt, body, env) else ExecElse(rt, rest, env))
    case ForEach(id, list, body) =>
      (match Eval(env, list)
       case Some(List(items)) => ExecItems(rt, id, body, items, 0, env)
       case _ => EXCEPTION)
    case SwitchStmt(id, subject, arms) => ExecKind(rt, id, subject, arms, env)
  }

  function ExecKind(rt: Runtime, id: nat, subject: Expr, arms: seq<Arm>, env: Env): (r: Run)
    ensures r.status != TooDeep
    decreases arms, 1
  {
    match Eval(env, subject)
    case None => EXCEPTION
    case Some(v) =>
      match KindObject(v)
      case None => EXCEPTION
      case Some(pair) => ExecArms(rt, arms, pair.fields["kind"], env[Kind(id) := pair])
  }

  function ExecElse(rt: Runtime, rest: ElseStmt, env: Env): (r: Run)
    ensures r.status != TooDeep
    decreases rest, 0
  {
    match rest
    case EndIf => NOTHING
    case Otherwise(body) => Exec(rt, body, env)
    case OtherwiseIf(cond, body, rest') =>
      match Eval(env, cond)
      case None => EXCEPTION
      case Some(v) => if Holds(v) then Exec(rt, body, env) else ExecElse(rt, rest', env)
  }

  function ExecItems(rt: Runtime, id: nat, body: seq<Stmt>, items: seq<Val>, k: nat, env: Env): (r: Run)
    requires k <= |items|
    ensures r.status != TooDeep
    decreases body, 1 + |items| - k
  {
    if k == |items| then NOTHING
    else Exec(rt, body, env[Index(id) := Num(k as real)][Item(id) := items[k]]).Then(
           ExecItems(rt, id, body, items, k + 1, env))
  }

  /** The first case whose label strictly equals the value; the default arm throws. */
  function ExecArms(rt: Runtime, arms: seq<Arm>, tag: Val, env: Env): (r: Run)
    ensures r.status != TooDeep
    decreases arms, 0
  {
    if arms == [] then EXCEPTION
    else if tag.Str? && tag.s in arms[0].names then Exec(rt, arms[0].body, env)
    else ExecArms(rt, arms[1..], tag, env)
  }

  /** Calling a render function of the generated module: read the block structure of the
      lines, find the first function of that name, and execute its body on the view. */
  function Call(rt: Runtime, lines: seq<Line>, name: string, view: Val): Option<Run> {
    match ReadFunctions(lines)
    case None => None
    case Some(functions) =>
      match FindFunction(functions, name)
      case None => None
      case Some(f) => Some(Exec(rt, f.body, map[View := view]))
  }

  function FindFunction(functions: seq<Function>, name: string): Option<Function> {
    if functions == [] then None
    else if functions[0].name == name then Some(functions[0])
    else FindFunction(functions[1..], name)
  }

  lemma {:induction false} ExecConcat(rt: Runtime, a: seq<Stmt>, b: seq<Stmt>, env: Env)
    ensures Exec(rt, a + b, env) == Exec(rt, a, env).Then(Exec(rt, b, env))
  {
    hide ExecStmt;
    if a == [] {
      assert a + b == b;
      assert [] + Exec(rt, b, env).trace == Exec(rt, b, env).trace;
    } else {
      ExecConcat(rt, a[1..], b, env);
      assert (a + b)[0] == a[0] && (a + b)[1..] == a[1..] + b;
      ThenAssociates(ExecStmt(rt, a[0], env), Exec(rt, a[1..], env), Exec(rt, b, env));
    }
  }

  lemma {:induction false} WalkConcat(v: Val, a: seq<string>, b: seq<string>)
    ensures Walk(v, a + b) == (match Walk(v, a) case None => None case Some(w) => Walk(w, b))
    decreases a
  {
    if a == [] {
      assert a + b == b;
    } else {
      assert (a + b)[1..] == a[1..] + b;
      match GetField(v, a[0]) {
        case None =>
        case Some(w) => WalkConcat(w, a[1..], b);
      }
    }
  }
}
