/** The imports of a generated module: exactly the helpers that its lines call, and exactly
    the view types that they name. */
module TemplateImports {
  import opened Outcomes
  import opened TemplateLanguage
  import opened TargetProgram
  import opened TemplateEmission
  import opened TemplateCompiler

  /** What one line of the module calls. */
  function CalledBy(line: Line): set<string> {
    match line
    case OutLine(OutHelper(helper, _)) => {helper}
    case OutLine(OutMessage(_, args)) => set arg | arg in args :: if arg.selects then "selectParameter" else "parameter"
    case OpenIf(_, _) => {"truthy"}
    case ElseIfLine(_) => {"truthy"}
    case OpenEach(_, _) => {"each"}
    case OpenSwitch(_, _) => {"kind"}
    case EndSwitch(_) => {"assertNever"}
    case _ => {}
  }

  function Called(lines: seq<Line>): set<string> {
    set line, helper | line in lines && helper in CalledBy(line) :: helper
  }

  lemma CalledConcat(a: seq<Line>, b: seq<Line>)
    ensures Called(a + b) == Called(a) + Called(b)
  {
    hide CalledBy;
  }

  lemma CalledOne(line: Line)
    ensures Called([line]) == CalledBy(line)
  {
    hide CalledBy;
    assert forall l :: l in [line] <==> l == line;
  }

  /** An opening line, what is inside, and the rest. */
  lemma CalledBlock(open: Line, inside: seq<Line>, rest: seq<Line>)
    ensures Called([open] + inside + rest) == CalledBy(open) + Called(inside) + Called(rest)
  {
    CalledOne(open);
    CalledConcat([open], inside);
    CalledConcat([open] + inside, rest);
  }

  lemma {:induction false} StmtsCall(stmts: seq<Stmt>)
    ensures Called(Flatten(stmts)) == Helpers(stmts)
    decreases stmts, 1
  {
    if stmts != [] {
      StmtCalls(stmts[0]);
      StmtsCall(stmts[1..]);
      CalledConcat(FlattenStmt(stmts[0]), Flatten(stmts[1..]));
    }
  }

  lemma {:induction false} StmtCalls(stmt: Stmt)
    ensures Called(FlattenStmt(stmt)) == StmtHelpers(stmt)
    decreases stmt, 0
  {
    hide Called;
    match stmt
    case Out(output) => CalledOne(OutLine(output));
    case LetPart(id, view, value, body) =>
      StmtsCall(body);
      CalledBlock(OpenPart(id, view, value), Flatten(body), [Close]);
      CalledOne(Close);
    case IfStmt(negated, cond, body, rest) =>
      StmtsCall(body);
      ElseCalls(rest);
      CalledBlock(OpenIf(negated, cond), Flatten(body), FlattenElse(rest));
    case ForEach(id, list, body) =>
      StmtsCall(body);
      CalledBlock(OpenEach(id, list), Flatten(body), [Close]);
      CalledOne(Close);
    case SwitchStmt(id, subject, arms) =>
      ArmsCall(arms);
      CalledBlock(OpenSwitch(id, subject), FlattenArms(arms), [EndSwitch(id)]);
      CalledOne(EndSwitch(id));
  }

  /** Further conditions of a chain call what its first condition called already. */
  lemma {:induction false} ElseCalls(rest: ElseStmt)
    ensures Called(FlattenElse(rest)) + {"truthy"} == ElseHelpers(rest) + {"truthy"}
    decreases rest, 0
  {
    hide Called;
    match rest
    case EndIf => CalledOne(Close);
    case Otherwise(body) =>
      StmtsCall(body);
      CalledBlock(ElseLine, Flatten(body), [Close]);
      CalledOne(Close);
    case OtherwiseIf(cond, body, rest') =>
      StmtsCall(body);
      ElseCalls(rest');
      CalledBlock(ElseIfLine(cond), Flatten(body), FlattenElse(rest'));
  }

  lemma {:induction false} LabelsCallNothing(names: seq<string>)
    ensures Called(CaseLines(names)) == {}
  {
    if names != [] {
      LabelsCallNothing(names[1..]);
      CalledConcat([CaseLabel(names[0])], CaseLines(names[1..]));
      CalledOne(CaseLabel(names[0]));
    }
  }

  lemma CalledArm(labels: seq<Line>, body: seq<Line>, rest: seq<Line>)
    ensures Called(labels + [OpenBlock] + body + [BreakLine, Close] + rest) == Called(labels) + Called(body) + Called(rest)
  {
    hide Called;
    CalledConcat(labels, [OpenBlock]);
    CalledOne(OpenBlock);
    CalledConcat(labels + [OpenBlock], body);
    CalledConcat([BreakLine], [Close]);
    assert [BreakLine] + [Close] == [BreakLine, Close];
    CalledOne(BreakLine);
    CalledOne(Close);
    CalledConcat(labels + [OpenBlock] + body, [BreakLine, Close]);
    CalledConcat(labels + [OpenBlock] + body + [BreakLine, Close], rest);
  }

  lemma {:induction false} ArmsCall(arms: seq<Arm>)
    ensures Called(FlattenArms(arms)) == ArmHelpers(arms)
    decreases arms, 0
  {
    if arms != [] {
      hide Called;
      LabelsCallNothing(arms[0].names);
      StmtsCall(arms[0].body);
      ArmsCall(arms[1..]);
      CalledArm(CaseLines(arms[0].names), Flatten(arms[0].body), FlattenArms(arms[1..]));
    } else {
      assert Called([]) == {};
    }
  }

  lemma FunctionCalls(f: Function)
    ensures Called(FlattenFunction(f)) == Helpers(f.body)
  {
    StmtsCall(f.body);
    CalledBlock(OpenFunction(f.name, f.view), Flatten(f.body), [EndFunction]);
    CalledOne(EndFunction);
  }

  lemma FlattenLast(functions: seq<Function>)
    requires functions != []
    ensures var rest, last := functions[..|functions| - 1], functions[|functions| - 1];
            FlattenFunctions(functions) == FlattenFunctions(rest) + FlattenFunction(last)
  {
    var rest, last := functions[..|functions| - 1], functions[|functions| - 1];
    assert functions == rest + [last];
    FlattenFunctionsConcat(rest, [last]);
    assert [last][1..] == [];
  }

  /** The helpers collected while a module was compiled are those that its lines call. */
  lemma {:induction false} HelpersAreCalled(functions: seq<Function>)
    ensures FunctionHelpers(functions) == Called(FlattenFunctions(functions))
  {
    if functions != [] {
      var rest, last := functions[..|functions| - 1], functions[|functions| - 1];
      HelpersAreCalled(rest);
      FlattenLast(functions);
      FunctionCalls(last);
      CalledConcat(FlattenFunctions(rest), FlattenFunction(last));
    }
  }

  /** The view types collected are those that a line names. */
  lemma {:induction false} ViewsAreNamed(lines: seq<Line>, view: string)
    ensures view in Views(lines) <==>
            exists i :: 0 <= i < |lines| && ((lines[i].OpenPart? && lines[i].view == view) || (lines[i].OpenFunction? && lines[i].view == view))
  {
    if lines != [] {
      ViewsAreNamed(lines[1..], view);
      assert forall i :: 0 < i < |lines| ==> lines[i] == lines[1..][i - 1];
      assert forall i :: 0 <= i < |lines| - 1 ==> lines[1..][i] == lines[i + 1];
    }
  }
}
