/** Parsing a tokenized template by recursive descent, and the printer it inverts. A token is
    text or a tag whose words have been read; which problem a rejected template is reported
    with is not modelled. */
module TemplateParser {
  import opened Outcomes
  import opened TemplateLanguage

  /** `Leaf` is a value, message or partial tag; `Unexpected` any tag that opens, continues
      or closes nothing in a valid way. */
  datatype Token =
    | Text(text: string)
    | Leaf(node: Node)
    | OpenIf(unless: bool, cond: Ref)
    | ElseTag
    | ElseIfTag(cond: Ref)
    | CloseIf(unless: bool)
    | OpenEach(list: Ref)
    | CloseEach
    | OpenKind(subject: Ref)
    | CaseTag(names: seq<string>)
    | CloseKind
    | Unexpected

  /** Which characters are letters, and which are trimmed as white space. */
  datatype Alphabet = Alphabet(letters: set<char>, spaces: set<char>)

  /** Where a run of nodes ends: the end of the template, or a tag of the enclosing block. */
  datatype Stops = AtEnd | InIf(unless: bool) | InEach | InKind

  predicate IsStop(stops: Stops, token: Token) {
    match stops
    case AtEnd => false
    case InIf(unless) => token.ElseTag? || token.ElseIfTag? || token == CloseIf(unless)
    case InEach => token.CloseEach?
    case InKind => token.CaseTag? || token.CloseKind?
  }

  // ---------- What a template may contain ----------

  predicate IsLeaf(node: Node) {
    node.Insert? || node.Message? || node.Partial?
  }

  /** Literal text has no words, which belong in the catalog, and no stray delimiter. */
  predicate LiteralOk(alphabet: Alphabet, text: string) {
    && (forall c :: c in text ==> c !in alphabet.letters)
    && forall i :: 0 <= i < |text| - 1 ==> !(text[i] == '}' && text[i + 1] == '}')
  }

  predicate Blank(alphabet: Alphabet, text: string) {
    LiteralOk(alphabet, text) && forall c :: c in text ==> c in alphabet.spaces
  }

  predicate NameStart(c: char) {
    'A' <= c <= 'Z' || 'a' <= c <= 'z' || c == '_'
  }

  predicate NameOk(name: string) {
    name != "" && NameStart(name[0]) && forall c :: c in name ==> NameStart(c) || '0' <= c <= '9' || c == '-'
  }

  /** The names of a case: at least one, all valid, none twice and none of an earlier case. */
  predicate NamesOk(names: seq<string>, previous: seq<string>) {
    && names != []
    && (forall i :: 0 <= i < |names| ==> NameOk(names[i]) && names[i] !in previous)
    && forall i, j :: 0 <= i < j < |names| ==> names[i] != names[j]
  }

  predicate NodesOk(alphabet: Alphabet, nodes: seq<Node>)
    decreases nodes
  {
    nodes == [] || (NodeOk(alphabet, nodes[0]) && NodesOk(alphabet, nodes[1..]))
  }

  predicate NodeOk(alphabet: Alphabet, node: Node)
    decreases node
  {
    match node
    case Literal(text) => LiteralOk(alphabet, text)
    case If(_, _, body, rest) => NodesOk(alphabet, body) && ChainOk(alphabet, rest)
    case Each(_, body) => NodesOk(alphabet, body)
    case Switch(_, prefix, cases) =>
      (forall i :: 0 <= i < |prefix| ==> Blank(alphabet, prefix[i])) && cases != [] && CasesOk(alphabet, cases, [])
    case _ => true
  }

  predicate ChainOk(alphabet: Alphabet, chain: Chain)
    decreases chain
  {
    match chain
    case NoElse => true
    case Else(body) => NodesOk(alphabet, body)
    case ElseIf(_, body, rest) => NodesOk(alphabet, body) && ChainOk(alphabet, rest)
  }

  predicate CasesOk(alphabet: Alphabet, cases: seq<Case>, previous: seq<string>)
    decreases cases
  {
    cases == [] ||
    (NamesOk(cases[0].names, previous) && NodesOk(alphabet, cases[0].body) &&
     CasesOk(alphabet, cases[1..], previous + cases[0].names))
  }

  // ---------- Printing ----------

  function Print(nodes: seq<Node>): seq<Token>
    decreases nodes
  {
    if nodes == [] then [] else PrintNode(nodes[0]) + Print(nodes[1..])
  }

  function PrintNode(node: Node): seq<Token>
    decreases node
  {
    match node
    case Literal(text) => [Text(text)]
    case If(unless, cond, body, rest) => [OpenIf(unless, cond)] + Print(body) + PrintChain(rest) + [CloseIf(unless)]
    case Each(list, body) => [OpenEach(list)] + Print(body) + [CloseEach]
    case Switch(subject, prefix, cases) => [OpenKind(subject)] + Texts(prefix) + PrintCases(cases) + [CloseKind]
    case _ => [Leaf(node)]
  }

  function PrintChain(chain: Chain): seq<Token>
    decreases chain
  {
    match chain
    case NoElse => []
    case Else(body) => [ElseTag] + Print(body)
    case ElseIf(cond, body, rest) => [ElseIfTag(cond)] + Print(body) + PrintChain(rest)
  }

  function PrintCases(cases: seq<Case>): seq<Token>
    decreases cases
  {
    if cases == [] then [] else [CaseTag(cases[0].names)] + Print(cases[0].body) + PrintCases(cases[1..])
  }

  function Texts(prefix: seq<string>): seq<Token> {
    if prefix == [] then [] else [Text(prefix[0])] + Texts(prefix[1..])
  }

  // ---------- Recursive descent ----------

  datatype Parsed<+T> = Parsed(value: T, rest: seq<Token>)

  function Sequence(alphabet: Alphabet, ts: seq<Token>, stops: Stops): (r: Option<Parsed<seq<Node>>>)
    ensures r.Some? ==> |r.value.rest| <= |ts| && (r.value.rest == [] || IsStop(stops, r.value.rest[0]))
    decreases |ts|, 1
  {
    if ts == [] || IsStop(stops, ts[0]) then Some(Parsed([], ts))
    else
      match NodeAt(alphabet, ts)
      case None => None
      case Some(first) =>
        match Sequence(alphabet, first.rest, stops)
        case None => None
        case Some(more) => Some(Parsed([first.value] + more.value, more.rest))
  }

  function NodeAt(alphabet: Alphabet, ts: seq<Token>): (r: Option<Parsed<Node>>)
    requires ts != []
    ensures r.Some? ==> |r.value.rest| < |ts|
    decreases |ts|, 0
  {
    match ts[0]
    case Text(text) => if LiteralOk(alphabet, text) then Some(Parsed(Literal(text), ts[1..])) else None
    case Leaf(node) => if IsLeaf(node) then Some(Parsed(node, ts[1..])) else None
    case OpenIf(unless, cond) =>
      (match Sequence(alphabet, ts[1..], InIf(unless))
       case None => None
       case Some(body) =>
         match ChainAt(alphabet, body.rest, unless)
         case None => None
         case Some(chain) => Some(Parsed(If(unless, cond, body.value, chain.value), chain.rest[1..])))
    case OpenEach(list) =>
      (match Sequence(alphabet, ts[1..], InEach)
       case None => None
       case Some(body) => if body.rest == [] then None else Some(Parsed(Each(list, body.value), body.rest[1..])))
    case OpenKind(subject) =>
      (match Sequence(alphabet, ts[1..], InKind)
       case None => None
       case Some(before) =>
         if !AllBlank(alphabet, before.value) then None
         else
           match CasesAt(alphabet, before.rest, [])
           case None => None
           case Some(cases) =>
             if cases.value == [] then None
             else Some(Parsed(Switch(subject, LiteralTexts(before.value), cases.value), cases.rest[1..])))
    case _ => None
  }

  /** Else branches up to the closing tag, which stays in the rest. */
  function ChainAt(alphabet: Alphabet, ts: seq<Token>, unless: bool): (r: Option<Parsed<Chain>>)
    ensures r.Some? ==> 0 < |r.value.rest| <= |ts| && r.value.rest[0] == CloseIf(unless)
    decreases |ts|, 0
  {
    if ts == [] then None
    else
      match ts[0]
      case ElseTag =>
        (match Sequence(alphabet, ts[1..], InIf(unless))
         case None => None
         case Some(body) =>
           if body.rest == [] || body.rest[0] != CloseIf(unless) then None else Some(Parsed(Else(body.value), body.rest)))
      case ElseIfTag(cond) =>
        (match Sequence(alphabet, ts[1..], InIf(unless))
         case None => None
         case Some(body) =>
           match ChainAt(alphabet, body.rest, unless)
           case None => None
           case Some(more) => Some(Parsed(ElseIf(cond, body.value, more.value), more.rest)))
      case CloseIf(u) => if u == unless then Some(Parsed(NoElse, ts)) else None
      case _ => None
  }

  /** Cases up to the closing tag, which stays in the rest. */
  function CasesAt(alphabet: Alphabet, ts: seq<Token>, previous: seq<string>): (r: Option<Parsed<seq<Case>>>)
    ensures r.Some? ==> 0 < |r.value.rest| <= |ts| && r.value.rest[0] == CloseKind
    decreases |ts|, 0
  {
    if ts == [] then None
    else
      match ts[0]
      case CaseTag(names) =>
        if !NamesOk(names, previous) then None
        else
          (match Sequence(alphabet, ts[1..], InKind)
           case None => None
           case Some(body) =>
             match CasesAt(alphabet, body.rest, previous + names)
             case None => None
             case Some(more) => Some(Parsed([Case(names, body.value)] + more.value, more.rest)))
      case CloseKind => Some(Parsed([], ts))
      case _ => None
  }

  predicate AllBlank(alphabet: Alphabet, nodes: seq<Node>) {
    forall i :: 0 <= i < |nodes| ==> nodes[i].Literal? && Blank(alphabet, nodes[i].text)
  }

  function LiteralTexts(nodes: seq<Node>): (r: seq<string>)
    requires forall i :: 0 <= i < |nodes| ==> nodes[i].Literal?
    ensures |r| == |nodes| && forall i :: 0 <= i < |r| ==> r[i] == nodes[i].text
  {
    if nodes == [] then [] else [nodes[0].text] + LiteralTexts(nodes[1..])
  }

  function Parse(alphabet: Alphabet, tokens: seq<Token>): Option<seq<Node>> {
    match Sequence(alphabet, tokens, AtEnd)
    case None => None
    case Some(parsed) => Some(parsed.value)
  }

  // ---------- Parsing inverts printing ----------

  lemma Associate(a: seq<Token>, b: seq<Token>, c: seq<Token>)
    ensures a + b + c == a + (b + c)
  {
  }

  /** What is parsed is a valid tree whose printed form was read, up to the stop. */
  lemma {:induction false} SequenceReadsPrint(alphabet: Alphabet, ts: seq<Token>, stops: Stops)
    requires Sequence(alphabet, ts, stops).Some?
    ensures var r := Sequence(alphabet, ts, stops).value; ts == Print(r.value) + r.rest && NodesOk(alphabet, r.value)
    decreases |ts|, 2
  {
    if ts == [] || IsStop(stops, ts[0]) {
      assert [] + ts == ts;
    } else {
      var first := NodeAt(alphabet, ts).value;
      NodeReadsPrint(alphabet, ts);
      SequenceReadsPrint(alphabet, first.rest, stops);
      var more := Sequence(alphabet, first.rest, stops).value;
      Associate(PrintNode(first.value), Print(more.value), more.rest);
      PrintCons(first.value, more.value);
      OkCons(alphabet, first.value, more.value);
      hide NodeAt, Print, PrintNode, NodesOk, NodeOk;
    }
  }

  lemma PrintCons(node: Node, nodes: seq<Node>)
    ensures Print([node] + nodes) == PrintNode(node) + Print(nodes)
  {
    assert ([node] + nodes)[1..] == nodes;
  }

  lemma OkCons(alphabet: Alphabet, node: Node, nodes: seq<Node>)
    ensures NodesOk(alphabet, [node] + nodes) <==> NodeOk(alphabet, node) && NodesOk(alphabet, nodes)
  {
    assert ([node] + nodes)[1..] == nodes;
  }

  lemma {:induction false} NodeReadsPrint(alphabet: Alphabet, ts: seq<Token>)
    requires ts != [] && NodeAt(alphabet, ts).Some?
    ensures var r := NodeAt(alphabet, ts).value; ts == PrintNode(r.value) + r.rest && NodeOk(alphabet, r.value)
    decreases |ts|, 1
  {
    match ts[0]
    case OpenIf(unless, cond) => IfReadsPrint(alphabet, ts, unless, cond);
    case OpenEach(list) => EachReadsPrint(alphabet, ts, list);
    case OpenKind(subject) => SwitchReadsPrint(alphabet, ts, subject);
    case Text(_) => assert ts == [ts[0]] + ts[1..];
    case Leaf(_) => assert ts == [ts[0]] + ts[1..];
    case _ =>
  }

  lemma {:induction false} IfReadsPrint(alphabet: Alphabet, ts: seq<Token>, unless: bool, cond: Ref)
    requires ts != [] && ts[0] == OpenIf(unless, cond) && NodeAt(alphabet, ts).Some?
    ensures var r := NodeAt(alphabet, ts).value; ts == PrintNode(r.value) + r.rest && NodeOk(alphabet, r.value)
    decreases |ts|, 0
  {
    hide Sequence, ChainAt, Print, PrintChain, NodesOk, ChainOk;
    var rest := NodeAt(alphabet, ts).value.rest;
    var body := Sequence(alphabet, ts[1..], InIf(unless)).value;
    SequenceReadsPrint(alphabet, ts[1..], InIf(unless));
    ChainReadsPrint(alphabet, body.rest, unless);
    var chain := ChainAt(alphabet, body.rest, unless).value;
    Wrapped([ts[0]], Print(body.value), PrintChain(chain.value), [CloseIf(unless)], rest);
    assert ts == [ts[0]] + ts[1..] && chain.rest == [CloseIf(unless)] + rest;
  }

  lemma {:induction false} EachReadsPrint(alphabet: Alphabet, ts: seq<Token>, list: Ref)
    requires ts != [] && ts[0] == OpenEach(list) && NodeAt(alphabet, ts).Some?
    ensures var r := NodeAt(alphabet, ts).value; ts == PrintNode(r.value) + r.rest && NodeOk(alphabet, r.value)
    decreases |ts|, 0
  {
    hide Sequence, Print, NodesOk;
    var rest := NodeAt(alphabet, ts).value.rest;
    var body := Sequence(alphabet, ts[1..], InEach).value;
    SequenceReadsPrint(alphabet, ts[1..], InEach);
    Wrapped([ts[0]], Print(body.value), [], [CloseEach], rest);
    assert ts == [ts[0]] + ts[1..] && body.rest == [CloseEach] + rest;
  }

  lemma {:induction false} SwitchReadsPrint(alphabet: Alphabet, ts: seq<Token>, subject: Ref)
    requires ts != [] && ts[0] == OpenKind(subject) && NodeAt(alphabet, ts).Some?
    ensures var r := NodeAt(alphabet, ts).value; ts == PrintNode(r.value) + r.rest && NodeOk(alphabet, r.value)
    decreases |ts|, 0
  {
    hide Sequence, CasesAt, Print, PrintCases, NodesOk, CasesOk, Blank;
    var rest := NodeAt(alphabet, ts).value.rest;
    var before := Sequence(alphabet, ts[1..], InKind).value;
    SequenceReadsPrint(alphabet, ts[1..], InKind);
    CasesReadPrint(alphabet, before.rest, []);
    var cases := CasesAt(alphabet, before.rest, []).value;
    TextsPrint(before.value);
    Wrapped([ts[0]], Print(before.value), PrintCases(cases.value), [CloseKind], rest);
    assert ts == [ts[0]] + ts[1..] && cases.rest == [CloseKind] + rest;
  }

  lemma Headed(head: Token, a: seq<Token>, b: seq<Token>, c: seq<Token>)
    ensures var ts := [head] + a + b + c; ts[0] == head && ts[1..] == a + (b + c)
  {
  }

  lemma Wrapped(open: seq<Token>, a: seq<Token>, b: seq<Token>, close: seq<Token>, rest: seq<Token>)
    ensures open + a + b + close + rest == open + (a + (b + (close + rest)))
    ensures open + a + close + rest == open + (a + (close + rest))
  {
  }

  lemma {:induction false} TextsPrint(nodes: seq<Node>)
    requires forall i :: 0 <= i < |nodes| ==> nodes[i].Literal?
    ensures Print(nodes) == Texts(LiteralTexts(nodes))
  {
    if nodes != [] {
      TextsPrint(nodes[1..]);
    }
  }

  lemma {:induction false} ChainReadsPrint(alphabet: Alphabet, ts: seq<Token>, unless: bool)
    requires ChainAt(alphabet, ts, unless).Some?
    ensures var r := ChainAt(alphabet, ts, unless).value; ts == PrintChain(r.value) + r.rest && ChainOk(alphabet, r.value)
    decreases |ts|, 0
  {
    assert ts == [ts[0]] + ts[1..];
    match ts[0]
    case ElseTag =>
      SequenceReadsPrint(alphabet, ts[1..], InIf(unless));
      var body := Sequence(alphabet, ts[1..], InIf(unless)).value;
      Associate([ElseTag], Print(body.value), body.rest);
    case ElseIfTag(cond) =>
      SequenceReadsPrint(alphabet, ts[1..], InIf(unless));
      var body := Sequence(alphabet, ts[1..], InIf(unless)).value;
      ChainReadsPrint(alphabet, body.rest, unless);
      var more := ChainAt(alphabet, body.rest, unless).value;
      Wrapped([ts[0]], Print(body.value), PrintChain(more.value), [], more.rest);
      assert [ts[0]] + Print(body.value) + PrintChain(more.value) + [] == [ts[0]] + Print(body.value) + PrintChain(more.value);
      assert [] + more.rest == more.rest;
    case CloseIf(_) =>
      assert [] + ts == ts;
    case _ =>
  }

  lemma {:induction false} CasesReadPrint(alphabet: Alphabet, ts: seq<Token>, previous: seq<string>)
    requires CasesAt(alphabet, ts, previous).Some?
    ensures var r := CasesAt(alphabet, ts, previous).value; ts == PrintCases(r.value) + r.rest && CasesOk(alphabet, r.value, previous)
    decreases |ts|, 0
  {
    assert ts == [ts[0]] + ts[1..];
    match ts[0]
    case CaseTag(names) =>
      SequenceReadsPrint(alphabet, ts[1..], InKind);
      var body := Sequence(alphabet, ts[1..], InKind).value;
      CasesReadPrint(alphabet, body.rest, previous + names);
      var more := CasesAt(alphabet, body.rest, previous + names).value;
      var cases := [Case(names, body.value)] + more.value;
      assert cases[1..] == more.value;
      Wrapped([ts[0]], Print(body.value), PrintCases(more.value), [], more.rest);
      assert [ts[0]] + Print(body.value) + PrintCases(more.value) + [] == [ts[0]] + Print(body.value) + PrintCases(more.value);
      assert [] + more.rest == more.rest;
    case CloseKind =>
      assert [] + ts == ts;
    case _ =>
  }

  /** A printed valid tree, with a stop or the end after it, is parsed back. */
  lemma {:induction false} PrintIsParsed(alphabet: Alphabet, nodes: seq<Node>, rest: seq<Token>, stops: Stops)
    requires NodesOk(alphabet, nodes) && (rest == [] || IsStop(stops, rest[0]))
    ensures Sequence(alphabet, Print(nodes) + rest, stops) == Some(Parsed(nodes, rest))
    decreases nodes
  {
    if nodes == [] {
      assert [] + rest == rest;
    } else {
      var more := Print(nodes[1..]) + rest;
      Associate(PrintNode(nodes[0]), Print(nodes[1..]), rest);
      NodeIsParsed(alphabet, nodes[0], more);
      PrintIsParsed(alphabet, nodes[1..], rest, stops);
      OpensNoStop(nodes[0], more, stops);
      assert [nodes[0]] + nodes[1..] == nodes;
      hide NodeAt, PrintNode, NodesOk, NodeOk, IsStop;
    }
  }

  lemma OpensNoStop(node: Node, more: seq<Token>, stops: Stops)
    ensures PrintNode(node) + more != [] && !IsStop(stops, (PrintNode(node) + more)[0])
  {
    assert PrintNode(node) != [];
  }

  lemma {:induction false} NodeIsParsed(alphabet: Alphabet, node: Node, more: seq<Token>)
    requires NodeOk(alphabet, node)
    ensures PrintNode(node) + more != [] && NodeAt(alphabet, PrintNode(node) + more) == Some(Parsed(node, more))
    decreases node, 1
  {
    match node
    case If(_, _, _, _) => IfIsParsed(alphabet, node, more);
    case Each(_, _) => EachIsParsed(alphabet, node, more);
    case Switch(_, _, _) => SwitchIsParsed(alphabet, node, more);
    case _ => assert (PrintNode(node) + more)[1..] == more;
  }

  lemma {:induction false} IfIsParsed(alphabet: Alphabet, node: Node, more: seq<Token>)
    requires node.If? && NodeOk(alphabet, node)
    ensures PrintNode(node) + more != [] && NodeAt(alphabet, PrintNode(node) + more) == Some(Parsed(node, more))
    decreases node, 0
  {
    var ts, close := PrintNode(node) + more, [CloseIf(node.unless)] + more;
    Wrapped([OpenIf(node.unless, node.cond)], Print(node.body), PrintChain(node.rest), [CloseIf(node.unless)], more);
    assert ts[0] == OpenIf(node.unless, node.cond) && ts[1..] == Print(node.body) + (PrintChain(node.rest) + close);
    ChainStops(node.rest, node.unless, close);
    PrintIsParsed(alphabet, node.body, PrintChain(node.rest) + close, InIf(node.unless));
    ChainIsParsed(alphabet, node.rest, node.unless, close);
    hide Sequence, ChainAt, Print, PrintChain, PrintNode, NodesOk, ChainOk, IsStop;
  }

  lemma {:induction false} EachIsParsed(alphabet: Alphabet, node: Node, more: seq<Token>)
    requires node.Each? && NodeOk(alphabet, node)
    ensures PrintNode(node) + more != [] && NodeAt(alphabet, PrintNode(node) + more) == Some(Parsed(node, more))
    decreases node, 0
  {
    var ts, close := PrintNode(node) + more, [CloseEach] + more;
    Wrapped([OpenEach(node.list)], Print(node.body), [], [CloseEach], more);
    assert ts[0] == OpenEach(node.list) && ts[1..] == Print(node.body) + close;
    PrintIsParsed(alphabet, node.body, close, InEach);
    hide Sequence, Print, PrintNode, NodesOk, IsStop;
  }

  lemma {:induction false} SwitchIsParsed(alphabet: Alphabet, node: Node, more: seq<Token>)
    requires node.Switch? && NodeOk(alphabet, node)
    ensures PrintNode(node) + more != [] && NodeAt(alphabet, PrintNode(node) + more) == Some(Parsed(node, more))
    decreases node, 0
  {
    var ts, close := PrintNode(node) + more, [CloseKind] + more;
    Wrapped([OpenKind(node.subject)], Texts(node.prefix), PrintCases(node.cases), [CloseKind], more);
    assert ts[0] == OpenKind(node.subject) && ts[1..] == Texts(node.prefix) + (PrintCases(node.cases) + close);
    CasesAreParsed(alphabet, node.cases, [], close);
    PrefixIsParsed(alphabet, node.prefix, PrintCases(node.cases) + close);
    hide Sequence, CasesAt, Texts, PrintCases, PrintNode, NodesOk, CasesOk, IsStop, AllBlank;
  }

  lemma ChainStops(chain: Chain, unless: bool, close: seq<Token>)
    requires close != [] && close[0] == CloseIf(unless)
    ensures PrintChain(chain) + close != [] && IsStop(InIf(unless), (PrintChain(chain) + close)[0])
  {
    assert chain.NoElse? ==> PrintChain(chain) + close == close;
  }

  lemma BlankIsOk(alphabet: Alphabet, text: string)
    requires Blank(alphabet, text)
    ensures LiteralOk(alphabet, text)
  {
  }

  lemma {:induction false} PrefixIsParsed(alphabet: Alphabet, prefix: seq<string>, rest: seq<Token>)
    requires forall i :: 0 <= i < |prefix| ==> Blank(alphabet, prefix[i])
    requires rest != [] && IsStop(InKind, rest[0])
    ensures var r := Sequence(alphabet, Texts(prefix) + rest, InKind);
            r.Some? && r.value.rest == rest && AllBlank(alphabet, r.value.value) && LiteralTexts(r.value.value) == prefix
  {
    hide Blank;
    if prefix == [] {
      assert [] + rest == rest;
    } else {
      PrefixIsParsed(alphabet, prefix[1..], rest);
      var ts := Texts(prefix) + rest;
      assert ts[0] == Text(prefix[0]) && ts[1..] == Texts(prefix[1..]) + rest;
      BlankIsOk(alphabet, prefix[0]);
      var more := Sequence(alphabet, ts[1..], InKind).value.value;
      var nodes := [Literal(prefix[0])] + more;
      assert nodes[1..] == more && Sequence(alphabet, ts, InKind) == Some(Parsed(nodes, rest));
    }
  }

  lemma {:induction false} ChainIsParsed(alphabet: Alphabet, chain: Chain, unless: bool, close: seq<Token>)
    requires ChainOk(alphabet, chain) && close != [] && close[0] == CloseIf(unless)
    ensures ChainAt(alphabet, PrintChain(chain) + close, unless) == Some(Parsed(chain, close))
    decreases chain
  {
    match chain
    case NoElse =>
      assert PrintChain(chain) + close == close;
    case Else(body) =>
      PrintIsParsed(alphabet, body, close, InIf(unless));
      ElseSplits(body, close);
      hide Sequence, Print, PrintChain, ChainOk, NodesOk, IsStop;
    case ElseIf(cond, body, rest) =>
      ChainStops(rest, unless, close);
      PrintIsParsed(alphabet, body, PrintChain(rest) + close, InIf(unless));
      ChainIsParsed(alphabet, rest, unless, close);
      ElseIfSplits(cond, body, rest, close);
      hide Sequence, Print, PrintChain, ChainOk, NodesOk, IsStop;
  }

  lemma ElseSplits(body: seq<Node>, close: seq<Token>)
    ensures var ts := PrintChain(Else(body)) + close;
            ts != [] && ts[0] == ElseTag && ts[1..] == Print(body) + close
  {
  }

  lemma ElseIfSplits(cond: Ref, body: seq<Node>, rest: Chain, close: seq<Token>)
    ensures var ts := PrintChain(ElseIf(cond, body, rest)) + close;
            ts != [] && ts[0] == ElseIfTag(cond) && ts[1..] == Print(body) + (PrintChain(rest) + close)
  {
    assert PrintChain(ElseIf(cond, body, rest)) == [ElseIfTag(cond)] + Print(body) + PrintChain(rest);
    hide Print, PrintChain;
    Headed(ElseIfTag(cond), Print(body), PrintChain(rest), close);
  }

  lemma {:induction false} CasesAreParsed(alphabet: Alphabet, cases: seq<Case>, previous: seq<string>, close: seq<Token>)
    requires CasesOk(alphabet, cases, previous) && close != [] && close[0] == CloseKind
    ensures PrintCases(cases) + close != [] && IsStop(InKind, (PrintCases(cases) + close)[0])
    ensures CasesAt(alphabet, PrintCases(cases) + close, previous) == Some(Parsed(cases, close))
    decreases cases
  {
    if cases == [] {
      assert PrintCases(cases) + close == close;
    } else {
      var first, rest := cases[0], cases[1..];
      CaseSplits(cases, close);
      CasesAreParsed(alphabet, rest, previous + first.names, close);
      PrintIsParsed(alphabet, first.body, PrintCases(rest) + close, InKind);
      assert [Case(first.names, first.body)] + rest == cases;
      hide Sequence, Print, PrintCases, CasesOk, NodesOk, NamesOk;
    }
  }

  lemma CaseSplits(cases: seq<Case>, close: seq<Token>)
    requires cases != []
    ensures var ts := PrintCases(cases) + close;
            ts != [] && ts[0] == CaseTag(cases[0].names) && ts[1..] == Print(cases[0].body) + (PrintCases(cases[1..]) + close)
  {
    var body, rest := Print(cases[0].body), PrintCases(cases[1..]);
    assert PrintCases(cases) == [CaseTag(cases[0].names)] + body + rest;
    hide Print, PrintCases;
    Headed(CaseTag(cases[0].names), body, rest, close);
  }

  /** The parser accepts exactly the printed forms of valid trees, and returns the tree: no
      two trees print alike, and nothing else is a template. */
  lemma ParseInvertsPrint(alphabet: Alphabet, tokens: seq<Token>, nodes: seq<Node>)
    ensures Parse(alphabet, tokens) == Some(nodes) <==> NodesOk(alphabet, nodes) && Print(nodes) == tokens
  {
    if Parse(alphabet, tokens) == Some(nodes) {
      SequenceReadsPrint(alphabet, tokens, AtEnd);
      assert Print(nodes) + [] == Print(nodes);
    }
    if NodesOk(alphabet, nodes) && Print(nodes) == tokens {
      PrintIsParsed(alphabet, nodes, [], AtEnd);
      assert Print(nodes) + [] == tokens;
    }
  }
}
