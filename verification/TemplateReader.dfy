/** The parser as the program runs it: one position that only moves forward, loops over the
    nodes of a run, the branches of a block and the cases of a switch. */
module TemplateReader {
  import opened Outcomes
  import opened TemplateLanguage
  import opened TemplateParser

  /** Nodes already read, put before the rest of a run. */
  function Before(nodes: seq<Node>, more: Option<Parsed<seq<Node>>>): Option<Parsed<seq<Node>>> {
    match more
    case None => None
    case Some(p) => Some(Parsed(nodes + p.value, p.rest))
  }

  /** Branches already read, put before the rest of a chain. */
  function Branched(branches: seq<(Ref, seq<Node>)>, more: Option<Parsed<Chain>>): Option<Parsed<Chain>> {
    match more
    case None => None
    case Some(p) => Some(Parsed(Linked(branches, p.value), p.rest))
  }

  function Linked(branches: seq<(Ref, seq<Node>)>, last: Chain): Chain {
    if branches == [] then last else ElseIf(branches[0].0, branches[0].1, Linked(branches[1..], last))
  }

  function Cased(cases: seq<Case>, more: Option<Parsed<seq<Case>>>): Option<Parsed<seq<Case>>> {
    match more
    case None => None
    case Some(p) => Some(Parsed(cases + p.value, p.rest))
  }

  function NamesOf(cases: seq<Case>): seq<string> {
    if cases == [] then [] else NamesOf(cases[..|cases| - 1]) + cases[|cases| - 1].names
  }

  lemma {:induction false} LinkedSnoc(branches: seq<(Ref, seq<Node>)>, cond: Ref, body: seq<Node>, last: Chain)
    ensures Linked(branches + [(cond, body)], last) == Linked(branches, ElseIf(cond, body, last))
  {
    if branches == [] {
      assert [] + [(cond, body)] == [(cond, body)] && [(cond, body)][1..] == [];
    } else {
      assert (branches + [(cond, body)])[1..] == branches[1..] + [(cond, body)];
      LinkedSnoc(branches[1..], cond, body, last);
    }
  }

  lemma NodesAssociate(a: seq<Node>, b: seq<Node>, c: seq<Node>)
    ensures a + b + c == a + (b + c)
  {
  }

  lemma CasesAssociate(a: seq<Case>, b: seq<Case>, c: seq<Case>)
    ensures a + b + c == a + (b + c)
  {
  }

  class Parser {
    const alphabet: Alphabet
    const tokens: seq<Token>
    var position: nat

    constructor (alphabet: Alphabet, tokens: seq<Token>)
      ensures this.alphabet == alphabet && this.tokens == tokens && position == 0
    {
      this.alphabet, this.tokens, position := alphabet, tokens, 0;
    }

    ghost function Rest(): seq<Token>
      requires position <= |tokens|
      reads this
    {
      tokens[position..]
    }

    /** What a method that moved from `before` to here has read, as the specification says. */
    ghost predicate Read<T>(spec: Option<Parsed<T>>, r: Option<T>)
      reads this
    {
      position <= |tokens| && if r.None? then spec.None? else spec == Some(Parsed(r.value, Rest()))
    }

    /** The whole template. */
    method Parse() returns (r: Option<seq<Node>>)
      requires position == 0
      modifies this`position
      ensures r == TemplateParser.Parse(alphabet, tokens)
      ensures r.Some? ==> NodesOk(alphabet, r.value) && Print(r.value) == tokens
    {
      assert tokens[0..] == tokens;
      r := Sequence(AtEnd);
      if r.Some? {
        ParseInvertsPrint(alphabet, tokens, r.value);
      }
    }

    method Sequence(stops: Stops) returns (r: Option<seq<Node>>)
      requires position <= |tokens|
      modifies this`position
      ensures old(position) <= position && Read(TemplateParser.Sequence(alphabet, old(Rest()), stops), r)
      ensures r.Some? && position < |tokens| ==> IsStop(stops, tokens[position])
      decreases |tokens| - position, 1
    {
      var nodes: seq<Node> := [];
      ghost var spec := TemplateParser.Sequence(alphabet, Rest(), stops);
      assert spec == Before([], spec) by {
        if spec.Some? {
          assert [] + spec.value.value == spec.value.value;
        }
      }
      while position < |tokens| && !IsStop(stops, tokens[position])
        invariant old(position) <= position <= |tokens|
        invariant spec == Before(nodes, TemplateParser.Sequence(alphabet, Rest(), stops))
        decreases |tokens| - position
      {
        ghost var here := Rest();
        SequenceStep(alphabet, here, stops, nodes);
        hide NodeAt, TemplateParser.Sequence, IsStop, Before;
        var node := Node();
        if node.None? {
          return None;
        }
        nodes := nodes + [node.value];
      }
      assert nodes + [] == nodes;
      r := Some(nodes);
    }

    /** One literal, tag or block. */
    method Node() returns (r: Option<Node>)
      requires position < |tokens|
      modifies this`position
      ensures Read(NodeAt(alphabet, old(Rest())), r) && old(position) < position
      decreases |tokens| - position, 0
    {
      var token := tokens[position];
      ghost var ts := Rest();
      assert ts[0] == token && ts[1..] == tokens[position + 1..];
      position := position + 1;
      match token {
        case Text(text) =>
          r := if LiteralOk(alphabet, text) then Some(Literal(text)) else None;
        case Leaf(node) =>
          r := if IsLeaf(node) then Some(node) else None;
        case OpenIf(unless, cond) =>
          r := IfBlock(unless, cond, ts);
        case OpenEach(list) =>
          r := EachBlock(list, ts);
        case OpenKind(subject) =>
          r := KindBlock(subject, ts);
        case _ =>
          r := None;
      }
    }

    method IfBlock(unless: bool, cond: Ref, ghost ts: seq<Token>) returns (r: Option<Node>)
      requires position <= |tokens| && ts != [] && ts[0] == OpenIf(unless, cond) && ts[1..] == Rest()
      modifies this`position
      ensures Read(NodeAt(alphabet, ts), r) && old(position) <= position
      decreases |tokens| - position, 3
    {
      hide TemplateParser.Sequence, ChainAt, IsStop;
      var body := Sequence(InIf(unless));
      if body.None? {
        return None;
      }
      var rest := Branches(unless);
      if rest.None? {
        return None;
      }
      position := position + 1;
      r := Some(If(unless, cond, body.value, rest.value));
    }

    /** The else branches, up to the closing tag. */
    method Branches(unless: bool) returns (r: Option<Chain>)
      requires position <= |tokens|
      modifies this`position
      ensures old(position) <= position && Read(ChainAt(alphabet, old(Rest()), unless), r)
      ensures r.Some? ==> position < |tokens|
      decreases |tokens| - position, 2
    {
      hide TemplateParser.Sequence, IsStop;
      var branches: seq<(Ref, seq<Node>)> := [];
      var otherwise: Option<seq<Node>> := None;
      ghost var spec := ChainAt(alphabet, Rest(), unless);
      while position < |tokens| && (tokens[position].ElseTag? || tokens[position].ElseIfTag?)
        invariant old(position) <= position <= |tokens|
        invariant spec == Branched(branches, Continued(alphabet, Rest(), unless, otherwise))
        decreases |tokens| - position
      {
        hide Linked;
        ghost var here := Rest();
        assert here[0] == tokens[position] && here[1..] == tokens[position + 1..];
        if otherwise.Some? {
          return None;
        }
        var tag := tokens[position];
        position := position + 1;
        var body := Sequence(InIf(unless));
        if body.None? {
          return None;
        }
        if tag.ElseTag? {
          otherwise := body;
        } else {
          ghost var more := ChainAt(alphabet, Rest(), unless);
          if more.Some? {
            LinkedSnoc(branches, tag.cond, body.value, more.value.value);
          }
          branches := branches + [(tag.cond, body.value)];
        }
      }
      if position >= |tokens| || tokens[position] != CloseIf(unless) {
        return None;
      }
      r := Some(Linked(branches, if otherwise.Some? then Else(otherwise.value) else NoElse));
    }

    method EachBlock(list: Ref, ghost ts: seq<Token>) returns (r: Option<Node>)
      requires position <= |tokens| && ts != [] && ts[0] == OpenEach(list) && ts[1..] == Rest()
      modifies this`position
      ensures Read(NodeAt(alphabet, ts), r) && old(position) <= position
      decreases |tokens| - position, 2
    {
      hide TemplateParser.Sequence;
      var body := Sequence(InEach);
      if body.None? || position >= |tokens| || tokens[position] != CloseEach {
        return None;
      }
      position := position + 1;
      r := Some(Each(list, body.value));
    }

    method KindBlock(subject: Ref, ghost ts: seq<Token>) returns (r: Option<Node>)
      requires position <= |tokens| && ts != [] && ts[0] == OpenKind(subject) && ts[1..] == Rest()
      modifies this`position
      ensures Read(NodeAt(alphabet, ts), r) && old(position) <= position
      decreases |tokens| - position, 3
    {
      hide TemplateParser.Sequence, CasesAt, IsStop, Blank;
      var before := Sequence(InKind);
      if before.None? || !AllBlank(alphabet, before.value) {
        return None;
      }
      var cases := Cases();
      if cases.None? || cases.value == [] {
        return None;
      }
      position := position + 1;
      r := Some(Switch(subject, LiteralTexts(before.value), cases.value));
    }

    /** The cases, up to the closing tag. */
    method Cases() returns (r: Option<seq<Case>>)
      requires position <= |tokens|
      modifies this`position
      ensures old(position) <= position && Read(CasesAt(alphabet, old(Rest()), []), r)
      ensures r.Some? ==> position < |tokens|
      decreases |tokens| - position, 2
    {
      hide TemplateParser.Sequence, IsStop, NamesOk;
      var cases: seq<Case> := [];
      ghost var spec := CasesAt(alphabet, Rest(), []);
      assert spec == Cased([], spec) by {
        if spec.Some? {
          assert [] + spec.value.value == spec.value.value;
        }
      }
      while position < |tokens| && tokens[position].CaseTag?
        invariant old(position) <= position <= |tokens|
        invariant spec == Cased(cases, CasesAt(alphabet, Rest(), NamesOf(cases)))
        decreases |tokens| - position
      {
        ghost var here := Rest();
        assert here[0] == tokens[position] && here[1..] == tokens[position + 1..];
        var names := tokens[position].names;
        position := position + 1;
        if !NamesOk(names, NamesOf(cases)) {
          return None;
        }
        var body := Sequence(InKind);
        if body.None? {
          return None;
        }
        CasedSnoc(alphabet, Rest(), cases, names, body.value);
        cases := cases + [Case(names, body.value)];
      }
      if position >= |tokens| || tokens[position] != CloseKind {
        return None;
      }
      assert cases + [] == cases;
      r := Some(cases);
    }
  }

  /** The rest of a chain; after an else branch only the closing tag may follow. */
  function Continued(alphabet: Alphabet, ts: seq<Token>, unless: bool, otherwise: Option<seq<Node>>): Option<Parsed<Chain>> {
    match otherwise
    case None => ChainAt(alphabet, ts, unless)
    case Some(body) => if ts == [] || ts[0] != CloseIf(unless) then None else Some(Parsed(Else(body), ts))
  }

  lemma CasedSnoc(alphabet: Alphabet, ts: seq<Token>, cases: seq<Case>, names: seq<string>, body: seq<Node>)
    ensures var more, longer := CasesAt(alphabet, ts, NamesOf(cases) + names), cases + [Case(names, body)];
            && NamesOf(longer) == NamesOf(cases) + names
            && Cased(longer, more) ==
               (match more case None => None case Some(p) => Some(Parsed(cases + ([Case(names, body)] + p.value), p.rest)))
  {
    hide CasesAt;
    var more := CasesAt(alphabet, ts, NamesOf(cases) + names);
    assert (cases + [Case(names, body)])[..|cases|] == cases;
    if more.Some? {
      CasesAssociate(cases, [Case(names, body)], more.value.value);
    }
  }

  /** Reading one more node at the end of those already read. */
  lemma SequenceStep(alphabet: Alphabet, ts: seq<Token>, stops: Stops, nodes: seq<Node>)
    requires ts != [] && !IsStop(stops, ts[0])
    ensures var first, whole := NodeAt(alphabet, ts), Before(nodes, TemplateParser.Sequence(alphabet, ts, stops));
            whole == if first.None? then None
                     else Before(nodes + [first.value.value], TemplateParser.Sequence(alphabet, first.value.rest, stops))
  {
    hide NodeAt;
    var first := NodeAt(alphabet, ts);
    if first.Some? {
      var more := TemplateParser.Sequence(alphabet, first.value.rest, stops);
      if more.Some? {
        NodesAssociate(nodes, [first.value.value], more.value.value);
      }
    }
  }
}
