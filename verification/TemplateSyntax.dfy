/** What an accepted template looks like, token by token and case by case. */
module TemplateSyntax {
  import opened Outcomes
  import opened TemplateLanguage
  import opened TemplateParser

  /** A letter or underscore, then letters, digits, underscores and hyphens. */
  predicate CaseName(name: string) {
    && |name| > 0 && !('0' <= name[0] <= '9') && name[0] != '-'
    && forall c :: c in name ==> 'A' <= c <= 'Z' || 'a' <= c <= 'z' || '0' <= c <= '9' || c == '_' || c == '-'
  }

  /** No words and no stray delimiters in text, valid names in cases, nothing unexpected. */
  predicate Fine(alphabet: Alphabet, t: Token) {
    match t
    case Text(text) =>
      (forall c :: c in text ==> c !in alphabet.letters) && forall i :: 0 < i < |text| ==> text[i - 1] != '}' || text[i] != '}'
    case Leaf(node) => node.Insert? || node.Message? || node.Partial?
    case CaseTag(names) =>
      names != [] && (forall i :: 0 <= i < |names| ==> CaseName(names[i])) && forall i, j :: 0 <= i < j < |names| ==> names[i] != names[j]
    case Unexpected => false
    case _ => true
  }

  lemma NamesAreValid(name: string)
    ensures NameOk(name) <==> CaseName(name)
  {
    if name != "" {
      assert name[0] in name;
    }
  }

  predicate AllFine(alphabet: Alphabet, ts: seq<Token>) {
    forall i :: 0 <= i < |ts| ==> Fine(alphabet, ts[i])
  }

  lemma FineConcat(alphabet: Alphabet, a: seq<Token>, b: seq<Token>)
    requires AllFine(alphabet, a) && AllFine(alphabet, b)
    ensures AllFine(alphabet, a + b)
  {
    hide Fine;
  }

  lemma {:induction false} NodesAreFine(alphabet: Alphabet, nodes: seq<Node>)
    requires NodesOk(alphabet, nodes)
    ensures AllFine(alphabet, Print(nodes))
    decreases nodes, 0
  {
    if nodes != [] {
      NodeIsFine(alphabet, nodes[0]);
      NodesAreFine(alphabet, nodes[1..]);
      FineConcat(alphabet, PrintNode(nodes[0]), Print(nodes[1..]));
    }
  }

  /** A block between its opening and its closing tag. */
  lemma BlockIsFine(alphabet: Alphabet, open: Token, inside: seq<Token>, close: Token)
    requires Fine(alphabet, open) && AllFine(alphabet, inside) && Fine(alphabet, close)
    ensures AllFine(alphabet, [open] + inside + [close])
  {
    hide Fine;
  }

  lemma {:induction false} NodeIsFine(alphabet: Alphabet, node: Node)
    requires NodeOk(alphabet, node)
    ensures AllFine(alphabet, PrintNode(node))
    decreases node, 0
  {
    match node
    case If(unless, cond, body, rest) =>
      hide Fine, NodesOk, ChainOk;
      NodesAreFine(alphabet, body);
      ChainIsFine(alphabet, rest);
      FineConcat(alphabet, Print(body), PrintChain(rest));
      PlainTagsAreFine(alphabet, OpenIf(unless, cond), CloseIf(unless));
      BlockIsFine(alphabet, OpenIf(unless, cond), Print(body) + PrintChain(rest), CloseIf(unless));
      assert PrintNode(node) == [OpenIf(unless, cond)] + (Print(body) + PrintChain(rest)) + [CloseIf(unless)];
    case Each(list, body) =>
      hide Fine, NodesOk;
      NodesAreFine(alphabet, body);
      PlainTagsAreFine(alphabet, OpenEach(list), CloseEach);
      BlockIsFine(alphabet, OpenEach(list), Print(body), CloseEach);
    case Switch(subject, prefix, cases) =>
      hide Fine, CasesOk, Blank;
      TextsAreFine(alphabet, prefix);
      CasesAreFine(alphabet, cases, []);
      FineConcat(alphabet, Texts(prefix), PrintCases(cases));
      PlainTagsAreFine(alphabet, OpenKind(subject), CloseKind);
      BlockIsFine(alphabet, OpenKind(subject), Texts(prefix) + PrintCases(cases), CloseKind);
      assert PrintNode(node) == [OpenKind(subject)] + (Texts(prefix) + PrintCases(cases)) + [CloseKind];
    case _ => LeafIsFine(alphabet, node);
  }

  lemma PlainTagsAreFine(alphabet: Alphabet, open: Token, close: Token)
    requires open.OpenIf? || open.OpenEach? || open.OpenKind?
    requires close.CloseIf? || close.CloseEach? || close.CloseKind?
    ensures Fine(alphabet, open) && Fine(alphabet, close)
  {
  }

  lemma LeafIsFine(alphabet: Alphabet, node: Node)
    requires NodeOk(alphabet, node) && !node.If? && !node.Each? && !node.Switch?
    ensures AllFine(alphabet, PrintNode(node))
  {
  }

  lemma {:induction false} TextsAreFine(alphabet: Alphabet, prefix: seq<string>)
    requires forall i :: 0 <= i < |prefix| ==> Blank(alphabet, prefix[i])
    ensures AllFine(alphabet, Texts(prefix))
  {
    if prefix != [] {
      TextsAreFine(alphabet, prefix[1..]);
      assert Blank(alphabet, prefix[0]);
      FineConcat(alphabet, [Text(prefix[0])], Texts(prefix[1..]));
    }
  }

  lemma {:induction false} ChainIsFine(alphabet: Alphabet, chain: Chain)
    requires ChainOk(alphabet, chain)
    ensures AllFine(alphabet, PrintChain(chain))
    decreases chain, 0
  {
    match chain
    case NoElse =>
    case Else(body) =>
      NodesAreFine(alphabet, body);
      FineConcat(alphabet, [ElseTag], Print(body));
    case ElseIf(cond, body, rest) =>
      NodesAreFine(alphabet, body);
      ChainIsFine(alphabet, rest);
      FineConcat(alphabet, [ElseIfTag(cond)], Print(body));
      FineConcat(alphabet, [ElseIfTag(cond)] + Print(body), PrintChain(rest));
  }

  lemma {:induction false} CasesAreFine(alphabet: Alphabet, cases: seq<Case>, previous: seq<string>)
    requires CasesOk(alphabet, cases, previous)
    ensures AllFine(alphabet, PrintCases(cases))
    decreases cases, 0
  {
    if cases != [] {
      NodesAreFine(alphabet, cases[0].body);
      CasesAreFine(alphabet, cases[1..], previous + cases[0].names);
      forall i | 0 <= i < |cases[0].names| ensures CaseName(cases[0].names[i]) {
        NamesAreValid(cases[0].names[i]);
      }
      FineConcat(alphabet, [CaseTag(cases[0].names)], Print(cases[0].body));
      FineConcat(alphabet, [CaseTag(cases[0].names)] + Print(cases[0].body), PrintCases(cases[1..]));
    }
  }

  /** Every token of an accepted template is fine. */
  lemma AcceptedTokensAreFine(alphabet: Alphabet, tokens: seq<Token>)
    requires Parse(alphabet, tokens).Some?
    ensures AllFine(alphabet, tokens)
  {
    ParseInvertsPrint(alphabet, tokens, Parse(alphabet, tokens).value);
    NodesAreFine(alphabet, Parse(alphabet, tokens).value);
  }

  // ---------- Switches ----------

  function AllNames(cases: seq<Case>): seq<string> {
    if cases == [] then [] else cases[0].names + AllNames(cases[1..])
  }

  predicate Distinct(names: seq<string>) {
    forall i, j :: 0 <= i < j < |names| ==> names[i] != names[j]
  }

  lemma DistinctConcat(a: seq<string>, b: seq<string>)
    ensures Distinct(a + b) <==> Distinct(a) && Distinct(b) && forall x :: x in b ==> x !in a
  {
    var c := a + b;
    if Distinct(c) {
      forall i, j | 0 <= i < j < |a| ensures a[i] != a[j] {
        assert c[i] != c[j];
      }
      forall i, j | 0 <= i < j < |b| ensures b[i] != b[j] {
        assert c[|a| + i] != c[|a| + j];
      }
      forall x | x in b ensures x !in a {
        var j :| 0 <= j < |b| && b[j] == x;
        assert c[|a| + j] == x;
        assert forall i :: 0 <= i < |a| ==> c[i] == a[i] && c[i] != c[|a| + j];
      }
    }
    if Distinct(a) && Distinct(b) && forall x :: x in b ==> x !in a {
      forall i, j | 0 <= i < j < |c| ensures c[i] != c[j] {
        if i < |a| <= j {
          assert b[j - |a|] in b && a[i] in a;
        } else if |a| <= i {
          assert b[i - |a|] != b[j - |a|];
        } else {
          assert a[i] != a[j];
        }
      }
    }
  }

  /** The cases of a switch are valid exactly when each names something, all names are valid
      and no name comes twice in the whole switch. */
  lemma {:induction false} CasesAreDistinct(alphabet: Alphabet, cases: seq<Case>, previous: seq<string>)
    requires Distinct(previous)
    ensures CasesOk(alphabet, cases, previous) <==>
            && (forall i :: 0 <= i < |cases| ==> cases[i].names != [] && NodesOk(alphabet, cases[i].body))
            && (forall i :: 0 <= i < |AllNames(cases)| ==> CaseName(AllNames(cases)[i]))
            && Distinct(previous + AllNames(cases))
  {
    if cases == [] {
      assert previous + AllNames(cases) == previous;
    } else {
      var names, rest := cases[0].names, cases[1..];
      assert previous + AllNames(cases) == previous + names + AllNames(rest);
      FrontNames(names, AllNames(rest), previous);
      DistinctConcat(previous, names);
      DistinctConcat(previous + names, AllNames(rest));
      assert forall i :: 0 < i < |cases| ==> cases[i] == rest[i - 1];
      assert forall i :: 0 <= i < |rest| ==> rest[i] == cases[i + 1];
      if Distinct(previous + names) {
        CasesAreDistinct(alphabet, rest, previous + names);
      }
      hide NodesOk, CaseName;
    }
  }

  lemma FrontNames(names: seq<string>, rest: seq<string>, previous: seq<string>)
    ensures NamesOk(names, previous) <==>
            && names != [] && (forall i :: 0 <= i < |names| ==> CaseName(names[i])) && Distinct(names)
            && forall x :: x in names ==> x !in previous
    ensures (forall i :: 0 <= i < |names + rest| ==> CaseName((names + rest)[i])) <==>
            (forall i :: 0 <= i < |names| ==> CaseName(names[i])) && forall i :: 0 <= i < |rest| ==> CaseName(rest[i])
  {
    forall i | 0 <= i < |names| ensures NameOk(names[i]) <==> CaseName(names[i]) {
      NamesAreValid(names[i]);
    }
    hide NameOk, CaseName;
    var all := names + rest;
    assert forall i :: 0 <= i < |rest| ==> all[|names| + i] == rest[i];
    assert forall i :: 0 <= i < |names| ==> all[i] == names[i];
  }

  /** Before the first case there is only white space. */
  lemma BlankMeansSpaces(alphabet: Alphabet, text: string)
    requires forall c :: c in alphabet.spaces ==> c !in alphabet.letters && c != '}'
    ensures Blank(alphabet, text) <==> forall c :: c in text ==> c in alphabet.spaces
  {
    if forall c :: c in text ==> c in alphabet.spaces {
      forall i | 0 <= i < |text| - 1 ensures text[i] != '}' {
        assert text[i] in text;
      }
    }
  }
}
