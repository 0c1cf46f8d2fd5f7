/** Laws of the direct interpreter: what conditions, paths, filters, loops and switches mean
    for the values of a view. */
module TemplateMeaning {
  import opened Outcomes
  import opened TemplateLanguage

  // ---------- Values ----------

  /** A count or score wrapper around zero. */
  predicate ZeroWrapper(v: Val) {
    v.Obj? && "kind" in v.fields && (v.fields["kind"] == Str("count") || v.fields["kind"] == Str("score")) &&
    "value" in v.fields && v.fields["value"] == Num(0.0)
  }

  /** A condition fails exactly for nothing, false, zero, empty text, an empty list, and a
      count or score of zero. */
  lemma ConditionsFailFor(v: Val)
    ensures Holds(v) <==>
            v != Undefined && v != Null && v != Bool(false) && v != Num(0.0) && v != Str("") && v != List([]) && !ZeroWrapper(v)
  {
  }

  /** A path is read field by field; only nothing has no fields, and a missing field is
      nothing, not an error. */
  lemma {:induction false} PathsCompose(v: Val, a: seq<string>, b: seq<string>)
    ensures Walk(v, a + b) == match Walk(v, a) case None => None case Some(w) => Walk(w, b)
    decreases |a|
  {
    if a == [] {
      assert a + b == b;
    } else {
      assert (a + b)[1..] == a[1..] + b;
      match GetField(v, a[0])
      case None =>
      case Some(w) => PathsCompose(w, a[1..], b);
    }
  }

  lemma FieldsAre(v: Val, name: string)
    ensures GetField(v, name) == None <==> v == Undefined || v == Null
    ensures v.Obj? ==> GetField(v, name) == Some(if name in v.fields then v.fields[name] else Undefined)
    ensures v.List? ==> GetField(v, "length") == Some(Num(|v.items| as real))
    ensures v.Str? ==> GetField(v, "length") == Some(Num(|v.s| as real))
    ensures Walk(v, []) == Some(v)
  {
  }

  /** Text is its own label, a record is labelled by its kind. */
  lemma LabelsAre(v: Val)
    ensures v.Str? ==> KindLabel(v) == Some(v)
    ensures v.Obj? && "kind" in v.fields ==> KindLabel(v) == Some(v.fields["kind"])
    ensures KindLabel(v) == None <==> v == Undefined || v == Null
  {
  }

  /** Every filter is its own helper; only raw_last is spelled otherwise, and only it is raw. */
  lemma FiltersAre(name: string)
    ensures name in HELPERS <==> name in {"inline", "quote", "cell", "line", "code", "text", "raw_last"}
    ensures name in HELPERS ==> HELPERS[name] == if name == "raw_last" then "rawLast" else name
  {
  }

  /** A value without a filter goes through `inline`; a filtered one through its helper, raw
      only for raw_last; a path through nothing throws, as does the helper's own exception. */
  lemma InsertWrites(rt: Runtime, segs: seq<string>, filters: seq<string>, cur: Val, first: Option<bool>, v: Val)
    requires Walk(cur, segs) == Some(v)
    ensures filters == [] ==> RenderInsert(rt, Field(segs), filters, cur, first) == WroteOption(rt.format("inline", v), false)
    ensures |filters| == 1 && filters[0] in {"quote", "cell", "line", "code", "text"} ==>
              RenderInsert(rt, Field(segs), filters, cur, first) == WroteOption(rt.format(filters[0], v), false)
    ensures filters == ["raw_last"] ==> RenderInsert(rt, Field(segs), filters, cur, first) == WroteOption(rt.format("rawLast", v), true)
  {
    if filters != [] {
      FiltersAre(filters[0]);
    }
  }

  /** A message gets its arguments in the order written, each with its value; the selecting
      parameter of a select message, and no other, is marked as such. */
  lemma {:induction false} ArgumentsAre(definition: Definition, args: seq<(string, Ref)>, cur: Val, first: Option<bool>, i: nat)
    requires LookupArgs(definition, args, cur, first).Some? && i < |args|
    ensures var passed := LookupArgs(definition, args, cur, first).value;
            && |passed| == |args| && passed[i].name == args[i].0 && Lookup(args[i].1, cur, first) == Some(passed[i].value)
            && (passed[i].selects <==> definition.select.Some? && definition.select.value == args[i].0)
  {
    if |args| > 1 {
      ArgumentsAre(definition, args[1..], cur, first, if i == 0 then 0 else i - 1);
    }
  }

  // ---------- Blocks ----------

  /** An if and an unless over the same condition take opposite branches. */
  lemma UnlessIsOpposite(rt: Runtime, lib: Library, depth: nat, cond: Ref, body: seq<Node>, other: seq<Node>, cur: Val, first: Option<bool>)
    ensures RenderNode(rt, lib, depth, If(true, cond, body, Else(other)), cur, first) ==
            RenderNode(rt, lib, depth, If(false, cond, other, Else(body)), cur, first)
  {
  }

  /** A condition on a value takes the first branch exactly if the value holds. */
  lemma IfTakesItsBranch(rt: Runtime, lib: Library, depth: nat, segs: seq<string>, body: seq<Node>, other: seq<Node>,
                         cur: Val, first: Option<bool>, v: Val)
    requires Walk(cur, segs) == Some(v)
    ensures RenderNode(rt, lib, depth, If(false, Field(segs), body, Else(other)), cur, first) ==
            RenderNodes(rt, lib, depth, if Holds(v) then body else other, cur, first)
  {
  }

  /** The body of a separated list: a separator before every item but the first. */
  function Separated(separator: string): seq<Node> {
    [If(true, First, [Literal(separator)], NoElse), Insert(Field([]), [])]
  }

  function Joined(texts: seq<string>, separator: string, k: nat): string
    requires k <= |texts|
    decreases |texts| - k
  {
    if k == |texts| then "" else (if k == 0 then "" else separator) + texts[k] + Joined(texts, separator, k + 1)
  }

  lemma {:induction false} ItemsAreJoined(rt: Runtime, lib: Library, depth: nat, separator: string, items: seq<Val>, texts: seq<string>, k: nat)
    requires k <= |items| == |texts| && separator != ""
    requires forall i :: 0 <= i < |items| ==> rt.format("inline", items[i]) == Some(texts[i])
    ensures var run := RenderItems(rt, lib, depth, Separated(separator), items, k);
            run.status.Finished? && Text(run.trace) == Joined(texts, separator, k)
    decreases |items| - k
  {
    if k < |items| {
      ItemIsSeparated(rt, lib, depth, separator, items[k], texts[k], k == 0);
      ItemsAreJoined(rt, lib, depth, separator, items, texts, k + 1);
      var one := RenderNodes(rt, lib, depth, Separated(separator), items[k], Some(k == 0));
      var rest := RenderItems(rt, lib, depth, Separated(separator), items, k + 1);
      hide RenderNodes, Separated;
      TextConcat(one.trace, rest.trace);
    }
  }

  lemma ItemIsSeparated(rt: Runtime, lib: Library, depth: nat, separator: string, item: Val, text: string, isFirst: bool)
    requires separator != "" && rt.format("inline", item) == Some(text)
    ensures var run := RenderNodes(rt, lib, depth, Separated(separator), item, Some(isFirst));
            run.status.Finished? && Text(run.trace) == (if isFirst then "" else separator) + text
  {
    var nodes := Separated(separator);
    var cond := RenderNode(rt, lib, depth, nodes[0], item, Some(isFirst));
    assert nodes[1..] == [nodes[1]] && nodes[1..][1..] == [];
    assert RenderNodes(rt, lib, depth, [], item, Some(isFirst)) == NOTHING;
    SeparatorIsSkippedFirst(rt, lib, depth, separator, item, isFirst);
    var value := RenderNode(rt, lib, depth, nodes[1], item, Some(isFirst));
    assert value == Wrote(text, false);
    var trace := cond.trace + value.trace;
    assert RenderNodes(rt, lib, depth, nodes, item, Some(isFirst)).trace == trace;
    assert value.trace == [Segment(text, false)];
    assert Text([Segment(text, false)]) == text + "" == text;
    if !isFirst {
      assert trace == [Segment(separator, false), Segment(text, false)] && trace[1..] == [Segment(text, false)];
    } else {
      assert trace == [Segment(text, false)];
    }
  }

  lemma SeparatorIsSkippedFirst(rt: Runtime, lib: Library, depth: nat, separator: string, item: Val, isFirst: bool)
    requires separator != ""
    ensures RenderNode(rt, lib, depth, If(true, First, [Literal(separator)], NoElse), item, Some(isFirst)) ==
            if isFirst then NOTHING else Wrote(separator, false)
  {
    var literal := [Literal(separator)];
    assert literal[0] == Literal(separator) && literal[1..] == [];
    assert RenderNodes(rt, lib, depth, [], item, Some(isFirst)) == NOTHING;
    assert Wrote(separator, false).Then(NOTHING) == Wrote(separator, false);
    assert RenderNodes(rt, lib, depth, literal, item, Some(isFirst)) == WroteLiteral(separator).Then(NOTHING);
    assert Holds(Bool(isFirst)) == isFirst;
  }

  lemma {:induction false} TextConcat(a: seq<Segment>, b: seq<Segment>)
    ensures Text(a + b) == Text(a) + Text(b)
  {
    if a == [] {
      assert a + b == b;
    } else {
      TextConcat(a[1..], b);
      assert (a + b)[0] == a[0] && (a + b)[1..] == a[1..] + b;
      var x, y, z := a[0].text, Text(a[1..]), Text(b);
      assert x + (y + z) == (x + y) + z;
    }
  }

  /** A loop runs over all items in order, and `@first` holds for the first only: the usual
      separated list comes out joined. */
  lemma ListsAreJoined(rt: Runtime, lib: Library, depth: nat, separator: string, segs: seq<string>, items: seq<Val>, texts: seq<string>,
                       cur: Val, first: Option<bool>)
    requires Walk(cur, segs) == Some(List(items)) && |texts| == |items| && separator != ""
    requires forall i :: 0 <= i < |items| ==> rt.format("inline", items[i]) == Some(texts[i])
    ensures var run := RenderNode(rt, lib, depth, Each(Field(segs), Separated(separator)), cur, first);
            run.status.Finished? && Text(run.trace) == Joined(texts, separator, 0)
  {
    ItemsAreJoined(rt, lib, depth, separator, items, texts, 0);
  }

  /** A switch renders the first case with the subject's label, and throws without one. */
  lemma {:induction false} SwitchTakesItsCase(rt: Runtime, lib: Library, depth: nat, cases: seq<Case>, tag: string, cur: Val, first: Option<bool>, k: nat)
    requires k <= |cases| && (forall i :: 0 <= i < k ==> tag !in cases[i].names) && (k < |cases| ==> tag in cases[k].names)
    ensures RenderCases(rt, lib, depth, cases, Str(tag), cur, first) ==
            if k < |cases| then RenderNodes(rt, lib, depth, cases[k].body, cur, first) else EXCEPTION
    decreases k
  {
    if k > 0 {
      assert forall i :: 0 <= i < |cases[1..]| ==> cases[1..][i] == cases[i + 1];
      SwitchTakesItsCase(rt, lib, depth, cases[1..], tag, cur, first, k - 1);
    }
  }

  /** A partial is its own tree on the value passed, outside any loop. */
  lemma PartialMeansItsTree(rt: Runtime, lib: Library, depth: nat, name: string, segs: seq<string>, cur: Val, first: Option<bool>, v: Val)
    requires "partials/" + name in lib.templates && Walk(cur, segs) == Some(v)
    ensures RenderNode(rt, lib, depth + 1, Partial(Some(PartialCall(name, Some(Field(segs))))), cur, first) ==
            RenderNodes(rt, lib, depth, lib.templates["partials/" + name].nodes, v, None)
    ensures RenderNode(rt, lib, depth + 1, Partial(Some(PartialCall(name, None))), cur, first) ==
            RenderNodes(rt, lib, depth, lib.templates["partials/" + name].nodes, cur, None)
  {
  }
}
