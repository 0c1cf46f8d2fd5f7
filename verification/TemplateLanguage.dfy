/** Result templates: the parsed trees and their meaning.
    The renderer below interprets a tree directly. It knows nothing of fresh variables,
    path aliases, the partial stack or the raw-last analysis of the compiler. */
module TemplateLanguage {
  import opened Outcomes

  /** A field path relative to the current value (`this`, `this.a.b` and `a.b`), the
      `@first` flag, or text that is neither. */
  datatype Ref = First | Field(segs: seq<string>) | Malformed

  datatype MessageCall = MessageCall(key: string, args: seq<(string, Ref)>)
  datatype PartialCall = PartialCall(name: string, arg: Option<Ref>)

  /** `Message(None)` and `Partial(None)` are tags whose text has the wrong shape. */
  datatype Node =
    | Literal(text: string)
    | Insert(ref: Ref, filters: seq<string>)
    | Message(message: Option<MessageCall>)
    | Partial(partial: Option<PartialCall>)
    | If(unless: bool, cond: Ref, body: seq<Node>, rest: Chain)
    | Each(list: Ref, body: seq<Node>)
    | Switch(subject: Ref, prefix: seq<string>, cases: seq<Case>)

  datatype Chain =
    | NoElse
    | Else(body: seq<Node>)
    | ElseIf(cond: Ref, body: seq<Node>, rest: Chain)

  datatype Case = Case(names: seq<string>, body: seq<Node>)

  datatype Template = Template(view: string, nodes: seq<Node>)
  type Templates = map<string, Template>

  /** A catalog message: its parameters and, for a select message, the selecting one. */
  datatype Definition = Definition(parameters: seq<string>, select: Option<string>)
  type Definitions = map<string, Definition>

  function PartialKey(name: string): string {
    "partials/" + name
  }

  /** The filter table: template filter to runtime helper. */
  const HELPERS: map<string, string> := map[
    "inline" := "inline", "quote" := "quote", "cell" := "cell", "line" := "line",
    "code" := "code", "text" := "text", "raw_last" := "rawLast"]

  // ---------- Values ----------

  datatype Val =
    | Undefined
    | Null
    | Bool(b: bool)
    | Num(n: real)
    | Str(s: string)
    | List(items: seq<Val>)
    | Obj(fields: map<string, Val>)

  /** Property access; None is the exception for undefined and null. */
  function GetField(v: Val, name: string): Option<Val> {
    match v
    case Undefined => None
    case Null => None
    case Obj(fields) => Some(if name in fields then fields[name] else Undefined)
    case List(items) => Some(if name == "length" then Num(|items| as real) else Undefined)
    case Str(s) => Some(if name == "length" then Num(|s| as real) else Undefined)
    case _ => Some(Undefined)
  }

  function Walk(v: Val, segs: seq<string>): Option<Val>
    decreases segs
  {
    if segs == [] then Some(v)
    else match GetField(v, segs[0])
         case None => None
         case Some(w) => Walk(w, segs[1..])
  }

  /** JavaScript's Boolean(value). */
  predicate JsTrue(v: Val) {
    match v
    case Undefined => false
    case Null => false
    case Bool(b) => b
    case Num(n) => n != 0.0
    case Str(s) => s != ""
    case _ => true
  }

  /** The runtime helper `truthy`: lists by length, count and score wrappers by value. */
  predicate Truthy(v: Val) {
    match v
    case List(items) => items != []
    case Obj(fields) =>
      if "kind" in fields && fields["kind"] in [Str("count"), Str("score")]
      then !("value" in fields && fields["value"] == Num(0.0))
      else true
    case _ => JsTrue(v)
  }

  /** A condition compiles to `(v && truthy(v))`. */
  predicate Holds(v: Val) {
    JsTrue(v) && Truthy(v)
  }

  /** The label that `kind(value)` pairs with its value. */
  function KindLabel(v: Val): Option<Val> {
    if v.Str? then Some(v) else GetField(v, "kind")
  }

  // ---------- Runs ----------

  /** One `out +=` with its origin: raw exactly for the raw_last filter. */
  datatype Segment = Segment(text: string, raw: bool)

  datatype Status = Finished | Threw | TooDeep

  /** What an execution appended, up to its end or its first exception. */
  datatype Run = Run(trace: seq<Segment>, status: Status) {
    function Then(next: Run): Run {
      if status.Finished? then Run(trace + next.trace, next.status) else this
    }
  }

  lemma ThenAssociates(a: Run, b: Run, c: Run)
    ensures a.Then(b).Then(c) == a.Then(b.Then(c))
  {
    assert (a.trace + b.trace) + c.trace == a.trace + (b.trace + c.trace);
  }

  const NOTHING := Run([], Finished)
  const EXCEPTION := Run([], Threw)

  function Wrote(text: string, raw: bool): Run {
    Run([Segment(text, raw)], Finished)
  }

  function WroteLiteral(text: string): Run {
    if text == "" then NOTHING else Wrote(text, false)
  }

  /** The string a run has built. */
  function Text(trace: seq<Segment>): string {
    if trace == [] then "" else trace[0].text + Text(trace[1..])
  }

  /** A message argument: its parameter, whether it selects the variant, its value. */
  datatype Argument = Argument(name: string, selects: bool, value: Val)

  /** Helpers and catalog of the render context. None is an exception. */
  datatype Runtime = Runtime(
    format: (string, Val) -> Option<string>,
    message: (string, seq<Argument>) -> Option<string>)

  function WroteOption(text: Option<string>, raw: bool): Run {
    match text
    case None => EXCEPTION
    case Some(s) => Wrote(s, raw)
  }

  // ---------- The direct interpreter ----------

  function Lookup(ref: Ref, cur: Val, first: Option<bool>): Option<Val> {
    match ref
    case First => if first.Some? then Some(Bool(first.value)) else None
    case Field(segs) => Walk(cur, segs)
    case Malformed => None
  }

  function FilterName(filters: seq<string>): string {
    if filters == [] then "inline" else filters[0]
  }

  function RenderInsert(rt: Runtime, ref: Ref, filters: seq<string>, cur: Val, first: Option<bool>): Run {
    match Lookup(ref, cur, first)
    case None => EXCEPTION
    case Some(v) =>
      var filter := FilterName(filters);
      if filter !in HELPERS then EXCEPTION
      else WroteOption(rt.format(HELPERS[filter], v), filter == "raw_last")
  }

  /** The selecting parameter of a select message gets its own conversion. */
  predicate Selects(definition: Definition, name: string) {
    definition.select == Some(name)
  }

  function LookupArgs(definition: Definition, args: seq<(string, Ref)>, cur: Val, first: Option<bool>): Option<seq<Argument>> {
    if args == [] then Some([])
    else
      match (Lookup(args[0].1, cur, first), LookupArgs(definition, args[1..], cur, first))
      case (Some(v), Some(rest)) => Some([Argument(args[0].0, Selects(definition, args[0].0), v)] + rest)
      case _ => None
  }

  function RenderMessage(rt: Runtime, definitions: Definitions, call: Option<MessageCall>, cur: Val, first: Option<bool>): Run {
    if call.None? || call.value.key !in definitions then EXCEPTION
    else
      match LookupArgs(definitions[call.value.key], call.value.args, cur, first)
      case None => EXCEPTION
      case Some(args) => WroteOption(rt.message(call.value.key, args), false)
  }

  function RenderPrefix(prefix: seq<string>): Run {
    if prefix == [] then NOTHING
    else WroteLiteral(prefix[0]).Then(RenderPrefix(prefix[1..]))
  }

  /** The catalog and the template files. */
  datatype Library = Library(templates: Templates, definitions: Definitions)

  function RenderNodes(rt: Runtime, lib: Library, depth: nat, nodes: seq<Node>, cur: Val, first: Option<bool>): Run
    decreases depth, nodes, 0
  {
    if nodes == [] then NOTHING
    else RenderNode(rt, lib, depth, nodes[0], cur, first).Then(
           RenderNodes(rt, lib, depth, nodes[1..], cur, first))
  }

  function RenderNode(rt: Runtime, lib: Library, depth: nat, node: Node, cur: Val, first: Option<bool>): Run
    decreases depth, node, 0
  {
    match node
    case Literal(text) => WroteLiteral(text)
    case Insert(ref, filters) => RenderInsert(rt, ref, filters, cur, first)
    case Message(call) => RenderMessage(rt, lib.definitions, call, cur, first)
    case Partial(call) =>
      if call.None? || PartialKey(call.value.name) !in lib.templates then EXCEPTION
      else
        var arg := if call.value.arg.Some? then call.value.arg.value else Field([]);
        (match Lookup(arg, cur, first)
         case None => EXCEPTION
         case Some(v) =>
           if depth == 0 then Run([], TooDeep)
           else RenderNodes(rt, lib, depth - 1, lib.templates[PartialKey(call.value.name)].nodes, v, None))
    case If(unless, cond, body, rest) =>
      (match Lookup(cond, cur, first)
       case None => EXCEPTION
       case Some(v) =>
         if Holds(v) != unless then RenderNodes(rt, lib, depth, body, cur, first)
         else RenderChain(rt, lib, depth, rest, cur, first))
    case Each(list, body) =>
      (match Lookup(list, cur, first)
       case Some(List(items)) => RenderItems(rt, lib, depth, body, items, 0)
       case _ => EXCEPTION)
    case Switch(subject, prefix, cases) =>
      RenderPrefix(prefix).Then(RenderKind(rt, lib, depth, subject, cases, cur, first))
  }

  function RenderKind(rt: Runtime, lib: Library, depth: nat, subject: Ref, cases: seq<Case>, cur: Val, first: Option<bool>): Run
    decreases depth, cases, 1
  {
    match Lookup(subject, cur, first)
    case None => EXCEPTION
    case Some(v) =>
      match KindLabel(v)
      case None => EXCEPTION
      case Some(tag) => RenderCases(rt, lib, depth, cases, tag, cur, first)
  }

  function RenderChain(rt: Runtime, lib: Library, depth: nat, chain: Chain, cur: Val, first: Option<bool>): Run
    decreases depth, chain, 0
  {
    match chain
    case NoElse => NOTHING
    case Else(body) => RenderNodes(rt, lib, depth, body, cur, first)
    case ElseIf(cond, body, rest) =>
      match Lookup(cond, cur, first)
      case None => EXCEPTION
      case Some(v) =>
        if Holds(v) then RenderNodes(rt, lib, depth, body, cur, first)
        else RenderChain(rt, lib, depth, rest, cur, first)
  }

  function RenderItems(rt: Runtime, lib: Library, depth: nat, body: seq<Node>, items: seq<Val>, k: nat): Run
    requires k <= |items|
    decreases depth, body, 1 + |items| - k
  {
    if k == |items| then NOTHING
    else RenderNodes(rt, lib, depth, body, items[k], Some(k == 0)).Then(
           RenderItems(rt, lib, depth, body, items, k + 1))
  }

  function RenderCases(rt: Runtime, lib: Library, depth: nat, cases: seq<Case>, tag: Val, cur: Val, first: Option<bool>): Run
    decreases depth, cases, 0
  {
    if cases == [] then EXCEPTION
    else if tag.Str? && tag.s in cases[0].names then RenderNodes(rt, lib, depth, cases[0].body, cur, first)
    else RenderCases(rt, lib, depth, cases[1..], tag, cur, first)
  }
}
