/** The filters of trigger rules: the boolean tree, and the older flat form that it has to stay compatible with. */
module Filters {
  import opened Prelude
  import opened Flatten

  /** Python's `str` of a list or dict, and `str.lower`. */
  datatype Python = Python(str: Json -> string, lower: string -> string)

  predicate Truthy(v: Json) {
    match v
    case Null => false
    case Text(text) => text != ""
    case Scalar(truthy, _) => truthy
    case List(items) => items != []
    case Object(entries) => entries != []
  }

  /** Python's `a or b`. */
  function Or(a: Json, b: Json): Json {
    if Truthy(a) then a else b
  }

  function Str(py: Python, v: Json): string {
    match v
    case Null => "None"
    case Text(text) => text
    case Scalar(_, shown) => shown
    case List(_) => py.str(v)
    case Object(_) => py.str(v)
  }

  /** What a loop over the value meets; None when the value cannot be looped over. */
  function Items(v: Json): Option<seq<Json>> {
    match v
    case Null => None
    case Text(text) => Some(seq(|text|, i requires 0 <= i < |text| => Text([text[i]])))
    case Scalar(_, _) => None
    case List(items) => Some(items)
    case Object(entries) => Some(seq(|entries|, i requires 0 <= i < |entries| => Text(entries[i].key)))
  }

  /** `flat.get(path, default)` */
  function LookupOr(flat: map<string, Json>, path: string, default: Json): Json {
    if path in flat then flat[path] else default
  }

  predicate Contains(text: string, part: string) {
    exists i :: 0 <= i <= |text| && part <= text[i..]
  }

  /** `text.replace(part, "")` */
  function Cut(text: string, part: string): string
    requires part != ""
  {
    if text == "" then ""
    else if part <= text then Cut(text[|part|..], part)
    else [text[0]] + Cut(text[1..], part)
  }

  // ---------------------------------------------------------------- what the tests read from a payload

  /** The label names, each a text or an object's "name"; None where Python raises on another kind. */
  function NamesOf(labels: seq<Json>): Option<seq<Json>> {
    if labels == [] then Some([]) else
      var before := NamesOf(labels[..|labels| - 1]);
      var tag := Last(labels);
      if before.None? then None
      else if tag.Text? then Some(before.value + [tag])
      else if tag.Object? then Some(before.value + [Attribute(tag, "name", Text(""))])
      else None
  }

  function Attribute(d: Json, key: string, default: Json): Json
    requires d.Object?
  {
    if exists e :: e in d.entries && e.key == key then Get(d, key) else default
  }

  function LabelNames(flat: map<string, Json>): Option<seq<Json>> {
    var labels := Or(Or(Lookup(flat, "labels"), Lookup(flat, "issue.fields.labels")), List([]));
    if labels.List? then NamesOf(labels.items) else Some([])
  }

  function BranchOf(flat: map<string, Json>): Option<Json> {
    var named := Or(Lookup(flat, "branch"), Lookup(flat, "object_attributes.target_branch"));
    var ref := LookupOr(flat, "ref", Text(""));
    if Truthy(named) then Some(named)
    else if ref.Text? then Some(Text(Cut(ref.text, "refs/heads/")))
    else None
  }

  function TitleOf(flat: map<string, Json>): Json {
    Or(Or(Or(Lookup(flat, "title"), Lookup(flat, "issue_title")), Lookup(flat, "object_attributes.title")),
       LookupOr(flat, "issue.fields.summary", Text("")))
  }

  function AuthorOf(flat: map<string, Json>): Json {
    Or(Or(Or(Lookup(flat, "author"), Lookup(flat, "user.username")), Lookup(flat, "object_attributes.author_id")),
       LookupOr(flat, "issue.fields.reporter.name", Text("")))
  }

  // ---------------------------------------------------------------- the boolean tree

  datatype Node = Branch(op: string, conditions: seq<Node>) | Leaf(kind: string, value: Json)

  function HasLabel(flat: map<string, Json>, wanted: Option<seq<Json>>): Option<bool> {
    var names := LabelNames(flat);
    if names.None? || wanted.None? then None else Some(exists w :: w in wanted.value && w in names.value)
  }

  function OnBranch(flat: map<string, Json>, v: Json): Option<bool> {
    var branch := BranchOf(flat);
    if branch.None? then None else Some(branch.value == v)
  }

  function TitleContains(py: Python, flat: map<string, Json>, part: string): Option<bool> {
    Some(Contains(py.lower(Str(py, TitleOf(flat))), py.lower(part)))
  }

  function NotBy(py: Python, flat: map<string, Json>, authors: Option<seq<Json>>): Option<bool> {
    if authors.None? then None else Some(forall a :: a in authors.value ==> Str(py, a) != Str(py, AuthorOf(flat)))
  }

  /** `_eval_leaf`; None is a Python exception. */
  function EvalLeaf(py: Python, kind: string, v: Json, flat: map<string, Json>): Option<bool> {
    if kind == "labels" then HasLabel(flat, Items(Or(v, List([]))))
    else if kind == "branch" then OnBranch(flat, v)
    else if kind == "title_contains" then TitleContains(py, flat, Str(py, Or(v, Text(""))))
    else if kind == "author_not" then NotBy(py, flat, Items(Or(v, List([]))))
    else Some(true)
  }

  function Not(r: Option<bool>): Option<bool> {
    if r.None? then None else Some(!r.value)
  }

  /** `_eval_filter_node`: an unknown operator lets everything pass. */
  function Eval(py: Python, node: Node, flat: map<string, Json>): Option<bool>
    decreases node, if node.Branch? then |node.conditions| + 1 else 0
  {
    match node
    case Leaf(kind, v) => EvalLeaf(py, kind, v, flat)
    case Branch(op, conditions) =>
      if op == "and" then EvalAll(py, node, flat, 0)
      else if op == "or" then EvalAny(py, node, flat, 0)
      else if op == "not" then Not(EvalAll(py, node, flat, 0))
      else Some(true)
  }

  /** `all(...)` from condition i on: it stops at the first false one, and an exception passes through. */
  function EvalAll(py: Python, node: Node, flat: map<string, Json>, i: nat): Option<bool>
    requires node.Branch? && i <= |node.conditions|
    decreases node, |node.conditions| - i
  {
    if i == |node.conditions| then Some(true) else
      var r := Eval(py, node.conditions[i], flat);
      if r == Some(true) then EvalAll(py, node, flat, i + 1) else r
  }

  function EvalAny(py: Python, node: Node, flat: map<string, Json>, i: nat): Option<bool>
    requires node.Branch? && i <= |node.conditions|
    decreases node, |node.conditions| - i
  {
    if i == |node.conditions| then Some(false) else
      var r := Eval(py, node.conditions[i], flat);
      if r == Some(false) then EvalAny(py, node, flat, i + 1) else r
  }

  // ---------------------------------------------------------------- the flat form

  /** A filter with the keys that the flat form knows; a key may be absent. */
  datatype FlatFilter = FlatFilter(
    labels: Option<Json>,
    branch: Option<Json>,
    titleContains: Option<Json>,
    authorNot: Option<Json>)

  datatype Filter = NoFilter | Tree(node: Node) | Flat(flat: FlatFilter)

  function FlatTitle(py: Python, v: Json, flat: map<string, Json>): Option<bool> {
    if v.Text? then TitleContains(py, flat, v.text) else None
  }

  /** The flat form tests its keys in a fixed order and gives up at the first that fails. */
  function PassesFlat(py: Python, f: FlatFilter, flat: map<string, Json>): Option<bool> {
    var labels := if f.labels.Some? then HasLabel(flat, Items(f.labels.value)) else Some(true);
    if labels != Some(true) then labels else
      var branch := if f.branch.Some? then OnBranch(flat, f.branch.value) else Some(true);
      if branch != Some(true) then branch else
        var title := if f.titleContains.Some? then FlatTitle(py, f.titleContains.value, flat) else Some(true);
        if title != Some(true) then title else
          if f.authorNot.Some? then NotBy(py, flat, Items(f.authorNot.value)) else Some(true)
  }

  /** `_passes_filters` */
  function Passes(py: Python, filter: Filter, payload: Json): Option<bool>
    requires payload.Object?
  {
    var flat := FlatEntries(payload, |payload.entries|, "");
    match filter
    case NoFilter => Some(true)
    case Tree(node) => Eval(py, node, flat)
    case Flat(f) => PassesFlat(py, f, flat)
  }

  // ---------------------------------------------------------------- what the tree means

  /** No leaf of the tree raises on this payload. */
  ghost predicate LeavesAnswer(py: Python, node: Node, flat: map<string, Json>) {
    match node
    case Leaf(kind, v) => EvalLeaf(py, kind, v, flat).Some?
    case Branch(_, conditions) => forall c :: c in conditions ==> LeavesAnswer(py, c, flat)
  }

  /** The tree read as a formula; "not" denies the conjunction of its conditions. */
  ghost predicate Holds(py: Python, node: Node, flat: map<string, Json>) {
    match node
    case Leaf(kind, v) => EvalLeaf(py, kind, v, flat) == Some(true)
    case Branch(op, conditions) =>
      if op == "and" then forall c :: c in conditions ==> Holds(py, c, flat)
      else if op == "or" then exists c :: c in conditions && Holds(py, c, flat)
      else if op == "not" then exists c :: c in conditions && !Holds(py, c, flat)
      else true
  }

  /** Stopping early changes no answer: the evaluator decides the formula. */
  lemma {:induction false} EvalDecidesFormula(py: Python, node: Node, flat: map<string, Json>)
    requires LeavesAnswer(py, node, flat)
    ensures Eval(py, node, flat) == Some(Holds(py, node, flat))
    decreases node, if node.Branch? then |node.conditions| + 1 else 0
  {
    if node.Branch? {
      AllMeans(py, node, flat, 0);
      AnyMeans(py, node, flat, 0);
    }
  }

  lemma {:induction false} AllMeans(py: Python, node: Node, flat: map<string, Json>, i: nat)
    requires node.Branch? && i <= |node.conditions| && LeavesAnswer(py, node, flat)
    ensures EvalAll(py, node, flat, i) == Some(forall c :: c in node.conditions[i..] ==> Holds(py, c, flat))
    decreases node, |node.conditions| - i
  {
    if i < |node.conditions| {
      EvalDecidesFormula(py, node.conditions[i], flat);
      AllMeans(py, node, flat, i + 1);
      assert node.conditions[i..] == [node.conditions[i]] + node.conditions[i + 1..];
    }
  }

  lemma {:induction false} AnyMeans(py: Python, node: Node, flat: map<string, Json>, i: nat)
    requires node.Branch? && i <= |node.conditions| && LeavesAnswer(py, node, flat)
    ensures EvalAny(py, node, flat, i) == Some(exists c :: c in node.conditions[i..] && Holds(py, c, flat))
    decreases node, |node.conditions| - i
  {
    if i < |node.conditions| {
      EvalDecidesFormula(py, node.conditions[i], flat);
      AnyMeans(py, node, flat, i + 1);
      assert node.conditions[i..] == [node.conditions[i]] + node.conditions[i + 1..];
    }
  }

  // ---------------------------------------------------------------- old filters keep their meaning

  function Clause(kind: string, v: Option<Json>): seq<Node> {
    if v.Some? then [Leaf(kind, v.value)] else []
  }

  /** The tree that says the same: the conjunction of the given keys. */
  function AsTree(f: FlatFilter): Node {
    Branch("and", Clause("labels", f.labels) + Clause("branch", f.branch) + Clause("title_contains", f.titleContains)
                  + Clause("author_not", f.authorNot))
  }

  /** The label and author values can be looped over and the title part is a text. */
  predicate WellTyped(f: FlatFilter) {
    && (f.labels.Some? ==> Items(f.labels.value).Some?)
    && (f.titleContains.Some? ==> f.titleContains.value.Text?)
    && (f.authorNot.Some? ==> Items(f.authorNot.value).Some?)
  }

  /**
   * A flat filter and its tree give the same answer on every payload, exceptions included, when its values have
   * the expected kinds; and whenever the flat filter answers at all, the tree gives that answer.
   */
  lemma FlatIsConjunction(py: Python, f: FlatFilter, payload: Json)
    requires payload.Object?
    ensures WellTyped(f) || Passes(py, Flat(f), payload).Some? ==>
              Passes(py, Tree(AsTree(f)), payload) == Passes(py, Flat(f), payload)
  {
    var flat := FlatEntries(payload, |payload.entries|, "");
    TreeTestsInOrder(py, f, flat);
    hide EvalAll, HasLabel, OnBranch, TitleContains, NotBy;
  }

  function Clausewise(py: Python, kind: string, v: Option<Json>, flat: map<string, Json>): Option<bool> {
    if v.Some? then EvalLeaf(py, kind, v.value, flat) else Some(true)
  }

  lemma TreeTestsInOrder(py: Python, f: FlatFilter, flat: map<string, Json>)
    ensures var labels := Clausewise(py, "labels", f.labels, flat);
            var branch := Clausewise(py, "branch", f.branch, flat);
            var title := Clausewise(py, "title_contains", f.titleContains, flat);
            Eval(py, AsTree(f), flat)
            == if labels != Some(true) then labels
               else if branch != Some(true) then branch
               else if title != Some(true) then title
               else Clausewise(py, "author_not", f.authorNot, flat)
  {
    var tree := AsTree(f);
    var a, b, c, d := Clause("labels", f.labels), Clause("branch", f.branch), Clause("title_contains", f.titleContains),
                      Clause("author_not", f.authorNot);
    assert tree.conditions == a + b + c + d;
    assert Eval(py, tree, flat) == EvalAll(py, tree, flat, 0);
    hide Eval, EvalAll, Clausewise, AsTree, Clause;
    ClauseEvaluates(py, tree, flat, [], b + c + d, "labels", f.labels);
    ClauseEvaluates(py, tree, flat, a, c + d, "branch", f.branch);
    ClauseEvaluates(py, tree, flat, a + b, d, "title_contains", f.titleContains);
    ClauseEvaluates(py, tree, flat, a + b + c, [], "author_not", f.authorNot);
    AllTested(py, tree, flat);
  }

  lemma AllTested(py: Python, tree: Node, flat: map<string, Json>)
    requires tree.Branch?
    ensures EvalAll(py, tree, flat, |tree.conditions|) == Some(true)
  {
  }

  lemma ClauseEvaluates(py: Python, tree: Node, flat: map<string, Json>, before: seq<Node>, after: seq<Node>,
                        kind: string, v: Option<Json>)
    requires tree.Branch? && tree.conditions == before + Clause(kind, v) + after
    ensures var r, next := Clausewise(py, kind, v, flat), before + Clause(kind, v);
            EvalAll(py, tree, flat, |before|) == if r == Some(true) then EvalAll(py, tree, flat, |next|) else r
  {
    if v.Some? {
      assert tree.conditions[|before|] == Leaf(kind, v.value);
      assert Eval(py, tree.conditions[|before|], flat) == EvalLeaf(py, kind, v.value, flat);
    }
  }

  /** A null title part: the flat form raises, the tree looks for the empty text and passes. */
  lemma NullTitleDiffers(py: Python, payload: Json)
    requires payload.Object? && py.lower("") == ""
    ensures var f := FlatFilter(None, None, Some(Null), None);
            Passes(py, Flat(f), payload) == None && Passes(py, Tree(AsTree(f)), payload) == Some(true)
  {
    var f := FlatFilter(None, None, Some(Null), None);
    var flat := FlatEntries(payload, |payload.entries|, "");
    var title := py.lower(Str(py, TitleOf(flat)));
    assert "" <= title[0..];
    assert Contains(title, "");
    assert AsTree(f).conditions == [Leaf("title_contains", Null)];
  }
}
