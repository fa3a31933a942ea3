/** The plan-tree model of preprocessing.py: what a node holds (`ExecutionTreeNode`),
    how an operator string is split into a name and a cost annotation, and the walks
    `ExecutionTree` offers over a finished tree (pre-order `dfs`, post-order `traversal`,
    pre-order numbering `finalize_id` and the cost sum `get_cost`).

    A node is a value: its children are the nodes themselves, in order. The parser in
    plan_parser.dfy builds these values; the walks below only read them. */
module ExecutionPlan {
  import opened Text

  /** The four numbers of `(cost=a..b rows=r width=w)`. */
  datatype CostInfo = CostInfo(startupCost: real, totalCost: real, rows: real, width: real)

  /** What `set_operation` leaves on a node: `operation`, `info` and, when there was an
      annotation, the attributes `parse_info` sets. A node without an annotation has no
      cost attributes at all (`costs == None`). */
  datatype Operation = Operation(name: string, info: string, costs: Option<CostInfo>)

  /** An `ExecutionTreeNode`. `id` is 0 until `FinalizeId` numbers the tree. */
  datatype Node = Node(op: Operation, level: nat, conditions: seq<string>, children: seq<Node>, id: int)

  /** What the parser records about one node, children aside. */
  datatype Entry = Entry(op: Operation, level: nat, conditions: seq<string>)

  /** Why parsing a text plan raises. */
  datatype ParseError =
    | EmptyExplanation             // `explanation[0]` on an empty list
    | MalformedAnnotation(text: string)  // `parse_info` could not split or convert the annotation
    | RootPopped(line: string)     // an arrow at column 0 has level 0 and pops the root

  datatype Outcome<T> = Ok(value: T) | Fail(error: ParseError)

  // ---------------------------------------------------------------------------
  // set_operation and parse_info
  // ---------------------------------------------------------------------------

  /** `parse_info`: drop every parenthesis, cut at single spaces into exactly three
      fields, and read the text after `=` (and around `..`) of each as a number. The
      field names themselves are not checked. */
  function ParseInfo(info: string): (r: Option<CostInfo>)
    ensures r.Some? ==> r.value.startupCost >= 0.0 && r.value.totalCost >= 0.0
    ensures r.Some? ==> r.value.rows >= 0.0 && r.value.width >= 0.0
  {
    var fields := Split(Remove(Remove(info, '('), ')'), " ");
    if |fields| != 3 then None
    else
      var cost := Split(fields[0], "..");
      if |cost| < 2 then None
      else
        match (FieldNumber(cost[0]), ParseNumber(cost[1]), FieldNumber(fields[1]), FieldNumber(fields[2]))
        case (Some(a), Some(b), Some(n), Some(w)) => Some(CostInfo(a, b, n, w))
        case _ => None
  }

  /** `float(field.split("=")[1])`, `None` where that raises. */
  function FieldNumber(field: string): (r: Option<real>)
    ensures r.Some? ==> r.value >= 0.0
  {
    var kv := Split(field, "=");
    if |kv| < 2 then None else ParseNumber(kv[1])
  }

  /** One `key=value` field of an annotation. */
  function Field(key: string, value: string): string {
    key + "=" + value
  }

  /** The annotation a planner prints after an operator name:
      `(cost=startup..total rows=rows width=width)`. */
  function Annotation(startup: string, total: string, rows: string, width: string): string {
    "(" + Field("cost", startup + ".." + total) + " " + Field("rows", rows) + " " + Field("width", width) + ")"
  }

  /** `set_operation`: the text before the first double space is the operation, the rest
      is its annotation; without a double space the whole text is the operation. */
  function SetOperation(text: string): (r: Outcome<Operation>)
    ensures r.Ok? ==> !Contains(r.value.name, "  ")
    ensures r.Ok? && r.value.costs.None? ==> r.value == Operation(text, "", None)
    ensures r.Ok? && r.value.costs.Some? ==>
              text == r.value.name + "  " + r.value.info && r.value.costs == ParseInfo(r.value.info)
    ensures r.Fail? ==> r.error == MalformedAnnotation(text)
    ensures Contains(text, "  ") <==> r.Fail? || r.value.costs.Some?
  {
    match Find(text, "  ")
    case None => Ok(Operation(text, "", None))
    case Some(k) =>
      var name, info := text[..k], text[k + 2..];
      NoEarlierOccurrence(text, "  ", k);
      assert text == name + "  " + info;
      match ParseInfo(info)
      case None => Fail(MalformedAnnotation(text))
      case Some(c) => Ok(Operation(name, info, Some(c)))
  }

  /** A prefix that ends before the first occurrence of `sub` does not contain it. */
  lemma {:induction false} NoEarlierOccurrence(s: string, sub: string, k: nat)
    requires |sub| > 0 && Find(s, sub) == Some(k)
    ensures !Contains(s[..k], sub)
  {
    assert FindFrom(s, sub, 0) == Some(k);
    forall j ensures !OccursAt(s[..k], j, sub) {
      if 0 <= j && j + |sub| <= k {
        assert s[..k][j..j + |sub|] == s[j..j + |sub|];
        assert !OccursAt(s, j, sub);
      }
    }
    FindAbsent(s[..k], sub);
  }

  // Round trip: an annotation built from four decimals reads back as those numbers.

  /** A decimal holds no parenthesis, space or `=`. */
  lemma {:induction false} NumberChars(s: string)
    requires ParseNumber(s).Some?
    ensures '(' !in s && ')' !in s && ' ' !in s && '=' !in s
  {
    forall c | c in s ensures IsDigit(c) || c == '.' {
      var i :| 0 <= i < |s| && s[i] == c;
    }
  }

  lemma {:induction false} DropParens(x: string)
    requires '(' !in x && ')' !in x
    ensures Remove(Remove("(" + x + ")", '('), ')') == x
  {
    RemoveConcat("(" + x, ")", '(');
    RemoveConcat("(", x, '(');
    RemoveAbsent(x, '(');
    RemoveAbsent(")", '(');
    assert Remove("(", '(') == "";
    assert Remove("(" + x + ")", '(') == x + ")";
    RemoveConcat(x, ")", ')');
    RemoveAbsent(x, ')');
    assert Remove(")", ')') == "";
  }

  lemma {:induction false} JoinThree(p: string, q: string, u: string, sep: string)
    ensures Join([p, q, u], sep) == p + sep + q + sep + u
  {
    assert [p, q, u][1..] == [q, u];
    assert [q, u][1..] == [u];
    assert Join([u], sep) == u;
    assert Join([q, u], sep) == q + sep + u;
    assert p + sep + (q + sep + u) == p + sep + q + sep + u;
  }

  lemma {:induction false} BareAnnotation(a: string, b: string, n: string, w: string)
    requires '(' !in a + b + n + w && ')' !in a + b + n + w
    ensures Remove(Remove(Annotation(a, b, n, w), '('), ')')
            == Join([Field("cost", a + ".." + b), Field("rows", n), Field("width", w)], " ")
  {
    var p0, p1, p2 := Field("cost", a + ".." + b), Field("rows", n), Field("width", w);
    var x := p0 + " " + p1 + " " + p2;
    assert Annotation(a, b, n, w) == "(" + x + ")";
    DropParens(x);
    JoinThree(p0, p1, p2, " ");
  }

  lemma {:induction false} CostField(a: string, b: string)
    requires ParseNumber(a).Some? && ParseNumber(b).Some?
    ensures Split(Field("cost", a + ".." + b), "..") == [Field("cost", a), b]
  {
    assert Field("cost", a + ".." + b) == Field("cost", a) + ".." + b;
    NoDoubleDotBefore(a, b);
    SplitAfterFirst(Field("cost", a), "..", b);
    NoDoubleDot(b);
  }

  /** The first `..` of `cost=a..b` is the one written after `a`. */
  lemma {:induction false} NoDoubleDotBefore(a: string, b: string)
    requires ParseNumber(a).Some?
    ensures forall j :: j < |Field("cost", a)| ==> !OccursAt(Field("cost", a) + ".." + b, j, "..")
  {
    var head := Field("cost", a);
    var s := head + ".." + b;
    assert head == "cost=" + a;
    forall j | 0 <= j < |head| ensures !OccursAt(s, j, "..") {
      if j < 5 {
        assert s[j] == "cost="[j];
      } else if j + 1 < |head| {
        assert s[j] == a[j - 5] && s[j + 1] == a[j - 4];
        NumberHasNoDoubleDot(a, j - 5);
      } else {
        assert s[j] == a[|a| - 1];
      }
      NoPairAt(s, j, "..");
    }
  }

  /** A decimal has no `..`, so cutting it at `..` leaves it whole. */
  lemma {:induction false} NoDoubleDot(b: string)
    requires ParseNumber(b).Some?
    ensures Split(b, "..") == [b]
  {
    forall j | 0 <= j && j + 2 <= |b| ensures !OccursAt(b, j, "..") {
      NumberHasNoDoubleDot(b, j);
      NoPairAt(b, j, "..");
    }
    FindAbsent(b, "..");
  }

  /** `float(field.split("=")[1])` on `key=value` reads `value`. */
  lemma {:induction false} NamedField(key: string, value: string)
    requires '=' !in key && ParseNumber(value).Some?
    ensures FieldNumber(Field(key, value)) == ParseNumber(value)
  {
    NumberChars(value);
    assert Join([key, value], "=") == Field(key, value) by {
      assert [key, value][1..] == [value];
    }
    JoinThenSplit([key, value], "=");
  }

  /** How `parse_info` reads an annotation once its fields are known. */
  lemma {:induction false} ParseInfoFromFields(info: string, f0: string, f1: string, f2: string, c0: string, c1: string)
    requires Split(Remove(Remove(info, '('), ')'), " ") == [f0, f1, f2]
    requires Split(f0, "..") == [c0, c1]
    requires FieldNumber(c0).Some? && ParseNumber(c1).Some?
    requires FieldNumber(f1).Some? && FieldNumber(f2).Some?
    ensures ParseInfo(info) == Some(CostInfo(FieldNumber(c0).value, ParseNumber(c1).value,
                                             FieldNumber(f1).value, FieldNumber(f2).value))
  {
  }

  /** The three space-separated fields of an annotation, parentheses dropped. */
  lemma {:induction false} AnnotationFields(a: string, b: string, n: string, w: string)
    requires ParseNumber(a).Some? && ParseNumber(b).Some?
    requires ParseNumber(n).Some? && ParseNumber(w).Some?
    ensures Split(Remove(Remove(Annotation(a, b, n, w), '('), ')'), " ")
            == [Field("cost", a + ".." + b), Field("rows", n), Field("width", w)]
  {
    var f0, f1, f2 := Field("cost", a + ".." + b), Field("rows", n), Field("width", w);
    NumberChars(a);
    NumberChars(b);
    NumberChars(n);
    NumberChars(w);
    assert '(' !in a + b + n + w && ')' !in a + b + n + w;
    BareAnnotation(a, b, n, w);
    assert ' ' !in f0 && ' ' !in f1 && ' ' !in f2;
    JoinThenSplit([f0, f1, f2], " ");
  }

  /** `parse_info` reads back the four numbers of an annotation a planner writes. */
  lemma {:induction false} AnnotationRoundTrip(a: string, b: string, n: string, w: string)
    requires ParseNumber(a).Some? && ParseNumber(b).Some?
    requires ParseNumber(n).Some? && ParseNumber(w).Some?
    ensures ParseInfo(Annotation(a, b, n, w))
            == Some(CostInfo(ParseNumber(a).value, ParseNumber(b).value,
                             ParseNumber(n).value, ParseNumber(w).value))
  {
    AnnotationFields(a, b, n, w);
    CostField(a, b);
    NamedField("cost", a);
    NamedField("rows", n);
    NamedField("width", w);
    ParseInfoFromFields(Annotation(a, b, n, w), Field("cost", a + ".." + b), Field("rows", n),
                        Field("width", w), Field("cost", a), b);
  }

  /** `set_operation` on a planner line `name  (cost=a..b rows=r width=w)`. */
  lemma {:induction false} SetOperationRoundTrip(name: string, a: string, b: string, n: string, w: string)
    requires !Contains(name + " ", "  ")
    requires ParseNumber(a).Some? && ParseNumber(b).Some?
    requires ParseNumber(n).Some? && ParseNumber(w).Some?
    ensures SetOperation(name + "  " + Annotation(a, b, n, w))
            == Ok(Operation(name, Annotation(a, b, n, w),
                            Some(CostInfo(ParseNumber(a).value, ParseNumber(b).value,
                                          ParseNumber(n).value, ParseNumber(w).value))))
  {
    var info := Annotation(a, b, n, w);
    FirstDoubleSpace(name, info);
    AnnotationRoundTrip(a, b, n, w);
  }

  /** The double space written after a name without one is the first. */
  lemma {:induction false} FirstDoubleSpace(name: string, info: string)
    requires !Contains(name + " ", "  ")
    ensures Find(name + "  " + info, "  ") == Some(|name|)
    ensures (name + "  " + info)[..|name|] == name && (name + "  " + info)[|name| + 2..] == info
  {
    var s := name + "  " + info;
    var t := name + " ";
    forall j | 0 <= j < |name| ensures !OccursAt(s, j, "  ") {
      assert !OccursAt(t, j, "  ");
      if j + 1 < |name| {
        NoPairAt(s, j, "  ") by {
          assert t[j..j + 2][0] == s[j] && t[j..j + 2][1] == s[j + 1];
        }
      } else {
        assert s[j] == name[j] == t[j];
        NoPairAt(s, j, "  ") by {
          assert t[j..j + 2][0] == s[j];
        }
      }
    }
    assert s[|name|..|name| + 2] == "  ";
    FindIsFirst(s, "  ", |name|);
  }

  // ---------------------------------------------------------------------------
  // get_text and parse_condition
  // ---------------------------------------------------------------------------

  /** The operator keywords `get_text` looks for, in the lower-cased operation. */
  predicate HasKnownOperator(op: string) {
    Contains(op, "aggregate") || Contains(op, "hash") || Contains(op, "merge join")
    || Contains(op, "nested loop") || Contains(op, "seq scan") || Contains(op, "index scan")
    || Contains(op, "bitmap heap scan") || Contains(op, "sort") || Contains(op, "gather merge")
    || Contains(op, "materialize") || Contains(op, "append") || Contains(op, "unique")
    || Contains(op, "group") || Contains(op, "window") || Contains(op, "limit")
  }

  /** `get_text`: the relational-algebra symbol drawn inside a node; the first keyword of
      the list that occurs in the lower-cased operation decides, and "o" is the fallback. */
  function GetText(operation: string): (r: string)
    ensures r == "o" <==> !HasKnownOperator(Lower(operation))
    ensures Contains(Lower(operation), "aggregate") ==> r == "γ"
  {
    var op := Lower(operation);
    if Contains(op, "aggregate") then "γ"
    else if Contains(op, "hash") && Contains(op, "join") then "⋈ₕ"
    else if Contains(op, "merge join") then "⋈ₘ"
    else if Contains(op, "nested loop") then "⋈ₙ"
    else if Contains(op, "seq scan") then "σ"
    else if Contains(op, "index scan") then "σᵢ"
    else if Contains(op, "bitmap heap scan") then "σᵦ"
    else if Contains(op, "sort") then "τ"
    else if Contains(op, "hash") && !Contains(op, "join") then "H"
    else if Contains(op, "gather merge") then "γₘ"
    else if Contains(op, "materialize") then "M"
    else if Contains(op, "append") then "∪"
    else if Contains(op, "unique") then "δ"
    else if Contains(op, "group") then "γ"
    else if Contains(op, "window") then "ω"
    else if Contains(op, "limit") then "L"
    else "o"
  }

  /** The key of a condition line: `cond.split(":")[0].strip()`. */
  function ConditionKey(cond: string): (r: string)
    ensures Find(cond, ":").None? ==> r == Strip(cond)
    ensures Find(cond, ":").Some? ==> r == Strip(cond[..Find(cond, ":").value])
  {
    Strip(Split(cond, ":")[0])
  }

  /** The value of a condition line: `":".join(cond.split(":")[1:])`. */
  function ConditionValue(cond: string): (r: string)
    ensures Find(cond, ":").None? ==> r == ""
    ensures Find(cond, ":").Some? ==> r == cond[Find(cond, ":").value + 1..]
  {
    var parts := Split(cond, ":");
    match Find(cond, ":")
    case None => Join(parts[1..], ":")
    case Some(k) =>
      assert parts[1..] == Split(cond[k + 1..], ":");
      SplitThenJoin(cond[k + 1..], ":");
      Join(parts[1..], ":")
  }

  /** The phrase `parse_condition` puts before the value, by the kind of the key: the text
      before the first "Key" or "Cond" of the key names the operation. */
  function PhraseHead(key: string): (r: string)
    ensures Contains(key, "Filter") ==> r == " and `filtering`"
    ensures !Contains(key, "Filter") && Contains(key, "Key") ==>
              r == " and do `" + Strip(key[..Find(key, "Key").value]) + "`"
    ensures !Contains(key, "Filter") && !Contains(key, "Key") && Contains(key, "Cond") ==>
              r == " and do `" + Strip(key[..Find(key, "Cond").value]) + "` with condition"
    ensures !Contains(key, "Filter") && !Contains(key, "Key") && !Contains(key, "Cond") ==>
              r == " with condition `" + key + "`"
  {
    if Contains(key, "Filter") then
      " and `filtering`"
    else if Contains(key, "Key") then
      SplitFirst(key, "Key");
      var r := " and do `" + Strip(Split(key, "Key")[0]) + "`";
      r
    else if Contains(key, "Cond") then
      SplitFirst(key, "Cond");
      var r := " and do `" + Strip(Split(key, "Cond")[0]) + "` with condition";
      r
    else
      var r := " with condition `" + key + "`";
      r
  }

  /** Every phrase head is at least five characters long and opens with " and " exactly
      for a filter, key or condition key. */
  lemma {:induction false} PhraseOpening(key: string)
    ensures |PhraseHead(key)| >= 5
    ensures PhraseHead(key)[..5] == " and " <==>
              Contains(key, "Filter") || Contains(key, "Key") || Contains(key, "Cond")
  {
    var r := PhraseHead(key);
    if !Contains(key, "Filter") && !Contains(key, "Key") && !Contains(key, "Cond") {
      assert r[1] == 'w' && " and "[1] == 'a';
    }
  }

  /** `parse_condition`: a condition line as a phrase, by the kind of its key. The phrase is
      the key's phrase head followed by " on `value`", nothing more; it opens with " and "
      exactly for a filter, key or condition line. */
  function ParseCondition(cond: string): (r: string)
    ensures StartsWith(r, PhraseHead(ConditionKey(cond)))
    ensures EndsWith(r, " on `" + ConditionValue(cond) + "`")
    ensures |r| == |PhraseHead(ConditionKey(cond))| + |ConditionValue(cond)| + 6
    ensures StartsWith(r, " and ") <==> var key := ConditionKey(cond);
              Contains(key, "Filter") || Contains(key, "Key") || Contains(key, "Cond")
  {
    var head := PhraseHead(ConditionKey(cond));
    var tail := " on `" + ConditionValue(cond) + "`";
    PhraseOpening(ConditionKey(cond));
    PhraseShape(head, tail);
    head + tail
  }

  lemma {:induction false} PhraseShape(head: string, tail: string)
    requires |head| >= 5
    ensures StartsWith(head + tail, head)
    ensures EndsWith(head + tail, tail)
    ensures StartsWith(head + tail, " and ") <==> head[..5] == " and "
  {
    assert (head + tail)[..|head|] == head;
    assert (head + tail)[|head|..] == tail;
    assert (head + tail)[..5] == head[..5];
  }

  // ---------------------------------------------------------------------------
  // Building nodes: the constructor, add_child and add_condition
  // ---------------------------------------------------------------------------

  /** A fresh `ExecutionTreeNode` after `set_level` and `set_operation`: no conditions, no
      children, a tree of one node. */
  function Leaf(op: Operation, level: nat): (r: Node)
    ensures r.op == op && r.level == level && r.id == 0
    ensures r.conditions == [] && r.children == []
    ensures Size(r) == 1 && Nested(r)
  {
    Node(op, level, [], [], 0)
  }

  /** `add_child`: append at the end of the child list; nothing else changes. */
  function AddChild(n: Node, child: Node): (r: Node)
    ensures r.children == n.children + [child] && r.children[|n.children|] == child
    ensures r.op == n.op && r.level == n.level && r.conditions == n.conditions && r.id == n.id
  {
    n.(children := n.children + [child])
  }

  /** `add_condition`: append the stripped condition at the end of the condition list;
      nothing else changes. */
  function AddCondition(n: Node, cond: string): (r: Node)
    ensures r.conditions == n.conditions + [Strip(cond)]
    ensures r.op == n.op && r.level == n.level && r.children == n.children && r.id == n.id
  {
    n.(conditions := n.conditions + [Strip(cond)])
  }

  function Label(n: Node): Entry {
    Entry(n.op, n.level, n.conditions)
  }

  function Labels(ns: seq<Node>): (r: seq<Entry>)
    ensures |r| == |ns| && forall i :: 0 <= i < |ns| ==> r[i] == Label(ns[i])
  {
    seq(|ns|, i requires 0 <= i < |ns| => Label(ns[i]))
  }

  lemma {:induction false} LabelsConcat(a: seq<Node>, b: seq<Node>)
    ensures Labels(a + b) == Labels(a) + Labels(b)
  {
  }

  // ---------------------------------------------------------------------------
  // Size, dfs and traversal
  // ---------------------------------------------------------------------------

  function Size(t: Node): nat
    decreases t, 1
  {
    1 + SizeAll(t.children)
  }

  function SizeAll(ts: seq<Node>): nat
    decreases ts, 0
  {
    if ts == [] then 0 else Size(ts[0]) + SizeAll(ts[1..])
  }

  /** `dfs`/`_dfs`: every node, each before its children, children left to right. */
  function Dfs(t: Node): (r: seq<Node>)
    decreases t, 1
    ensures |r| == Size(t) && r[0] == t
  {
    [t] + DfsAll(t.children)
  }

  function DfsAll(ts: seq<Node>): (r: seq<Node>)
    decreases ts, 0
    ensures |r| == SizeAll(ts)
  {
    if ts == [] then [] else Dfs(ts[0]) + DfsAll(ts[1..])
  }

  /** `traversal`/`_traversal`: every node, each after its children, children left to right. */
  function Traversal(t: Node): (r: seq<Node>)
    decreases t, 1
    ensures |r| == Size(t) && r[|r| - 1] == t
  {
    TraversalAll(t.children) + [t]
  }

  function TraversalAll(ts: seq<Node>): (r: seq<Node>)
    decreases ts, 0
    ensures |r| == SizeAll(ts)
  {
    if ts == [] then [] else Traversal(ts[0]) + TraversalAll(ts[1..])
  }

  /** The pre-order entries of a tree (operation, level and conditions of each node, in
      `dfs` order): what the parser is specified by. */
  function PreOrder(t: Node): seq<Entry>
    decreases t, 1
  {
    [Label(t)] + PreOrderAll(t.children)
  }

  function PreOrderAll(ts: seq<Node>): seq<Entry>
    decreases ts, 0
  {
    if ts == [] then [] else PreOrder(ts[0]) + PreOrderAll(ts[1..])
  }

  /** The pre-order entries are the labels of `dfs`, in order. */
  lemma {:induction false} PreOrderIsDfs(t: Node)
    ensures PreOrder(t) == Labels(Dfs(t))
    decreases t, 1
  {
    PreOrderAllIsDfsAll(t.children);
    LabelsConcat([t], DfsAll(t.children));
  }

  lemma {:induction false} PreOrderAllIsDfsAll(ts: seq<Node>)
    ensures PreOrderAll(ts) == Labels(DfsAll(ts))
    decreases ts, 0
  {
    if ts != [] {
      PreOrderIsDfs(ts[0]);
      PreOrderAllIsDfsAll(ts[1..]);
      LabelsConcat(Dfs(ts[0]), DfsAll(ts[1..]));
    }
  }

  lemma {:induction false} PreOrderAllAppend(ts: seq<Node>, u: Node)
    ensures PreOrderAll(ts + [u]) == PreOrderAll(ts) + PreOrder(u)
    decreases |ts|
  {
    if ts != [] {
      assert (ts + [u])[1..] == ts[1..] + [u];
      PreOrderAllAppend(ts[1..], u);
    } else {
      assert ([u])[1..] == [];
    }
  }

  lemma {:induction false} SizeAllAppend(ts: seq<Node>, u: Node)
    ensures SizeAll(ts + [u]) == SizeAll(ts) + Size(u)
    decreases |ts|
  {
    if ts != [] {
      assert (ts + [u])[1..] == ts[1..] + [u];
      SizeAllAppend(ts[1..], u);
    } else {
      assert ([u])[1..] == [];
    }
  }

  lemma {:induction false} DfsAllAppend(ts: seq<Node>, u: Node)
    ensures DfsAll(ts + [u]) == DfsAll(ts) + Dfs(u)
    decreases |ts|
  {
    if ts != [] {
      assert (ts + [u])[1..] == ts[1..] + [u];
      DfsAllAppend(ts[1..], u);
    } else {
      assert ([u])[1..] == [];
    }
  }

  /** Hanging `child` under `n` puts the child's pre-order right after `n`'s. */
  lemma {:induction false} PreOrderAddChild(n: Node, child: Node)
    ensures PreOrder(AddChild(n, child)) == PreOrder(n) + PreOrder(child)
  {
    PreOrderAllAppend(n.children, child);
  }

  /** `dfs` and `traversal` list the same nodes, each as often: only the order differs. */
  lemma {:induction false} SameNodes(t: Node)
    ensures multiset(Dfs(t)) == multiset(Traversal(t))
    decreases t, 1
  {
    SameNodesAll(t.children);
  }

  lemma {:induction false} SameNodesAll(ts: seq<Node>)
    ensures multiset(DfsAll(ts)) == multiset(TraversalAll(ts))
    decreases ts, 0
  {
    if ts != [] {
      SameNodes(ts[0]);
      SameNodesAll(ts[1..]);
    }
  }

  // ---------------------------------------------------------------------------
  // The level structure the parser produces
  // ---------------------------------------------------------------------------

  /** Every child has a greater level than its parent, and siblings never step up in
      level: a later sibling's arrow sits no further right than an earlier one's. */
  predicate Nested(t: Node)
    decreases t
  {
    (forall i :: 0 <= i < |t.children| ==> t.children[i].level > t.level && Nested(t.children[i]))
    && (forall i :: 0 < i < |t.children| ==> t.children[i].level <= t.children[i - 1].level)
  }

  /** Along every path from the root, levels strictly increase. */
  lemma {:induction false} NestedLevelsIncrease(t: Node, k: nat)
    requires Nested(t) && 0 < k < Size(t)
    ensures Dfs(t)[k].level > t.level
    decreases t, 1
  {
    NestedLevelsIncreaseAll(t.children, t.level, k - 1);
  }

  lemma {:induction false} NestedLevelsIncreaseAll(ts: seq<Node>, parent: nat, k: nat)
    requires forall i :: 0 <= i < |ts| ==> ts[i].level > parent && Nested(ts[i])
    requires k < SizeAll(ts)
    ensures DfsAll(ts)[k].level > parent
    decreases ts, 0
  {
    var head := Dfs(ts[0]);
    if k < |head| {
      if k > 0 { NestedLevelsIncrease(ts[0], k); }
    } else {
      NestedLevelsIncreaseAll(ts[1..], parent, k - |head|);
    }
  }

  // ---------------------------------------------------------------------------
  // finalize_id
  // ---------------------------------------------------------------------------

  /** The tree with every id reset, to say that numbering changes nothing else. */
  function Erase(t: Node): Node
    decreases t
  {
    t.(id := 0, children := seq(|t.children|, i requires 0 <= i < |t.children| => Erase(t.children[i])))
  }

  function EraseAll(ts: seq<Node>): seq<Node> {
    seq(|ts|, i requires 0 <= i < |ts| => Erase(ts[i]))
  }

  function Ids(ns: seq<Node>): (r: seq<int>)
    ensures |r| == |ns|
  {
    seq(|ns|, i requires 0 <= i < |ns| => ns[i].id)
  }

  /** The integers from `lo` up to but not including `hi`. */
  function Range(lo: int, hi: int): (r: seq<int>)
    requires lo <= hi
    ensures |r| == hi - lo && forall i :: 0 <= i < |r| ==> r[i] == lo + i
  {
    seq(hi - lo, i requires 0 <= i < hi - lo => lo + i)
  }

  /** `numbered` is `done` renumbered in pre-order from `currId + 1` up to `id`. */
  predicate NumberedFrom(numbered: seq<Node>, done: seq<Node>, currId: int, id: int) {
    EraseAll(numbered) == EraseAll(done) && id == currId + SizeAll(done)
    && Ids(DfsAll(numbered)) == Range(currId + 1, id + 1)
  }

  /** One turn of the loop in `finalize_id`: numbering the next child right after the
      children already numbered keeps the ids consecutive. */
  lemma {:induction false} NumberingStep(numbered: seq<Node>, child: Node, done: seq<Node>, c: Node,
                      currId: int, id: int, childLast: int)
    requires NumberedFrom(numbered, done, currId, id)
    requires Erase(child) == Erase(c) && childLast == id + Size(c)
    requires Ids(Dfs(child)) == Range(id + 1, childLast + 1)
    ensures NumberedFrom(numbered + [child], done + [c], currId, childLast)
  {
    SizeAllAppend(done, c);
    DfsAllAppend(numbered, child);
    IdsConcat(DfsAll(numbered), Dfs(child));
    EraseAllAppend(numbered, child);
    EraseAllAppend(done, c);
    RangeConcat(currId + 1, id + 1, childLast + 1);
  }

  /** `finalize_id`: number the tree in pre-order from `currId` and return the last id given. */
  method FinalizeId(t: Node, currId: int) returns (r: Node, last: int)
    decreases t
    ensures Erase(r) == Erase(t)
    ensures last == currId + Size(t) - 1
    ensures Ids(Dfs(r)) == Range(currId, last + 1)
  {
    var id := currId;
    var numbered: seq<Node> := [];
    var i := 0;
    while i < |t.children|
      invariant 0 <= i <= |t.children|
      invariant NumberedFrom(numbered, t.children[..i], currId, id)
    {
      var child, childLast := FinalizeId(t.children[i], id + 1);
      NumberingStep(numbered, child, t.children[..i], t.children[i], currId, id, childLast);
      assert t.children[..i + 1] == t.children[..i] + [t.children[i]];
      numbered := numbered + [child];
      id := childLast;
      i := i + 1;
    }
    assert t.children[..i] == t.children;
    r := t.(id := currId, children := numbered);
    last := id;
    NumberedRoot(t, currId, numbered, id);
  }

  /** After the loop of `finalize_id`: the node takes `currId`, just before its children's ids. */
  lemma {:induction false} NumberedRoot(t: Node, currId: int, numbered: seq<Node>, id: int)
    requires NumberedFrom(numbered, t.children, currId, id)
    ensures Erase(t.(id := currId, children := numbered)) == Erase(t)
    ensures id == currId + Size(t) - 1
    ensures Ids(Dfs(t.(id := currId, children := numbered))) == Range(currId, id + 1)
  {
    var r := t.(id := currId, children := numbered);
    assert Erase(r).children == EraseAll(numbered);
    assert Erase(t).children == EraseAll(t.children);
    IdsConcat([r], DfsAll(numbered));
    RangeConcat(currId, currId + 1, id + 1);
  }

  lemma {:induction false} IdsConcat(a: seq<Node>, b: seq<Node>)
    ensures Ids(a + b) == Ids(a) + Ids(b)
  {
  }

  lemma {:induction false} EraseAllAppend(ts: seq<Node>, u: Node)
    ensures EraseAll(ts + [u]) == EraseAll(ts) + [Erase(u)]
  {
  }

  lemma {:induction false} RangeConcat(lo: int, mid: int, hi: int)
    requires lo <= mid <= hi
    ensures Range(lo, mid) + Range(mid, hi) == Range(lo, hi)
  {
  }

  // ---------------------------------------------------------------------------
  // get_cost
  // ---------------------------------------------------------------------------

  /** Every node carries the cost attributes `parse_info` sets. */
  predicate AllCosted(t: Node)
    decreases t
  {
    t.op.costs.Some? && forall i :: 0 <= i < |t.children| ==> AllCosted(t.children[i])
  }

  function TotalOf(n: Node): real {
    if n.op.costs.Some? then n.op.costs.value.totalCost else 0.0
  }

  function StartupOf(n: Node): real {
    if n.op.costs.Some? then n.op.costs.value.startupCost else 0.0
  }

  /** The sum of `f` over a list of nodes, in list order. */
  function SumOf(ns: seq<Node>, f: Node -> real): real {
    if ns == [] then 0.0 else SumOf(ns[..|ns| - 1], f) + f(ns[|ns| - 1])
  }

  /** The sum of `f` over every node of a tree, by its structure. */
  function TreeSum(t: Node, f: Node -> real): real
    decreases t, 1
  {
    f(t) + SumSeq(ChildSums(t.children, f))
  }

  function SumSeq(xs: seq<real>): real {
    if xs == [] then 0.0 else xs[0] + SumSeq(xs[1..])
  }

  lemma {:induction false} SumOfConcat(a: seq<Node>, b: seq<Node>, f: Node -> real)
    ensures SumOf(a + b, f) == SumOf(a, f) + SumOf(b, f)
    decreases |b|
  {
    if b == [] {
      assert a + b == a;
    } else {
      assert (a + b)[..|a + b| - 1] == a + b[..|b| - 1];
      SumOfConcat(a, b[..|b| - 1], f);
    }
  }

  lemma {:induction false} SumSeqConcat(a: seq<real>, b: seq<real>)
    ensures SumSeq(a + b) == SumSeq(a) + SumSeq(b)
    decreases |a|
  {
    if a != [] {
      assert (a + b)[1..] == a[1..] + b;
      SumSeqConcat(a[1..], b);
    } else {
      assert a + b == b;
    }
  }

  lemma {:induction false} SumOfPrefix(ns: seq<Node>, i: nat, f: Node -> real)
    requires i < |ns|
    ensures SumOf(ns[..i + 1], f) == SumOf(ns[..i], f) + f(ns[i])
  {
    assert ns[..i + 1][..i] == ns[..i];
  }

  /** Summing over the post-order list gives the structural sum. */
  lemma {:induction false} TraversalSum(t: Node, f: Node -> real)
    ensures SumOf(Traversal(t), f) == TreeSum(t, f)
    decreases t, 1
  {
    TraversalSumAll(t.children, f);
    SumOfConcat(TraversalAll(t.children), [t], f);
    assert SumOf([t], f) == f(t) by { assert ([t])[..0] == []; }
  }

  function ChildSums(ts: seq<Node>, f: Node -> real): seq<real>
    decreases ts, 0
  {
    seq(|ts|, i requires 0 <= i < |ts| => TreeSum(ts[i], f))
  }

  lemma {:induction false} TraversalSumAll(ts: seq<Node>, f: Node -> real)
    ensures SumOf(TraversalAll(ts), f) == SumSeq(ChildSums(ts, f))
    decreases ts, 0
  {
    if ts != [] {
      TraversalSum(ts[0], f);
      TraversalSumAll(ts[1..], f);
      SumOfConcat(Traversal(ts[0]), TraversalAll(ts[1..]), f);
      assert ChildSums(ts, f) == [TreeSum(ts[0], f)] + ChildSums(ts[1..], f);
    }
  }

  /** Summing over the pre-order list gives the structural sum too: the order of the walk
      does not matter. */
  lemma {:induction false} DfsSum(t: Node, f: Node -> real)
    ensures SumOf(Dfs(t), f) == TreeSum(t, f)
    decreases t, 1
  {
    DfsSumAll(t.children, f);
    SumOfConcat([t], DfsAll(t.children), f);
    assert SumOf([t], f) == f(t) by { assert ([t])[..0] == []; }
  }

  lemma {:induction false} DfsSumAll(ts: seq<Node>, f: Node -> real)
    ensures SumOf(DfsAll(ts), f) == SumSeq(ChildSums(ts, f))
    decreases ts, 0
  {
    if ts != [] {
      DfsSum(ts[0], f);
      DfsSumAll(ts[1..], f);
      SumOfConcat(Dfs(ts[0]), DfsAll(ts[1..]), f);
      assert ChildSums(ts, f) == [TreeSum(ts[0], f)] + ChildSums(ts[1..], f);
    }
  }

  /** Every node of a list carries cost attributes. */
  predicate ListCosted(ns: seq<Node>) {
    forall k :: 0 <= k < |ns| ==> ns[k].op.costs.Some?
  }

  lemma {:induction false} ListCostedConcat(a: seq<Node>, b: seq<Node>)
    ensures ListCosted(a + b) <==> ListCosted(a) && ListCosted(b)
  {
    assert forall k :: 0 <= k < |a| ==> (a + b)[k] == a[k];
    assert forall k :: 0 <= k < |b| ==> (a + b)[|a| + k] == b[k];
  }

  /** A tree is fully costed exactly when every node of its post-order list is. */
  lemma {:induction false} AllCostedTraversal(t: Node)
    ensures AllCosted(t) <==> ListCosted(Traversal(t))
    decreases t, 1
  {
    AllCostedTraversalAll(t.children);
    ListCostedConcat(TraversalAll(t.children), [t]);
  }

  lemma {:induction false} AllCostedTraversalAll(ts: seq<Node>)
    ensures (forall i :: 0 <= i < |ts| ==> AllCosted(ts[i])) <==> ListCosted(TraversalAll(ts))
    decreases ts, 0
  {
    if ts != [] {
      AllCostedTraversal(ts[0]);
      AllCostedTraversalAll(ts[1..]);
      ListCostedConcat(Traversal(ts[0]), TraversalAll(ts[1..]));
      assert (forall i :: 0 <= i < |ts| ==> AllCosted(ts[i]))
             <==> AllCosted(ts[0]) && forall i :: 0 <= i < |ts[1..]| ==> AllCosted(ts[1..][i]) by {
        assert forall i :: 0 < i < |ts| ==> ts[i] == ts[1..][i - 1];
      }
    }
  }

  /** `get_cost`: the total and startup costs summed over the post-order list, or `None`
      where the source raises because some node has no cost attributes. */
  method GetCost(t: Node) returns (r: Option<(real, real)>)
    ensures r.Some? <==> AllCosted(t)
    ensures r.Some? ==> r.value == (TreeSum(t, TotalOf), TreeSum(t, StartupOf))
  {
    var nodes := Traversal(t);
    AllCostedTraversal(t);
    var total, startup := 0.0, 0.0;
    var i := 0;
    while i < |nodes|
      invariant 0 <= i <= |nodes|
      invariant forall k :: 0 <= k < i ==> nodes[k].op.costs.Some?
      invariant total == SumOf(nodes[..i], TotalOf) && startup == SumOf(nodes[..i], StartupOf)
    {
      if nodes[i].op.costs.None? {
        return None;
      }
      SumOfPrefix(nodes, i, TotalOf);
      SumOfPrefix(nodes, i, StartupOf);
      total := total + nodes[i].op.costs.value.totalCost;
      startup := startup + nodes[i].op.costs.value.startupCost;
      i := i + 1;
    }
    assert nodes[..i] == nodes;
    TraversalSum(t, TotalOf);
    TraversalSum(t, StartupOf);
    r := Some((total, startup));
  }
}
