/** `generate_pipe_syntax` and `describe_node` of pipesyntax.py: a plan in the shape of
    PostgreSQL's JSON EXPLAIN output, rendered as pipe-syntax SQL with one line per plan
    node. The first scan line is lifted to the top as the `FROM` header; every other line
    follows in reverse pre-order, so the innermost operation comes first. */
module PipeSyntax {
  import opened Text

  // ---------------------------------------------------------------------------
  // Plan records
  // ---------------------------------------------------------------------------

  /** One plan record, a dictionary in the source. Every key the generator reads may be
      missing (`None`); a record without "Plans" has no subplans, which the walk treats
      alike. The total cost is kept as the text `f"{cost}"` makes of it. */
  datatype Plan = Plan(
    nodeType: Option<string>,
    totalCost: Option<string>,
    relationName: Option<string>,
    joinFilter: Option<string>,
    hashCond: Option<string>,
    mergeCond: Option<string>,
    joinType: Option<string>,
    groupKey: Option<seq<string>>,
    plans: seq<Plan>)

  /** The whole EXPLAIN document; `qep["Plan"]` fails when its plan is missing. */
  datatype Explain = Explain(plan: Option<Plan>)

  /** `plan.get("Node Type", "")`. */
  function NodeType(p: Plan): (r: string)
    ensures p.nodeType.None? ==> r == ""
    ensures p.nodeType.Some? ==> r == p.nodeType.value
  {
    GetOr(p.nodeType, "")
  }

  /** `plan.get("Total Cost", 0)`, as the text it renders to. */
  function CostText(p: Plan): (r: string)
    ensures p.totalCost.None? ==> r == "0"
    ensures p.totalCost.Some? ==> r == p.totalCost.value
  {
    GetOr(p.totalCost, "0")
  }

  /** The three scan types; a record without a node type is no scan. */
  predicate IsScan(p: Plan): (r: bool)
    ensures r ==> p.nodeType.Some? && |p.nodeType.value| >= 8 && p.nodeType.value[|p.nodeType.value| - 4..] == "Scan"
  {
    NodeType(p) == "Seq Scan" || NodeType(p) == "Index Scan" || NodeType(p) == "Index Only Scan"
  }

  /** The three join types; none of them is a scan type. */
  predicate IsJoin(p: Plan): (r: bool)
    ensures r <==> NodeType(p) in {"Hash Join", "Merge Join", "Nested Loop"}
    ensures r ==> p.nodeType.Some? && !IsScan(p)
  {
    assert "Merge Join"[0] != "Index Scan"[0];
    NodeType(p) == "Hash Join" || NodeType(p) == "Merge Join" || NodeType(p) == "Nested Loop"
  }

  // ---------------------------------------------------------------------------
  // describe_node
  // ---------------------------------------------------------------------------

  /** Python's truth value of a string field: present and not empty. */
  predicate Truthy(field: Option<string>): (r: bool)
    ensures r <==> GetOr(field, "") != ""
  {
    field.Some? && field.value != ""
  }

  /** The join condition: Join Filter, else Hash Cond, else Merge Cond, skipping the ones
      that are missing or empty. */
  function JoinCondition(p: Plan): (r: string)
    ensures Truthy(p.joinFilter) ==> r == p.joinFilter.value
    ensures !Truthy(p.joinFilter) && Truthy(p.hashCond) ==> r == p.hashCond.value
    ensures !Truthy(p.joinFilter) && !Truthy(p.hashCond) ==> r == GetOr(p.mergeCond, "")
    ensures r == "" <==> !Truthy(p.joinFilter) && !Truthy(p.hashCond) && !Truthy(p.mergeCond)
  {
    if Truthy(p.joinFilter) then p.joinFilter.value
    else if Truthy(p.hashCond) then p.hashCond.value
    else GetOr(p.mergeCond, "")
  }

  /** The join keyword: Join Type upper-cased, INNER when missing, RIGHT read as LEFT OUTER. */
  function JoinKind(p: Plan): (r: string)
    ensures p.joinType.None? ==> r == "INNER"
    ensures p.joinType.Some? && Upper(p.joinType.value) == "RIGHT" ==> r == "LEFT OUTER"
    ensures p.joinType.Some? && Upper(p.joinType.value) != "RIGHT" ==> r == Upper(p.joinType.value)
  {
    var t := Upper(GetOr(p.joinType, "INNER"));
    assert Upper("INNER") == "INNER";
    if t == "RIGHT" then "LEFT OUTER" else t
  }

  /** The text every line ends with. */
  function CostSuffix(p: Plan): string {
    "  -- Cost: " + CostText(p)
  }

  /** A relation is named in lower case when it is `customer` in any case. */
  function RelationText(p: Plan): (r: string)
    ensures Lower(GetOr(p.relationName, "")) == "customer" ==> r == "customer"
    ensures Lower(GetOr(p.relationName, "")) != "customer" ==> r == GetOr(p.relationName, "")
    ensures Lower(r) == Lower(GetOr(p.relationName, ""))
  {
    var relation := GetOr(p.relationName, "");
    if Lower(relation) == "customer" then "customer" else relation
  }

  /** The join part of a join node's line: the fixed outer join of the sample query when
      the condition mentions `o_comment`, and otherwise the join kind and the condition. */
  function JoinText(p: Plan): (r: string)
    ensures Contains(JoinCondition(p), "o_comment") ==>
              r == "LEFT OUTER JOIN orders ON c_custkey = o_custkey AND o_comment NOT LIKE '%unusual%packages%'"
    ensures !Contains(JoinCondition(p), "o_comment") ==>
              r == JoinKind(p) + " JOIN ON " + JoinCondition(p)
  {
    var cond := JoinCondition(p);
    if Contains(cond, "o_comment") then
      "LEFT OUTER JOIN orders ON c_custkey = o_custkey AND o_comment NOT LIKE '%unusual%packages%'"
    else JoinKind(p) + " JOIN ON " + cond
  }

  /** The aggregate part of an aggregate node's line: the inner or the outer aggregate of
      the sample query when the printed key list mentions `c_custkey` or `c_count`, and
      otherwise the grouping keys joined by ", ". */
  function AggregateText(keys: seq<string>): (r: string)
    ensures keys != [] && Contains(ListRepr(keys), "c_custkey") ==>
              r == "AGGREGATE COUNT(o_orderkey) c_count GROUP BY c_custkey"
    ensures keys != [] && !Contains(ListRepr(keys), "c_custkey") && Contains(ListRepr(keys), "c_count") ==>
              r == "AGGREGATE COUNT(*) AS custdist GROUP BY c_count"
    ensures keys == [] || (!Contains(ListRepr(keys), "c_custkey") && !Contains(ListRepr(keys), "c_count")) ==>
              r == "AGGREGATE GROUP BY " + Join(keys, ", ")
  {
    if keys != [] && Contains(ListRepr(keys), "c_custkey") then
      "AGGREGATE COUNT(o_orderkey) c_count GROUP BY c_custkey"
    else if keys != [] && Contains(ListRepr(keys), "c_count") then
      "AGGREGATE COUNT(*) AS custdist GROUP BY c_count"
    else "AGGREGATE GROUP BY " + Join(keys, ", ")
  }

  /** What follows `|> ` on the line of a node that is not a scan, by node type: the join,
      the aggregate (with no group key read as an empty list), the fixed sort order, or
      the node type upper-cased. */
  function Operation(p: Plan): (r: string)
    ensures IsJoin(p) ==> r == JoinText(p)
    ensures NodeType(p) == "Aggregate" ==> r == AggregateText(GetOr(p.groupKey, []))
    ensures NodeType(p) == "Sort" ==> r == "ORDER BY custdist DESC, c_count DESC"
    ensures !IsJoin(p) && NodeType(p) != "Aggregate" && NodeType(p) != "Sort" ==> r == Upper(NodeType(p))
  {
    assert "Aggregate"[0] != "Hash Join"[0];
    if IsJoin(p) then JoinText(p)
    else if NodeType(p) == "Aggregate" then AggregateText(GetOr(p.groupKey, []))
    else if NodeType(p) == "Sort" then "ORDER BY custdist DESC, c_count DESC"
    else Upper(NodeType(p))
  }

  /** `describe_node`: one line per node, which starts with `FROM` exactly for a scan and
      always ends with the node's cost. */
  function DescribeNode(p: Plan): (r: string)
    ensures IsScan(p) ==> r == "FROM " + RelationText(p) + "  -- Cost: " + CostText(p)
    ensures !IsScan(p) ==> r == "|> " + Operation(p) + "  -- Cost: " + CostText(p)
    ensures StartsWith(r, "FROM") <==> IsScan(p)
    ensures !IsScan(p) ==> StartsWith(r, "|> ")
    ensures EndsWith(r, CostSuffix(p))
  {
    var head := if IsScan(p) then "FROM " else "|> ";
    var rest := if IsScan(p) then RelationText(p) else Operation(p);
    LineShape(head, rest, CostText(p));
    head + rest + "  -- Cost: " + CostText(p)
  }

  /** A line made of a head, a body and a cost starts with the head and ends with the cost
      suffix; `FROM` only heads it when the head is the scan's. */
  lemma {:induction false} LineShape(head: string, rest: string, cost: string)
    requires head == "FROM " || head == "|> "
    ensures var r := head + rest + "  -- Cost: " + cost;
            StartsWith(r, head) && EndsWith(r, "  -- Cost: " + cost)
            && (StartsWith(r, "FROM") <==> head == "FROM ")
  {
    var r := head + rest + "  -- Cost: " + cost;
    var tail := "  -- Cost: " + cost;
    assert r == head + rest + tail;
    assert r[..|head|] == head;
    assert r[|r| - |tail|..] == tail;
    assert r[0] == head[0];
  }

  // ---------------------------------------------------------------------------
  // The pre-order walk and what it collects
  // ---------------------------------------------------------------------------

  /** Every node of the plan, each before its subplans, subplans in order: the order in
      which `traverse` visits them. */
  function Nodes(p: Plan): (r: seq<Plan>)
    decreases p, 1
    ensures |r| >= 1 && r[0] == p
  {
    [p] + NodesAll(p.plans)
  }

  function NodesAll(ps: seq<Plan>): seq<Plan>
    decreases ps, 0
  {
    if ps == [] then [] else Nodes(ps[0]) + NodesAll(ps[1..])
  }

  /** `f` applied to each element, in order. */
  function Map<A, B>(f: A -> B, s: seq<A>): (r: seq<B>)
    ensures |r| == |s| && forall i :: 0 <= i < |s| ==> r[i] == f(s[i])
  {
    seq(|s|, i requires 0 <= i < |s| => f(s[i]))
  }

  lemma {:induction false} MapConcat<A, B>(f: A -> B, a: seq<A>, b: seq<A>)
    ensures Map(f, a + b) == Map(f, a) + Map(f, b)
  {
  }

  /** The line of each node, in the same order. */
  function Describe(ns: seq<Plan>): seq<string> {
    Map(DescribeNode, ns)
  }

  /** The lines `traverse` produces, in the order it produces them. */
  function Lines(p: Plan): seq<string> {
    Describe(Nodes(p))
  }

  /** The state `traverse` shares with its caller: `first_from` and `steps`. */
  datatype Collected = Collected(firstFrom: Option<string>, steps: seq<string>)

  /** What `traverse` does with one line: the first `FROM` line becomes the header, every
      other line is appended to the steps. */
  function Record(c: Collected, line: string): (r: Collected)
    ensures r.firstFrom != c.firstFrom <==> StartsWith(line, "FROM") && c.firstFrom.None?
    ensures r.firstFrom != c.firstFrom ==> r.firstFrom == Some(line) && r.steps == c.steps
    ensures r.firstFrom == c.firstFrom ==> r.steps == c.steps + [line]
  {
    if StartsWith(line, "FROM") && c.firstFrom.None? then c.(firstFrom := Some(line))
    else c.(steps := c.steps + [line])
  }

  /** The state after recording `lines` in order. */
  function Collect(c: Collected, lines: seq<string>): Collected
    decreases |lines|
  {
    if lines == [] then c else Collect(Record(c, lines[0]), lines[1..])
  }

  function Reverse<T>(s: seq<T>): (r: seq<T>)
    ensures |r| == |s| && forall i :: 0 <= i < |s| ==> r[i] == s[|s| - 1 - i]
  {
    seq(|s|, i requires 0 <= i < |s| => s[|s| - 1 - i])
  }

  /** The output lines: the header, if any, then the steps reversed. */
  function Output(c: Collected): (r: seq<string>)
    ensures |r| == |c.steps| + (if c.firstFrom.Some? then 1 else 0)
    ensures c.firstFrom.Some? ==> r[0] == c.firstFrom.value
    ensures forall i :: 0 <= i < |c.steps| ==> r[|r| - 1 - i] == c.steps[i]
  {
    if c.firstFrom.Some? then [c.firstFrom.value] + Reverse(c.steps) else Reverse(c.steps)
  }

  /** The lines `generate_pipe_syntax` joins for a plan. */
  function PipeLines(p: Plan): seq<string> {
    Output(Collect(Collected(None, []), Lines(p)))
  }

  // ---------------------------------------------------------------------------
  // generate_pipe_syntax
  // ---------------------------------------------------------------------------

  /** The variables the inner `traverse` updates through `nonlocal` and `append`. */
  class Traversal {
    var firstFrom: Option<string>
    var steps: seq<string>

    constructor ()
      ensures firstFrom == None && steps == []
    {
      firstFrom := None;
      steps := [];
    }

    function State(): Collected
      reads this
    {
      Collected(firstFrom, steps)
    }

    /** `traverse(plan)`: the lines of the plan's nodes, in pre-order, are recorded. */
    method Traverse(plan: Plan)
      modifies this
      decreases plan
      ensures State() == Collect(old(State()), Lines(plan))
    {
      ghost var start := State();
      var line := DescribeNode(plan);
      if StartsWith(line, "FROM") && firstFrom.None? {
        firstFrom := Some(line);
      } else {
        steps := steps + [line];
      }
      VisitedNone(start, plan);
      for i := 0 to |plan.plans|
        invariant State() == Collect(start, Visited(plan, i))
      {
        ghost var before := State();
        Traverse(plan.plans[i]);
        VisitedNext(start, plan, i, before);
      }
      VisitedAll(plan);
    }
  }

  /** `generate_pipe_syntax(qep)`: `None` where `qep["Plan"]` fails. */
  method GeneratePipeSyntax(qep: Explain) returns (r: Option<string>)
    ensures qep.plan.None? <==> r.None?
    ensures qep.plan.Some? ==> r == Some(Join(PipeLines(qep.plan.value), "\n"))
  {
    if qep.plan.None? {
      return None;
    }
    var t := new Traversal();
    t.Traverse(qep.plan.value);
    var steps := Reverse(t.steps);
    var outputLines := if t.firstFrom.Some? then [t.firstFrom.value] + steps else steps;
    return Some(Join(outputLines, "\n"));
  }

  // ---------------------------------------------------------------------------
  // Lemmas about the walk
  // ---------------------------------------------------------------------------

  /** The lines of `plan` and of its first `i` subplans, in pre-order. */
  function Visited(plan: Plan, i: nat): seq<string>
    requires i <= |plan.plans|
  {
    Describe([plan] + NodesAll(plan.plans[..i]))
  }

  lemma {:induction false} VisitedNone(c: Collected, plan: Plan)
    ensures Collect(c, Visited(plan, 0)) == Record(c, DescribeNode(plan))
  {
    assert plan.plans[..0] == [];
    assert Visited(plan, 0) == [DescribeNode(plan)];
  }

  lemma {:induction false} VisitedNext(c: Collected, plan: Plan, i: nat, mid: Collected)
    requires i < |plan.plans| && mid == Collect(c, Visited(plan, i))
    ensures Collect(mid, Lines(plan.plans[i])) == Collect(c, Visited(plan, i + 1))
  {
    var ps := plan.plans;
    var before := [plan] + NodesAll(ps[..i]);
    NodesAllSnoc(ps, i);
    AppendAssoc([plan], NodesAll(ps[..i]), Nodes(ps[i]));
    CollectDescribeConcat(c, before, Nodes(ps[i]));
  }

  lemma {:induction false} VisitedAll(plan: Plan)
    ensures Visited(plan, |plan.plans|) == Lines(plan)
  {
    assert plan.plans[..|plan.plans|] == plan.plans;
  }

  lemma {:induction false} NodesAllSnoc(ps: seq<Plan>, i: nat)
    requires i < |ps|
    ensures NodesAll(ps[..i + 1]) == NodesAll(ps[..i]) + Nodes(ps[i])
    decreases i
  {
    if i == 0 {
      assert ps[..1][1..] == [];
    } else {
      var t := ps[1..];
      assert ps[..i + 1][1..] == t[..i];
      assert ps[..i][1..] == t[..i - 1];
      NodesAllSnoc(t, i - 1);
    }
  }

  lemma {:induction false} CollectConcat(c: Collected, a: seq<string>, b: seq<string>)
    ensures Collect(c, a + b) == Collect(Collect(c, a), b)
    decreases |a|
  {
    if a != [] {
      assert (a + b)[1..] == a[1..] + b;
      CollectConcat(Record(c, a[0]), a[1..], b);
    } else {
      assert a + b == b;
    }
  }

  lemma {:induction false} CollectDescribeConcat(c: Collected, a: seq<Plan>, b: seq<Plan>)
    ensures Collect(c, Describe(a + b)) == Collect(Collect(c, Describe(a)), Describe(b))
  {
    MapConcat(DescribeNode, a, b);
    CollectConcat(c, Describe(a), Describe(b));
  }

  // ---------------------------------------------------------------------------
  // The output
  // ---------------------------------------------------------------------------

  /** The position of the first line that starts with `FROM`. */
  function FirstFrom(lines: seq<string>): (r: Option<nat>)
    ensures r.Some? ==> r.value < |lines| && StartsWith(lines[r.value], "FROM")
    ensures r.Some? ==> forall j :: 0 <= j < r.value ==> !StartsWith(lines[j], "FROM")
    ensures r.None? ==> forall j :: 0 <= j < |lines| ==> !StartsWith(lines[j], "FROM")
    decreases |lines|
  {
    if lines == [] then None
    else if StartsWith(lines[0], "FROM") then Some(0)
    else match FirstFrom(lines[1..])
      case None => None
      case Some(k) => Some(k + 1)
  }

  /** Once a header is held, every later line is a step. */
  lemma {:induction false} CollectAfterHeader(h: string, steps: seq<string>, lines: seq<string>)
    ensures Collect(Collected(Some(h), steps), lines) == Collected(Some(h), steps + lines)
    decreases |lines|
  {
    if lines != [] {
      CollectAfterHeader(h, steps + [lines[0]], lines[1..]);
      assert (steps + [lines[0]]) + lines[1..] == steps + lines;
    } else {
      assert steps + lines == steps;
    }
  }

  /** Without a header yet, the first `FROM` line becomes the header and all the others,
      in order, are steps. */
  lemma {:induction false} CollectHeader(steps: seq<string>, lines: seq<string>)
    ensures Collect(Collected(None, steps), lines)
            == match FirstFrom(lines)
               case None => Collected(None, steps + lines)
               case Some(k) => Collected(Some(lines[k]), steps + lines[..k] + lines[k + 1..])
    decreases |lines|
  {
    if lines == [] {
      assert steps + lines == steps;
    } else if StartsWith(lines[0], "FROM") {
      assert Record(Collected(None, steps), lines[0]) == Collected(Some(lines[0]), steps);
      CollectAfterHeader(lines[0], steps, lines[1..]);
      assert lines[..0] == [];
    } else {
      var rest := lines[1..];
      assert Record(Collected(None, steps), lines[0]) == Collected(None, steps + [lines[0]]);
      CollectHeader(steps + [lines[0]], rest);
      match FirstFrom(rest)
      case None =>
        assert FirstFrom(lines) == None;
        assert (steps + [lines[0]]) + rest == steps + lines;
      case Some(k) =>
        assert FirstFrom(lines) == Some(k + 1) && rest[k] == lines[k + 1];
        assert lines[..k + 1] == [lines[0]] + rest[..k];
        assert lines[k + 2..] == rest[k + 1..];
        assert (steps + [lines[0]]) + rest[..k] == steps + lines[..k + 1];
    }
  }

  /** The output of a walk that produced `lines`: the first `FROM` line as the header, then
      every other line reversed; with no `FROM` line, only the reversed lines. */
  lemma {:induction false} OutputShape(lines: seq<string>)
    ensures var out := Output(Collect(Collected(None, []), lines));
            match FirstFrom(lines)
            case None => out == Reverse(lines)
            case Some(k) => out == [lines[k]] + Reverse(lines[..k] + lines[k + 1..])
  {
    CollectHeader([], lines);
    assert [] + lines == lines;
    if FirstFrom(lines).Some? {
      var k := FirstFrom(lines).value;
      assert [] + lines[..k] + lines[k + 1..] == lines[..k] + lines[k + 1..];
    }
  }

  /** `generate_pipe_syntax` emits the first `FROM` line in pre-order as the header, then
      every other line in reverse pre-order; with no `FROM` line, only the reversed lines. */
  lemma {:induction false} PipeLinesShape(p: Plan)
    ensures var lines := Lines(p);
            match FirstFrom(lines)
            case None => PipeLines(p) == Reverse(lines)
            case Some(k) => PipeLines(p) == [lines[k]] + Reverse(lines[..k] + lines[k + 1..])
  {
    OutputShape(Lines(p));
  }

  /** Exactly the scans render as `FROM` lines, so the header is the line of the first scan
      in pre-order, and there is none when no node is a scan. */
  lemma {:induction false} HeaderIsFirstScan(p: Plan)
    ensures var ns := Nodes(p);
            match FirstFrom(Lines(p))
            case None => forall i :: 0 <= i < |ns| ==> !IsScan(ns[i])
            case Some(k) => k < |ns| && IsScan(ns[k]) && (forall i :: 0 <= i < k ==> !IsScan(ns[i]))
                            && Lines(p)[k] == DescribeNode(ns[k])
  {
    var ns := Nodes(p);
    var lines := Lines(p);
    assert forall i :: 0 <= i < |ns| ==> lines[i] == DescribeNode(ns[i]);
  }

  /** The output holds the lines of the walk, each as often as the walk produced it. */
  lemma {:induction false} OutputSame(lines: seq<string>)
    ensures multiset(Output(Collect(Collected(None, []), lines))) == multiset(lines)
  {
    OutputShape(lines);
    ReverseSame(lines);
    match FirstFrom(lines)
    case None =>
    case Some(k) =>
      var rest := lines[..k] + lines[k + 1..];
      ReverseSame(rest);
      assert lines == lines[..k] + [lines[k]] + lines[k + 1..];
      calc {
        multiset(lines);
        multiset(lines[..k]) + multiset([lines[k]]) + multiset(lines[k + 1..]);
        multiset([lines[k]]) + multiset(rest);
      }
  }

  /** Every node yields exactly one output line, and the output holds the same lines as the
      walk produced, each as often. */
  lemma {:induction false} OneLinePerNode(p: Plan)
    ensures |PipeLines(p)| == |Nodes(p)|
    ensures multiset(PipeLines(p)) == multiset(Lines(p))
  {
    OutputSame(Lines(p));
    assert |multiset(PipeLines(p))| == |PipeLines(p)|;
  }

  lemma {:induction false} ReverseSame<T>(s: seq<T>)
    ensures multiset(Reverse(s)) == multiset(s)
    decreases |s|
  {
    if s != [] {
      var r := Reverse(s);
      ReverseSame(s[1..]);
      assert r == Reverse(s[1..]) + [s[0]];
      assert s == [s[0]] + s[1..];
    }
  }

  /** With no scan anywhere there is no header: the output is the lines reversed. */
  lemma {:induction false} NoScanNoHeader(p: Plan)
    requires forall i :: 0 <= i < |Nodes(p)| ==> !IsScan(Nodes(p)[i])
    ensures PipeLines(p) == Reverse(Lines(p))
  {
    PipeLinesShape(p);
    HeaderIsFirstScan(p);
  }

  /** A scan with no subplans yields its single `FROM` line. */
  lemma {:induction false} SingleScan(p: Plan)
    requires IsScan(p) && p.plans == []
    ensures PipeLines(p) == ["FROM " + RelationText(p) + "  -- Cost: " + CostText(p)]
  {
    assert Nodes(p) == [p];
    PipeLinesShape(p);
  }

  /** With no line break inside a line, the output text splits back into its lines. */
  lemma {:induction false} OutputSplits(p: Plan)
    requires forall i :: 0 <= i < |Nodes(p)| ==> '\n' !in DescribeNode(Nodes(p)[i])
    ensures Split(Join(PipeLines(p), "\n"), "\n") == PipeLines(p)
  {
    OneLinePerNode(p);
    var out := PipeLines(p);
    forall i | 0 <= i < |out|
      ensures "\n"[0] !in out[i]
    {
      assert out[i] in multiset(Lines(p));
    }
    JoinThenSplit(out, "\n");
  }

  /** A record with only a node type, a total cost, a relation, group keys and subplans. */
  function Sample(nodeType: string, cost: string, relation: Option<string>,
                  keys: Option<seq<string>>, plans: seq<Plan>): Plan {
    Plan(Some(nodeType), Some(cost), relation, None, None, None, None, keys, plans)
  }

  /** `str(["c_count"])` holds `c_count` and not `c_custkey`. */
  lemma {:induction false} CountKeyRepr()
    ensures !Contains(ListRepr(["c_count"]), "c_custkey") && Contains(ListRepr(["c_count"]), "c_count")
  {
    var keys := ListRepr(["c_count"]);
    var sub := "c_custkey";
    assert ["c_count"][1..] == [];
    assert Quoted(["c_count"]) == ["'" + "c_count" + "'"];
    assert keys == "[" + "'" + "c_count" + "'" + "]";
    assert |keys| == 11 && keys[0] == '[' && keys[1] == '\'' && keys[5] == 'o';
    forall j ensures !OccursAt(keys, j, sub) {
      if j == 0 || j == 1 {
        MismatchAt(keys, j, sub, 0);
      } else if j == 2 {
        MismatchAt(keys, j, sub, 3);
      }
    }
    FindAbsent(keys, sub);
    assert keys[2..9] == "c_count";
    ContainsAt(keys, "c_count", 2);
  }

  lemma {:induction false} ExampleNodes(scan: Plan, agg: Plan, sort: Plan)
    requires scan.plans == [] && agg.plans == [scan] && sort.plans == [agg]
    ensures Lines(sort) == [DescribeNode(sort), DescribeNode(agg), DescribeNode(scan)]
  {
    assert Nodes(scan) == [scan];
    assert NodesAll([scan]) == [scan];
    assert Nodes(agg) == [agg, scan];
    assert NodesAll([agg]) == [agg, scan];
    assert Nodes(sort) == [sort, agg, scan];
  }

  /** Two steps under a scan come out scan first, then the steps innermost first. */
  lemma {:induction false} ScanUnderTwoSteps(a: string, b: string, c: string)
    requires !StartsWith(a, "FROM") && !StartsWith(b, "FROM") && StartsWith(c, "FROM")
    ensures Output(Collect(Collected(None, []), [a, b, c])) == [c, b, a]
  {
    var lines := [a, b, c];
    assert FirstFrom(lines[2..]) == Some(0);
    assert FirstFrom(lines[1..]) == Some(1) by {
      assert lines[1..][1..] == lines[2..];
    }
    assert FirstFrom(lines) == Some(2);
    OutputShape(lines);
    assert lines[..2] + lines[3..] == [a, b];
  }

  lemma {:induction false} SampleScanLine(scan: Plan)
    requires scan == Sample("Seq Scan", "50", Some("customer"), None, [])
    ensures DescribeNode(scan) == "FROM " + "customer" + "  -- Cost: " + "50"
  {
  }

  lemma {:induction false} SampleAggregateLine(agg: Plan)
    requires agg.nodeType == Some("Aggregate") && agg.totalCost == Some("90")
    requires agg.groupKey == Some(["c_count"])
    ensures DescribeNode(agg)
            == "|> " + "AGGREGATE COUNT(*) AS custdist GROUP BY c_count" + "  -- Cost: " + "90"
  {
    assert "Aggregate"[0] != "Hash Join"[0];
    assert !IsScan(agg) && !IsJoin(agg);
    CountKeyRepr();
    assert Operation(agg) == "AGGREGATE COUNT(*) AS custdist GROUP BY c_count";
  }

  lemma {:induction false} SampleSortLine(sort: Plan)
    requires sort.nodeType == Some("Sort") && sort.totalCost == Some("100")
    ensures DescribeNode(sort) == "|> " + "ORDER BY custdist DESC, c_count DESC" + "  -- Cost: " + "100"
  {
  }

  /** Sort (cost 100) over Aggregate grouping by c_count (cost 90) over a sequential scan of
      customer (cost 50): the scan heads the output, the aggregate follows, the sort ends it. */
  lemma {:induction false} SortAggregateScan()
    ensures var scan := Sample("Seq Scan", "50", Some("customer"), None, []);
            var agg := Sample("Aggregate", "90", None, Some(["c_count"]), [scan]);
            var sort := Sample("Sort", "100", None, None, [agg]);
            PipeLines(sort) == [
              "FROM " + "customer" + "  -- Cost: " + "50",
              "|> " + "AGGREGATE COUNT(*) AS custdist GROUP BY c_count" + "  -- Cost: " + "90",
              "|> " + "ORDER BY custdist DESC, c_count DESC" + "  -- Cost: " + "100"]
  {
    var scan := Sample("Seq Scan", "50", Some("customer"), None, []);
    var agg := Sample("Aggregate", "90", None, Some(["c_count"]), [scan]);
    var sort := Sample("Sort", "100", None, None, [agg]);
    SampleScanLine(scan);
    SampleAggregateLine(agg);
    SampleSortLine(sort);
    ExampleNodes(scan, agg, sort);
    var a, b, c := DescribeNode(sort), DescribeNode(agg), DescribeNode(scan);
    assert PipeLines(sort) == Output(Collect(Collected(None, []), [a, b, c]));
    ScanUnderTwoSteps(a, b, c);
  }
}
