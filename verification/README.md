# Query plan preprocessing and pipe syntax, in Dafny

This project models the two transformation engines of a tool that explains
PostgreSQL query execution plans:

- **The text-plan parser and plan tree** (`preprocessing.py`). A plain-text EXPLAIN
  listing is rebuilt into a tree of `ExecutionTreeNode`s. Each line after the first is
  either a condition (it holds `:`), which goes to the node created last, or an operator
  line (it holds `->`), which creates a node. A node's level is the rank of its arrow
  column among the distinct columns seen so far. The node is hung under the right
  ancestor by popping a stack of the nodes added so far. `set_operation`/`parse_info`
  split an operator string into its name and its `(cost=a..b rows=r width=w)`
  annotation. `ExecutionTree` offers a pre-order `dfs`, a post-order `traversal`,
  pre-order numbering (`finalize_id`) and the cost sums (`get_cost`). `get_text` and
  `parse_condition` turn operations and condition lines into symbols and phrases.
- **The pipe-syntax generator** (`pipesyntax.py`). `describe_node` maps one node of a
  JSON plan to one line of pipe-syntax SQL. `generate_pipe_syntax` walks the plan in
  pre-order and keeps the first `FROM` line as the header. It collects every other
  line as a step, then emits the header followed by the steps in reverse.

The files are:

- `text.dfy` (module `Text`): the Python string operations the source relies on. These
  are `in`, `find`/`index`, `split`, `join`, `strip`, `upper`, `lower`, `replace` of one
  character, `str()` of a list of keys, and `float()` of a decimal.
- `execution_tree.dfy` (module `ExecutionPlan`): nodes as values, `set_operation`,
  `parse_info`, `get_text`, `parse_condition`, `add_child`, `add_condition`, `dfs`,
  `traversal`, `finalize_id` and `get_cost`.
- `plan_parser.dfy` (module `PlanParser`): `is_query`, `is_cond` and
  `parse_query_explanation_to_tree`. It has two parts.
  - A stack-free reference reading `Parse`. It gives the nodes in creation order, with
    their levels and conditions, plus the arrow columns.
  - The parser itself, an imperative method with the source's loop and inner pop loop.
    It is proved to build a tree whose pre-order is exactly what `Parse` reads.
- `pipe_syntax.dfy` (module `PipeSyntax`): the plan record, `describe_node`, and
  `generate_pipe_syntax`. The inner `traverse` is a method of a class holding
  `first_from` and `steps`. It is proved against the function `PipeLines`.

Parsing outcomes: the parser returns `Fail(...)` wherever the source raises.

- An empty listing fails with `EmptyExplanation`, since `explanation[0]` raises.
- An annotation `parse_info` cannot unpack or convert fails with `MalformedAnnotation`.
- An arrow at column 0 fails with `RootPopped`. Its level is 0, so the pop loop
  removes the root and the next `all_nodes[-1]` raises.

Behaviour kept as the code has it, though a reader might not expect it:

- The join condition is the first non-empty of Join Filter, Hash Cond and Merge Cond,
  in that order.
- Only RIGHT is rewritten, to LEFT OUTER.
- A scan's filter is not rendered.
- An aggregate whose keys mention `c_custkey` or `c_count` renders a fixed text for the
  TPC-H Q13 sample. For `c_count` that text is `AGGREGATE COUNT(*) AS custdist GROUP BY c_count`.
- A sort always renders `ORDER BY custdist DESC, c_count DESC`.
- Every scan line starts with `FROM`, so a second scan adds a second `FROM` line among
  the steps. A plan without a scan has no `FROM` line at all.
- A node is created only for a line with an arrow and no colon. A line with both is a
  condition, so the node count is one plus the number of such lines.

## Model

| member | source | states |
|---|---|---|
| Text.FindFrom | preprocessing.py:280 | the position found is an occurrence, and no occurrence lies between the start and it |
| Text.FindIsFirst | preprocessing.py:280 | `find` returns the first occurrence of the needle |
| Text.FindAbsent | pipesyntax.py:64 | with no occurrence anywhere, `find` reports none |
| Text.ContainsChar | preprocessing.py:326-327 | a one-character needle is contained exactly when the character occurs in the string |
| Text.Split | preprocessing.py:70 | `split` always returns at least one piece |
| Text.SplitFirst | preprocessing.py:179-180 | the first piece is the text before the first separator, or the whole text when there is none |
| Text.SplitLastClean | preprocessing.py:292 | the last piece holds no separator |
| Text.SplitLastAfter | preprocessing.py:292 | the last piece is the whole text when there is no separator, and otherwise the text right after an occurrence, up to the end |
| Text.SplitThenJoin | preprocessing.py:181 | joining the pieces of a split with the same separator gives the original string back |
| Text.Join | pipesyntax.py:71 | joining no parts gives the empty string, and otherwise the result is at least as long as the first part |
| Text.JoinEnds | pipesyntax.py:28 | a join starts with its first part and ends with its last part |
| Text.SplitWithoutSeparator | pipesyntax.py:28 | a string that does not contain the separator splits into itself alone |
| Text.SplitAfterFirst | preprocessing.py:70 | splitting `a + sep + b`, with no separator starting inside `a`, gives `a` and then the pieces of `b` |
| Text.JoinThenSplit | pipesyntax.py:28 | with a one-character separator that no part contains, splitting the joined text gives the parts back |
| Text.Strip | preprocessing.py:53 | the result is an infix of the input, everything cut off is white space, and it neither starts nor ends with white space |
| Text.TrimStart | preprocessing.py:53 | the result is a suffix of the input, the cut prefix is white space, and it does not start with white space |
| Text.TrimEnd | preprocessing.py:53 | the result is a prefix of the input, the cut suffix is white space, and it does not end with white space |
| Text.Upper | pipesyntax.py:55 | same length, each character upper-cased |
| Text.Lower | preprocessing.py:86 | same length, each character lower-cased |
| Text.RemoveConcat | preprocessing.py:69 | removing a character distributes over concatenation |
| Text.Remove | preprocessing.py:69 | the character no longer occurs, and the result is no longer than the input |
| Text.RemoveCounts | preprocessing.py:69 | every occurrence of the character is removed, and every other character is kept as often as it occurred |
| Text.StartsWith | pipesyntax.py:15 | a string starts with a prefix exactly when it is that prefix followed by the rest of the string |
| Text.ListRepr | pipesyntax.py:64-67 | the printed list is bracketed. No keys print as `[]`, and one key prints as that key in single quotes inside the brackets |
| Text.RemoveAbsent | preprocessing.py:69 | removing a character that does not occur changes nothing |
| Text.ParseNumber | preprocessing.py:71-74 | an accepted number is non-negative and consists of digits and dots, starting and ending with a digit |
| Text.NumberHasNoDoubleDot | preprocessing.py:71-72 | an accepted number never holds `..`, so splitting a cost field at `..` cannot cut inside a number |
| ExecutionPlan.ParseInfo | preprocessing.py:63-74 | the four numbers read from an annotation are non-negative |
| ExecutionPlan.FieldNumber | preprocessing.py:73-74 | the number after `=` is non-negative when it is read |
| ExecutionPlan.SetOperation | preprocessing.py:55-74 | the operation name holds no double space. Without a double space, the whole text is the operation with no annotation. Otherwise the text is name, double space, info, and the costs are what `parse_info` reads from the info. The text fails only as a malformed annotation, and it holds a double space exactly when it fails or carries costs |
| ExecutionPlan.NoEarlierOccurrence | preprocessing.py:57 | the prefix before the first occurrence of a needle does not contain it |
| ExecutionPlan.DropParens | preprocessing.py:69 | dropping every parenthesis from `(x)` leaves `x` when `x` has none |
| ExecutionPlan.BareAnnotation | preprocessing.py:69 | dropping the parentheses of an annotation leaves its three fields separated by single spaces |
| ExecutionPlan.AnnotationFields | preprocessing.py:69-70 | an annotation splits at spaces into exactly the cost, rows and width fields |
| ExecutionPlan.CostField | preprocessing.py:71-72 | `cost=a..b` splits at `..` into `cost=a` and `b` |
| ExecutionPlan.NoDoubleDot | preprocessing.py:72 | a number splits at `..` into itself alone |
| ExecutionPlan.NamedField | preprocessing.py:71-74 | the number after `=` in `key=value` is the value read as a number |
| ExecutionPlan.ParseInfoFromFields | preprocessing.py:69-74 | the annotation's fields determine the four numbers `parse_info` sets |
| ExecutionPlan.AnnotationRoundTrip | preprocessing.py:63-74 | for `(cost=a..b rows=r width=w)`, `parse_info` yields startup cost a, total cost b, rows r and width w |
| ExecutionPlan.SetOperationRoundTrip | preprocessing.py:55-74 | an operator name followed by a double space and an annotation is split back into that name, that annotation and its four numbers |
| ExecutionPlan.FirstDoubleSpace | preprocessing.py:56-57 | the split happens at the first double space, which is the one right after a name that holds none |
| ExecutionPlan.GetText | preprocessing.py:85-121 | the symbol is `o` exactly when no known operator keyword occurs in the lower-cased operation, and an aggregate always draws gamma |
| ExecutionPlan.ConditionKey | preprocessing.py:179-180 | the key is the stripped text before the first colon, or the whole stripped line when there is none |
| ExecutionPlan.ConditionValue | preprocessing.py:179-181 | the value is everything after the first colon, later colons included, or empty when there is none |
| ExecutionPlan.PhraseHead | preprocessing.py:183-192 | a filter key gives `` and `filtering` ``. Otherwise a key holding `Key` gives `` and do `ops` ``, and one holding `Cond` gives `` and do `ops` with condition ``, where ops is the stripped text before the first `Key` or `Cond`. Any other key gives `` with condition `key` `` |
| ExecutionPlan.PhraseOpening | preprocessing.py:183-192 | the phrase opens with " and " exactly when the key names a filter, a key or a condition |
| ExecutionPlan.ParseCondition | preprocessing.py:169-192 | the phrase is the key's phrase head followed by `` on `value` `` and nothing else. It opens with " and " exactly for a filter, key or condition line |
| ExecutionPlan.PhraseShape | preprocessing.py:184-192 | a phrase starts with its head, keeps the head's opening and ends with the value part |
| ExecutionPlan.Leaf | preprocessing.py:29-36 | a new node has the given operation and level, no conditions and no children, and is a well-nested tree of one node |
| ExecutionPlan.AddChild | preprocessing.py:37-38 | the child list gains the child at its end, and nothing else about the node changes |
| ExecutionPlan.AddCondition | preprocessing.py:52-53 | the condition list gains the stripped condition at its end, and nothing else about the node changes |
| ExecutionPlan.Labels | preprocessing.py:225-233 | one entry per node, in the same order |
| ExecutionPlan.Dfs | preprocessing.py:225-233 | `dfs` lists as many nodes as the tree has, the root first |
| ExecutionPlan.DfsAll | preprocessing.py:232-233 | the children's `dfs` lists together hold as many nodes as the children's subtrees |
| ExecutionPlan.Traversal | preprocessing.py:235-244 | `traversal` lists as many nodes as the tree has, the root last |
| ExecutionPlan.TraversalAll | preprocessing.py:240-241 | the children's `traversal` lists together hold as many nodes as the children's subtrees |
| ExecutionPlan.PreOrderIsDfs | preprocessing.py:225-233 | the pre-order entries of a tree are the entries of the `dfs` list, in order |
| ExecutionPlan.PreOrderAllIsDfsAll | preprocessing.py:232-233 | the same for a list of subtrees |
| ExecutionPlan.PreOrderAllAppend | preprocessing.py:37-38 | appending a subtree appends its pre-order |
| ExecutionPlan.DfsAllAppend | preprocessing.py:37-38 | appending a child appends its `dfs` list |
| ExecutionPlan.SizeAllAppend | preprocessing.py:37-38 | appending a child adds its size |
| ExecutionPlan.PreOrderAddChild | preprocessing.py:37-38 | `add_child` appends the child's whole subtree at the end of the parent's pre-order |
| ExecutionPlan.SameNodes | preprocessing.py:225-244 | `dfs` and `traversal` list the same nodes, each as often |
| ExecutionPlan.SameNodesAll | preprocessing.py:225-244 | the same for a list of subtrees |
| ExecutionPlan.NestedLevelsIncrease | preprocessing.py:288-318 | in a tree the parser builds, every node below the root has a greater level than the root |
| ExecutionPlan.NestedLevelsIncreaseAll | preprocessing.py:288-318 | every node under subtrees deeper than a parent level is deeper than it |
| ExecutionPlan.Ids | preprocessing.py:206 | one id per node |
| ExecutionPlan.Range | preprocessing.py:207-208 | the consecutive integers from the lower bound, as many as asked |
| ExecutionPlan.NumberingStep | preprocessing.py:207-208 | numbering the next child right after the ids used so far keeps the ids of the numbered children consecutive |
| ExecutionPlan.FinalizeId | preprocessing.py:201-209 | `finalize_id` changes nothing but the ids. It numbers the nodes in pre-order with consecutive ids from the given one, and it returns the last id, the first id plus the node count minus one |
| ExecutionPlan.NumberedRoot | preprocessing.py:204-209 | the root's id followed by its numbered children gives consecutive ids over the whole tree |
| ExecutionPlan.IdsConcat | preprocessing.py:207-208 | ids of concatenated node lists concatenate |
| ExecutionPlan.EraseAllAppend | preprocessing.py:207-208 | forgetting ids commutes with appending a child |
| ExecutionPlan.RangeConcat | preprocessing.py:207-208 | two adjacent ranges of ids form one range |
| ExecutionPlan.SumOfConcat | preprocessing.py:251-253 | the sum over concatenated lists is the sum of the sums |
| ExecutionPlan.SumSeqConcat | preprocessing.py:251-253 | the same for lists of numbers |
| ExecutionPlan.SumOfPrefix | preprocessing.py:251-253 | one more loop turn adds the next node's cost |
| ExecutionPlan.TraversalSum | preprocessing.py:246-254 | summing a cost over the post-order list gives the sum over the tree |
| ExecutionPlan.TraversalSumAll | preprocessing.py:238-244 | the same for a list of subtrees |
| ExecutionPlan.DfsSum | preprocessing.py:225-233 | summing over the pre-order list gives the same sum, so the total does not depend on the visiting order |
| ExecutionPlan.DfsSumAll | preprocessing.py:230-233 | the same for a list of subtrees |
| ExecutionPlan.ListCostedConcat | preprocessing.py:251-253 | a concatenated list is costed exactly when both parts are |
| ExecutionPlan.AllCostedTraversal | preprocessing.py:246-253 | every node of the tree carries costs exactly when every node of `traversal` does |
| ExecutionPlan.AllCostedTraversalAll | preprocessing.py:238-244 | the same for a list of subtrees |
| ExecutionPlan.GetCost | preprocessing.py:246-254 | fails exactly when some node has no cost attributes. Otherwise it returns the sums of total cost and of startup cost over all nodes |
| PlanParser.IsQuery | preprocessing.py:323-324 | a line is an operator candidate exactly when `->` occurs in it somewhere |
| PlanParser.IsCond | preprocessing.py:326-327 | a line is a condition exactly when it holds a colon |
| PlanParser.OperatorText | preprocessing.py:292 | the operation text is the stripped text after the last arrow, which holds no arrow, or the whole stripped line when there is no arrow |
| PlanParser.Step | preprocessing.py:272-318 | a line that is neither a condition nor an arrow line changes nothing. A condition line keeps the arrow places and never fails. Only operator lines fail, and an accepted one keeps the nodes read before and adds one node, at a level above 0 and with no conditions |
| PlanParser.Parse | preprocessing.py:256-321 | an empty listing fails as empty, and a listing that is read has a well-formed first line and at least the root |
| PlanParser.ArrowColumn | preprocessing.py:280 | the column of the first arrow |
| PlanParser.IndexOf | preprocessing.py:285 | the position of the first occurrence of the column |
| PlanParser.AddPlace | preprocessing.py:281-283 | the column is listed afterwards, the old places are a prefix, and nothing else is added |
| PlanParser.AppendCondition | preprocessing.py:272-275 | only the entry created last changes, by its stripped condition appended |
| PlanParser.Scan | preprocessing.py:270-318 | reading lines never removes nodes |
| PlanParser.ScanSnoc | preprocessing.py:270-271 | reading one more line is one more loop turn |
| PlanParser.ScanFailSticks | preprocessing.py:270-318 | the first failure ends the reading, and its error is the listing's |
| PlanParser.StepOutcome | preprocessing.py:272-318 | one line fails exactly when it is an operator line with its arrow at column 0 or with a malformed annotation, and then with that line's error. Column 0 stays the first arrow place |
| PlanParser.AllAcceptedEach | preprocessing.py:270 | all lines are accepted exactly when each one is |
| PlanParser.ScanOk | preprocessing.py:270-318 | reading succeeds exactly when every line is accepted |
| PlanParser.ScanFailure | preprocessing.py:270-318 | a failed reading fails with the error of its first rejected line |
| PlanParser.OperatorLines | preprocessing.py:272-276 | the lines that create nodes are arrow lines without a colon, taken from the listing |
| PlanParser.StepEffect | preprocessing.py:272-318 | a line keeps the arrow places as a prefix and adds one node exactly when it is an operator line. Nodes created earlier keep their operation and level |
| PlanParser.StepConditions | preprocessing.py:272-275 | a condition line adds its stripped text after all conditions read so far, and other lines add none |
| PlanParser.StepOperator | preprocessing.py:280-301 | an operator line creates a node with its operation, at the rank of its arrow column |
| PlanParser.IndexOfExtend | preprocessing.py:281-285 | appending places never changes the rank of a column already listed |
| PlanParser.EntryForExtend | preprocessing.py:281-285 | a node's level stays the rank of its column against the final arrow places |
| PlanParser.ScanKeeps | preprocessing.py:270-318 | reading adds one node per operator line and keeps the operation and level of the nodes before |
| PlanParser.ScanConditions | preprocessing.py:272-275 | the conditions read are the condition lines, stripped, in input order |
| PlanParser.StepEntries | preprocessing.py:276-301 | one line keeps the nodes of earlier operator lines, and an operator line adds its own |
| PlanParser.StepOperators | preprocessing.py:276-301 | the loop turn keeps the correspondence between new nodes and operator lines |
| PlanParser.ScanOperators | preprocessing.py:276-318 | the j-th new node is made from the j-th operator line, with its operation and its column's rank as level |
| PlanParser.StepPlaces | preprocessing.py:280-283 | an operator line adds its column to the arrow places when unseen, and other lines leave them |
| PlanParser.ScanPlaces | preprocessing.py:266-285 | the arrow places are the initial ones followed by the operator lines' columns, each added when first seen |
| PlanParser.AddPlacesDistinct | preprocessing.py:281-283 | the arrow places never list a column twice and list exactly the columns seen |
| PlanParser.ParseOk | preprocessing.py:256-321 | a listing is read exactly when it is non-empty, its first line has a well-formed operation and every later line is accepted |
| PlanParser.ParseFailure | preprocessing.py:256-321 | an empty listing fails as empty, and a malformed first line as a malformed annotation. Otherwise the error is that of the first rejected line |
| PlanParser.ParseReads | preprocessing.py:256-321 | the root comes from the first line at level 0. After it there is exactly one node per operator line, in order, with that line's operation and its column's rank as level. The arrow places start with 0 and list each column once, in first-seen order. The conditions are the condition lines, stripped, in order |
| PlanParser.Pop | preprocessing.py:306 | popping removes the top frame, and the frames below stay unchanged except the new top |
| PlanParser.ClosePop | preprocessing.py:305-306 | popping the stack does not change the tree it stands for |
| PlanParser.LeafPreOrder | preprocessing.py:278 | a new node is its own pre-order |
| PlanParser.CloseAppend | preprocessing.py:296-298 | a frame pushed on the stack appends its nodes to the tree's pre-order |
| PlanParser.PushEntries | preprocessing.py:296-298 | pushing a new node appends it last in pre-order |
| PlanParser.ConditionEntries | preprocessing.py:272-275 | a condition on the top frame extends the node created last |
| PlanParser.NestedAddChild | preprocessing.py:298 | adding a deeper child, no deeper than its elder sibling, keeps the tree nested |
| PlanParser.PopOk | preprocessing.py:305-306 | popping keeps the stack well-formed |
| PlanParser.PushOk | preprocessing.py:296-299 | pushing a childless node above the top keeps the stack well-formed |
| PlanParser.ConditionOk | preprocessing.py:275 | adding a condition keeps the stack well-formed |
| PlanParser.CloseOk | preprocessing.py:321 | the tree of a well-formed stack is nested and rooted at level 0 |
| PlanParser.ConditionFrame | preprocessing.py:272-275 | a condition line keeps the parser state well-formed and is seen as the reference step for a condition |
| PlanParser.PushFrame | preprocessing.py:288-301 | a node pushed on the stack keeps the state well-formed and appends its entry |
| PlanParser.PopTo | preprocessing.py:305-306 | the pop loop fails exactly when the level is 0. Otherwise it keeps the stack well-formed and the tree unchanged, and it stops at the deepest frame shallower than the level, whose last child is at least as deep |
| PlanParser.ReadLine | preprocessing.py:271-318 | one loop turn keeps the parser state well-formed and does exactly what the reference reading does with the line, failures included |
| PlanParser.ParseQueryExplanationToTree | preprocessing.py:256-321 | the parser fails exactly when the reference reading does, with its error. Otherwise its tree lists in pre-order exactly the nodes the reference reading creates, with their levels and conditions. Every child is deeper than its parent and no deeper than its elder sibling, and the root is at level 0 |
| PipeSyntax.Truthy | pipesyntax.py:51 | a field counts as true exactly when reading it with the default empty string gives a non-empty string |
| PipeSyntax.JoinCondition | pipesyntax.py:51 | the first non-empty of Join Filter, Hash Cond and Merge Cond. It is empty exactly when all three are missing or empty |
| PipeSyntax.JoinKind | pipesyntax.py:55-57 | INNER when Join Type is missing, LEFT OUTER for RIGHT, and otherwise the join type upper-cased |
| PipeSyntax.NodeType | pipesyntax.py:38 | a missing node type reads as the empty string |
| PipeSyntax.CostText | pipesyntax.py:39 | a missing total cost prints as `0` |
| PipeSyntax.IsScan | pipesyntax.py:41 | a scan has a node type, and it is one of the `... Scan` types |
| PipeSyntax.IsJoin | pipesyntax.py:49 | a join is a node whose type is Hash Join, Merge Join or Nested Loop. A join has a node type and is never a scan |
| PipeSyntax.JoinText | pipesyntax.py:49-58 | a join whose condition mentions `o_comment` renders the fixed outer join with orders. Any other join renders its join kind, ` JOIN ON ` and its condition |
| PipeSyntax.AggregateText | pipesyntax.py:60-71 | a key list whose printed form mentions `c_custkey` gives the inner aggregate. Otherwise one mentioning `c_count` gives the outer one. Otherwise, and for no keys, the text is `AGGREGATE GROUP BY ` and the keys joined by a comma and a space |
| PipeSyntax.Operation | pipesyntax.py:49-79 | joins render as the join text, and aggregates as the aggregate text of their keys, with missing keys read as none. A sort renders the fixed ORDER BY text whatever its cost, and any other type renders upper-cased |
| PipeSyntax.RelationText | pipesyntax.py:43-47 | a relation that is `customer` in any case prints as `customer`, and any other relation, a missing one read as empty, prints unchanged |
| PipeSyntax.DescribeNode | pipesyntax.py:33-79 | a scan's line is `FROM `, the relation and `  -- Cost: ` with the cost. Any other node's line is the pipe marker, its operation and the same cost part. So a line starts with `FROM` exactly for a scan and always ends with the cost |
| PipeSyntax.LineShape | pipesyntax.py:45-79 | a line keeps its head and ends with the cost suffix, and it starts with `FROM` only under the scan's head |
| PipeSyntax.Record | pipesyntax.py:14-18 | the header is set exactly when the line starts with `FROM` and no header is held yet, and then the steps stay. Otherwise the header stays and the line is appended to the steps |
| PipeSyntax.Output | pipesyntax.py:26-27 | the output has one line per step plus the header if any. The header comes first and the steps follow in reverse, the first step last |
| PipeSyntax.Nodes | pipesyntax.py:5-22 | the walk visits the plan itself first |
| PipeSyntax.Map | pipesyntax.py:9 | one line per visited node, in order |
| PipeSyntax.MapConcat | pipesyntax.py:20-22 | the lines of consecutive subplans come one after another |
| PipeSyntax.Reverse | pipesyntax.py:26 | the steps reversed: same length, the i-th from the end at position i |
| PipeSyntax.Traversal.constructor | pipesyntax.py:2-3 | no header and no steps yet |
| PipeSyntax.Traversal.Traverse | pipesyntax.py:5-22 | `traverse` records the lines of the plan's nodes in pre-order on top of what was recorded before |
| PipeSyntax.GeneratePipeSyntax | pipesyntax.py:1-30 | fails exactly when the plan is missing. Otherwise it returns the header and reversed steps, joined by newlines |
| PipeSyntax.VisitedNone | pipesyntax.py:8-18 | before the subplans, only the node's own line is recorded |
| PipeSyntax.VisitedNext | pipesyntax.py:20-22 | walking one more subplan records its lines after those of the earlier ones |
| PipeSyntax.VisitedAll | pipesyntax.py:20-22 | after the last subplan the whole pre-order has been recorded |
| PipeSyntax.NodesAllSnoc | pipesyntax.py:21-22 | the nodes of the first i+1 subplans are those of the first i followed by the next |
| PipeSyntax.CollectConcat | pipesyntax.py:14-18 | recording two runs of lines is recording the first and then the second |
| PipeSyntax.CollectDescribeConcat | pipesyntax.py:14-22 | the same for the lines of two runs of nodes |
| PipeSyntax.FirstFrom | pipesyntax.py:15 | the position of the first line that starts with `FROM`, or none when no line does |
| PipeSyntax.CollectAfterHeader | pipesyntax.py:15-18 | once a header is held, every later line, `FROM` or not, becomes a step |
| PipeSyntax.CollectHeader | pipesyntax.py:14-18 | the first `FROM` line becomes the header and all other lines, in order, become steps |
| PipeSyntax.OutputShape | pipesyntax.py:24-27 | the output is the first `FROM` line followed by all other lines in reverse, or only the reversed lines when none starts with `FROM` |
| PipeSyntax.PipeLinesShape | pipesyntax.py:24-27 | the same for the lines of a plan's walk |
| PipeSyntax.HeaderIsFirstScan | pipesyntax.py:14-18 | the header is the line of the first scan in pre-order, and there is none exactly when no node is a scan |
| PipeSyntax.OutputSame | pipesyntax.py:26-27 | the output holds the produced lines, each as often |
| PipeSyntax.OneLinePerNode | pipesyntax.py:5-27 | the output has exactly one line per plan node and holds the walk's lines, each as often |
| PipeSyntax.ReverseSame | pipesyntax.py:26 | reversing keeps every element as often |
| PipeSyntax.NoScanNoHeader | pipesyntax.py:27 | with no scan anywhere, the output is the lines in reverse pre-order with no header |
| PipeSyntax.SingleScan | pipesyntax.py:41-47 | a lone scan yields exactly the line `FROM <relation>  -- Cost: <cost>` |
| PipeSyntax.OutputSplits | pipesyntax.py:28 | when no line holds a newline, the output text splits back into the output lines |
| PipeSyntax.CountKeyRepr | pipesyntax.py:64-67 | the text of the key list `['c_count']` holds `c_count` and not `c_custkey` |
| PipeSyntax.ExampleNodes | pipesyntax.py:20-22 | a chain of three nodes is walked top-down |
| PipeSyntax.ScanUnderTwoSteps | pipesyntax.py:14-27 | two steps above a scan come out scan first, then the steps innermost first |
| PipeSyntax.SampleScanLine | pipesyntax.py:41-47 | the sample scan of customer at cost 50 renders `FROM customer  -- Cost: 50` |
| PipeSyntax.SampleAggregateLine | pipesyntax.py:60-68 | the aggregate grouping by c_count renders the step `AGGREGATE COUNT(*) AS custdist GROUP BY c_count  -- Cost: 90` |
| PipeSyntax.SampleSortLine | pipesyntax.py:73-75 | the sort renders the fixed step `ORDER BY custdist DESC, c_count DESC  -- Cost: 100` |
| PipeSyntax.SortAggregateScan | pipesyntax.py:24-28 | Sort(100) over Aggregate(90, c_count) over a scan of customer(50) outputs the `FROM` line, then the aggregate line, then the sort line |

## Left out

- `get_qep` (preprocessing.py:5-20): it opens a database connection and runs EXPLAIN. This is I/O.
- `Visualizer` and the plotting code: these are layout and drawing through igraph and plotly.
- `explain`, `natural_language`, `__repr__` and `symbol`: these produce presentation text for the user interface only.
- `bfs`: it returns nothing and nothing calls it.
- interface.py and project.py: the desktop GUI and the entry point.
- The debug `print` calls in `generate_pipe_syntax` and the `depth` parameter of `traverse`: `depth` only feeds those prints.
- `set_parent` and the `parent` field: nodes are values whose children are the nodes themselves. A parent is the node a child sits under, so there are no parent links and no sharing of node objects.
- `set_level` and `set_condition`: a node is built with its level. `set_condition` is never called.
- Rows of the listing are tuples in the source. Each element here is the text of its first column.
- ParseNumber: reads only unsigned decimals (`12`, `12.50`). The other spellings Python's `float()` accepts (signs, exponents, `inf`, `nan`, surrounding blanks) are refused, and numbers are exact reals rather than IEEE doubles.
- ParseInfo: inherits ParseNumber's restriction, so an annotation with an exotic number spelling fails as malformed.
- GetText: the contract pins the fallback symbol and the aggregate case. The priority among the other keywords is stated only by the function's own branches.
- Upper: changes ASCII letters only, with no Unicode case mapping.
- Lower: changes ASCII letters only, with no Unicode case mapping.
- ListRepr: renders `str()` of a key list for keys without quotes or backslashes. Python's choice of double quotes and its escaping are not modelled.
- CostText: the Total Cost is held as the text Python prints for it. Rendering a float as text is not modelled.
- JSON `null` values in a plan record are not modelled: a field is either missing or holds a value of its type.
- A plan record without "Plans" is modelled as one with no subplans, which the walk treats alike.
- `first_from` is modelled as an optional line. It only ever holds a non-empty `FROM` line, so its truth value is the same as whether it is present.
