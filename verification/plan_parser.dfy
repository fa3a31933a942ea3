/** `parse_query_explanation_to_tree`, `is_query` and `is_cond` of preprocessing.py: a
    plain-text EXPLAIN listing, one line per element, rebuilt into a plan tree.

    The parser keeps `all_nodes`, a stack of the nodes on the path from the root to the
    node created last. Nodes are values here, so a node on the stack is an open frame:
    it holds the children already closed under it, and a frame is hung under the frame
    below it when it is popped (or when the listing ends). `Close` folds a stack into
    the tree the source's shared node objects form at that moment.

    The method is proved against `Parse`, which reads the listing without any stack:
    it lists the nodes in creation order (pre-order) with their level and conditions,
    and the arrow columns seen so far. */
module PlanParser {
  import opened Text
  import opened ExecutionPlan

  // ---------------------------------------------------------------------------
  // Line classification
  // ---------------------------------------------------------------------------

  /** `is_query`: the line has an arrow. */
  predicate IsQuery(line: string): (r: bool)
    ensures r <==> exists j :: OccursAt(line, j, "->")
  {
    Contains(line, "->")
  }

  /** `is_cond`: the line has a colon. */
  predicate IsCond(line: string): (r: bool)
    ensures r <==> ':' in line
  {
    ContainsChar(line, ':');
    Contains(line, ":")
  }

  /** A line that makes a node: the colon test comes first, so an arrow line with a colon
      is a condition. */
  predicate IsOperatorLine(line: string) {
    IsQuery(line) && !IsCond(line)
  }

  /** `line.index("->")`. */
  function ArrowColumn(line: string): (r: nat)
    requires IsQuery(line)
    ensures OccursAt(line, r, "->") && forall j :: j < r ==> !OccursAt(line, j, "->")
  {
    Find(line, "->").value
  }

  /** `line.split("->")[-1].strip()`: the stripped text after the last arrow, or the whole
      stripped line when it has no arrow. */
  function OperatorText(line: string): (r: string)
    ensures !IsQuery(line) ==> r == Strip(line)
    ensures IsQuery(line) ==>
              exists tail :: EndsWith(line, "->" + tail) && !Contains(tail, "->") && r == Strip(tail)
  {
    var piece := Last(Split(line, "->"));
    SplitLastAfter(line, "->");
    SplitLastClean(line, "->");
    Strip(piece)
  }

  // ---------------------------------------------------------------------------
  // arrow_places
  // ---------------------------------------------------------------------------

  /** No column is listed twice. */
  predicate NoDuplicates(xs: seq<nat>) {
    forall i, j :: 0 <= i < j < |xs| ==> xs[i] != xs[j]
  }

  /** `xs.index(x)`: the position of the first `x`. */
  function IndexOf(xs: seq<nat>, x: nat): (r: nat)
    requires x in xs
    ensures r < |xs| && xs[r] == x && x !in xs[..r]
  {
    if xs[0] == x then 0 else assert xs == [xs[0]] + xs[1..]; 1 + IndexOf(xs[1..], x)
  }

  /** `if col not in arrow_places: arrow_places.append(col)`. */
  function AddPlace(places: seq<nat>, col: nat): (r: seq<nat>)
    ensures col in r && places <= r && (forall x :: x in r ==> x in places || x == col)
  {
    if col in places then places else places + [col]
  }

  /** The places after appending each unseen column of `cols`, in order. */
  function AddPlaces(places: seq<nat>, cols: seq<nat>): seq<nat>
    decreases |cols|
  {
    if cols == [] then places else AddPlace(AddPlaces(places, cols[..|cols| - 1]), cols[|cols| - 1])
  }

  // ---------------------------------------------------------------------------
  // The reference reading: nodes in creation order
  // ---------------------------------------------------------------------------

  datatype ScanState = ScanState(entries: seq<Entry>, places: seq<nat>)

  /** `current_node.add_condition(line)`: the current node is always the one created last. */
  function AppendCondition(entries: seq<Entry>, line: string): (r: seq<Entry>)
    requires |entries| > 0
    ensures |r| == |entries| && r[..|r| - 1] == entries[..|entries| - 1]
    ensures r[|r| - 1] == Last(entries).(conditions := Last(entries).conditions + [Strip(line)])
  {
    var e := Last(entries);
    entries[..|entries| - 1] + [e.(conditions := e.conditions + [Strip(line)])]
  }

  /** One line after the first. A condition line extends the node created last; an arrow
      line creates a node whose level is the rank of its arrow column among the columns
      seen so far; any other line is skipped. An arrow at column 0 has level 0, and the
      source then pops the root off `all_nodes` and fails on the empty stack. */
  function Step(st: ScanState, line: string): (r: Outcome<ScanState>)
    requires |st.entries| > 0
    ensures !IsQuery(line) && !IsCond(line) ==> r == Ok(st)
    ensures IsCond(line) ==> r.Ok? && r.value.places == st.places
    ensures r.Fail? ==> IsOperatorLine(line)
    ensures IsOperatorLine(line) && r.Ok? ==>
              |r.value.entries| == |st.entries| + 1 && r.value.entries[..|st.entries|] == st.entries
              && Last(r.value.entries).level > 0 && Last(r.value.entries).conditions == []
  {
    if IsCond(line) then Ok(st.(entries := AppendCondition(st.entries, line)))
    else if IsQuery(line) then
      var places := AddPlace(st.places, ArrowColumn(line));
      var level := IndexOf(places, ArrowColumn(line));
      if level == 0 then Fail(RootPopped(line))
      else
        match SetOperation(OperatorText(line))
        case Fail(e) => Fail(e)
        case Ok(op) => Ok(ScanState(st.entries + [Entry(op, level, [])], places))
    else Ok(st)
  }

  /** The lines read in order from `first`, stopping at the first failure. */
  function Scan(first: ScanState, lines: seq<string>): (r: Outcome<ScanState>)
    requires |first.entries| > 0
    decreases |lines|
    ensures r.Ok? ==> |r.value.entries| >= |first.entries|
  {
    if lines == [] then Ok(first)
    else
      match Scan(first, lines[..|lines| - 1])
      case Fail(e) => Fail(e)
      case Ok(st) => Step(st, lines[|lines| - 1])
  }

  /** The state right after the first line: the root at level 0, and `arrow_places == [0]`. */
  function Start(op: Operation): ScanState {
    ScanState([Entry(op, 0, [])], [0])
  }

  /** What the parser makes of a whole listing, as nodes in creation order. */
  function Parse(explanation: seq<string>): (r: Outcome<ScanState>)
    ensures |explanation| == 0 ==> r == Fail(EmptyExplanation)
    ensures r.Ok? ==> |explanation| > 0 && SetOperation(explanation[0]).Ok? && |r.value.entries| >= 1
  {
    if |explanation| == 0 then Fail(EmptyExplanation)
    else
      match SetOperation(explanation[0])
      case Fail(e) => Fail(e)
      case Ok(op) => Scan(Start(op), explanation[1..])
  }

  lemma {:induction false} ScanSnoc(first: ScanState, lines: seq<string>, i: nat)
    requires |first.entries| > 0 && i < |lines|
    requires Scan(first, lines[..i]).Ok?
    ensures Scan(first, lines[..i + 1]) == Step(Scan(first, lines[..i]).value, lines[i])
  {
    assert lines[..i + 1][..i] == lines[..i];
  }

  /** Reading stops at the first failure: the failure of a prefix is the failure of all. */
  lemma {:induction false} ScanFailSticks(first: ScanState, lines: seq<string>, i: nat)
    requires |first.entries| > 0 && i <= |lines|
    requires Scan(first, lines[..i]).Fail?
    ensures Scan(first, lines) == Scan(first, lines[..i])
    decreases |lines| - i
  {
    if i < |lines| {
      assert lines[..i + 1][..i] == lines[..i];
      ScanFailSticks(first, lines, i + 1);
    } else {
      assert lines[..i] == lines;
    }
  }

  // ---------------------------------------------------------------------------
  // What the reading accepts and what it makes
  // ---------------------------------------------------------------------------

  /** A line the parser gets past: every line but an operator line whose arrow is at
      column 0 or whose text `set_operation` rejects. */
  predicate Accepted(line: string) {
    IsOperatorLine(line) ==> ArrowColumn(line) != 0 && SetOperation(OperatorText(line)).Ok?
  }

  /** The failure a rejected line raises. */
  function LineError(line: string): ParseError
    requires !Accepted(line)
  {
    if ArrowColumn(line) == 0 then RootPopped(line) else SetOperation(OperatorText(line)).error
  }

  /** Column 0 comes first among the arrow places: it is the root's. */
  predicate RootFirst(places: seq<nat>) {
    |places| >= 1 && places[0] == 0
  }

  /** One line fails exactly when it is rejected, with that line's error. */
  lemma {:induction false} StepOutcome(st: ScanState, line: string)
    requires |st.entries| > 0 && RootFirst(st.places)
    ensures Step(st, line).Ok? <==> Accepted(line)
    ensures Step(st, line).Fail? ==> Step(st, line).error == LineError(line)
    ensures Step(st, line).Ok? ==> RootFirst(Step(st, line).value.places)
  {
    if IsOperatorLine(line) {
      var col := ArrowColumn(line);
      var places := AddPlace(st.places, col);
      assert places[0] == 0;
      var level := IndexOf(places, col);
      assert level == 0 <==> col == 0 by {
        if col == 0 {
          assert col !in places[..level];
          assert level == 0;
        }
      }
    }
  }

  /** Every line of `lines` is accepted. */
  predicate AllAccepted(lines: seq<string>)
    decreases |lines|
  {
    lines == [] || (AllAccepted(lines[..|lines| - 1]) && Accepted(lines[|lines| - 1]))
  }

  lemma {:induction false} AllAcceptedEach(lines: seq<string>)
    ensures AllAccepted(lines) <==> forall i :: 0 <= i < |lines| ==> Accepted(lines[i])
    decreases |lines|
  {
    if lines != [] {
      var init := lines[..|lines| - 1];
      AllAcceptedEach(init);
      assert forall i :: 0 <= i < |init| ==> init[i] == lines[i];
    }
  }

  /** The reading succeeds exactly when every line is accepted. */
  lemma {:induction false} ScanOk(first: ScanState, lines: seq<string>)
    requires |first.entries| > 0 && RootFirst(first.places)
    ensures Scan(first, lines).Ok? <==> AllAccepted(lines)
    ensures Scan(first, lines).Ok? ==> RootFirst(Scan(first, lines).value.places)
    decreases |lines|
  {
    if lines != [] {
      var init := lines[..|lines| - 1];
      ScanOk(first, init);
      if Scan(first, init).Ok? {
        StepOutcome(Scan(first, init).value, lines[|lines| - 1]);
      }
    }
  }

  /** The first `i` lines are accepted and line `i` is not. */
  predicate FirstRejected(lines: seq<string>, i: int) {
    0 <= i < |lines| && AllAccepted(lines[..i]) && !Accepted(lines[i])
  }

  /** Line `i` is the first rejected line and `e` is its error. */
  predicate RejectedWith(lines: seq<string>, i: int, e: ParseError) {
    FirstRejected(lines, i) && e == LineError(lines[i])
  }

  /** A failed reading fails with the error of the first rejected line. */
  lemma {:induction false} ScanFailure(first: ScanState, lines: seq<string>)
    requires |first.entries| > 0 && RootFirst(first.places)
    requires Scan(first, lines).Fail?
    ensures exists i :: RejectedWith(lines, i, Scan(first, lines).error)
    decreases |lines|
  {
    var n := |lines| - 1;
    var init := lines[..n];
    if Scan(first, init).Fail? {
      var e := Scan(first, init).error;
      assert Scan(first, lines) == Fail(e);
      ScanFailure(first, init);
      var i :| RejectedWith(init, i, e);
      RejectedExtend(init, lines, i, e);
    } else {
      var st := Scan(first, init).value;
      assert Scan(first, lines) == Step(st, lines[n]);
      ScanOk(first, init);
      StepOutcome(st, lines[n]);
      assert RejectedWith(lines, n, Scan(first, lines).error);
    }
  }

  lemma {:induction false} RejectedExtend(init: seq<string>, lines: seq<string>, i: int, e: ParseError)
    requires RejectedWith(init, i, e) && init <= lines
    ensures RejectedWith(lines, i, e)
  {
    assert init[..i] == lines[..i] && init[i] == lines[i];
  }

  /** The operator lines among `lines`, in order: one node each. */
  function OperatorLines(lines: seq<string>): (r: seq<string>)
    ensures forall x :: x in r ==> IsOperatorLine(x) && x in lines
    decreases |lines|
  {
    if lines == [] then []
    else
      var init := OperatorLines(lines[..|lines| - 1]);
      if IsOperatorLine(lines[|lines| - 1]) then init + [lines[|lines| - 1]] else init
  }

  /** The stripped condition lines among `lines`, in order. */
  function ConditionTexts(lines: seq<string>): (r: seq<string>)
    decreases |lines|
  {
    if lines == [] then []
    else
      var init := ConditionTexts(lines[..|lines| - 1]);
      if IsCond(lines[|lines| - 1]) then init + [Strip(lines[|lines| - 1])] else init
  }

  /** Every condition of every entry, in order. */
  function AllConditions(entries: seq<Entry>): seq<string>
    decreases |entries|
  {
    if entries == [] then [] else AllConditions(entries[..|entries| - 1]) + entries[|entries| - 1].conditions
  }

  /** The kind and level of an entry stay as they were created: later lines only add
      conditions. */
  predicate SameNode(a: Entry, b: Entry) {
    a.op == b.op && a.level == b.level
  }

  /** One line appends one entry when it is an operator line and none otherwise; the
      entries read before keep their operation and level, and arrow places are only
      appended. */
  lemma {:induction false} StepEffect(st: ScanState, line: string)
    requires |st.entries| > 0 && Step(st, line).Ok?
    ensures var r := Step(st, line).value;
            st.places <= r.places
            && |r.entries| == |st.entries| + (if IsOperatorLine(line) then 1 else 0)
            && (forall j :: 0 <= j < |st.entries| ==> SameNode(r.entries[j], st.entries[j]))
  {
    var r := Step(st, line).value;
    var n := |st.entries|;
    if IsCond(line) {
      var c := AppendCondition(st.entries, line);
      assert r.entries == c;
      forall j | 0 <= j < n
        ensures SameNode(c[j], st.entries[j])
      {
        if j < n - 1 {
          assert c[j] == c[..n - 1][j];
        }
      }
    } else if IsQuery(line) {
      var e := Last(r.entries);
      assert r.entries == st.entries + [e];
    }
  }

  /** A condition line adds its stripped text to the entry created last; an operator line
      adds an entry with no conditions. */
  lemma {:induction false} StepConditions(st: ScanState, line: string)
    requires |st.entries| > 0 && Step(st, line).Ok?
    ensures AllConditions(Step(st, line).value.entries)
            == AllConditions(st.entries) + (if IsCond(line) then [Strip(line)] else [])
  {
    var r := Step(st, line).value;
    var n := |st.entries|;
    if IsCond(line) {
      assert r.entries[..n - 1] == st.entries[..n - 1];
    } else if IsQuery(line) {
      assert r.entries[..n] == st.entries;
    }
  }

  /** The entry an operator line creates, seen against the final arrow places: its
      operation is what `set_operation` makes of the text after the last arrow, and its
      level is the rank of its arrow column. */
  predicate EntryFor(e: Entry, line: string, places: seq<nat>) {
    IsOperatorLine(line) && ArrowColumn(line) in places
    && SetOperation(OperatorText(line)) == Ok(e.op)
    && e.level == IndexOf(places, ArrowColumn(line))
  }

  lemma {:induction false} StepOperator(st: ScanState, line: string)
    requires |st.entries| > 0 && Step(st, line).Ok? && IsOperatorLine(line)
    ensures EntryFor(Last(Step(st, line).value.entries), line, Step(st, line).value.places)
  {
  }

  /** The first position of `x` does not move when more places are appended. */
  lemma {:induction false} IndexOfExtend(p: seq<nat>, q: seq<nat>, x: nat)
    requires x in p && p <= q
    ensures x in q && IndexOf(q, x) == IndexOf(p, x)
  {
    var i := IndexOf(p, x);
    var k := IndexOf(q, x);
    assert q[..i] == p[..i];
  }

  lemma {:induction false} EntryForExtend(e: Entry, f: Entry, line: string, p: seq<nat>, q: seq<nat>)
    requires EntryFor(e, line, p) && p <= q && SameNode(f, e)
    ensures EntryFor(f, line, q)
  {
    IndexOfExtend(p, q, ArrowColumn(line));
  }

  /** Each accepted operator line adds one entry and no other line does; the entries
      read before keep their operation and level. */
  lemma {:induction false} ScanKeeps(first: ScanState, lines: seq<string>)
    requires |first.entries| > 0
    ensures Scan(first, lines).Ok? ==>
              var r := Scan(first, lines).value;
              first.places <= r.places
              && |r.entries| == |first.entries| + |OperatorLines(lines)|
              && (forall j :: 0 <= j < |first.entries| ==> SameNode(r.entries[j], first.entries[j]))
    decreases |lines|
  {
    if lines != [] && Scan(first, lines).Ok? {
      var init := lines[..|lines| - 1];
      ScanKeeps(first, init);
      StepEffect(Scan(first, init).value, lines[|lines| - 1]);
    }
  }

  /** The conditions read are the condition lines, stripped, in order. */
  lemma {:induction false} ScanConditions(first: ScanState, lines: seq<string>)
    requires |first.entries| > 0
    ensures Scan(first, lines).Ok? ==>
              AllConditions(Scan(first, lines).value.entries)
              == AllConditions(first.entries) + ConditionTexts(lines)
    decreases |lines|
  {
    if lines != [] && Scan(first, lines).Ok? {
      var init, line := lines[..|lines| - 1], lines[|lines| - 1];
      var st := Scan(first, init).value;
      assert Scan(first, lines) == Step(st, line);
      ScanConditions(first, init);
      StepConditions(st, line);
      var added := if IsCond(line) then [Strip(line)] else [];
      assert ConditionTexts(lines) == ConditionTexts(init) + added;
      AppendAssoc(AllConditions(first.entries), ConditionTexts(init), added);
    }
  }

  /** The entries from position `m` on are the ones the lines `ops` create, in order. */
  predicate EntriesFor(m: nat, entries: seq<Entry>, ops: seq<string>, places: seq<nat>) {
    |entries| == m + |ops|
    && forall j :: 0 <= j < |ops| ==> EntryFor(entries[m + j], ops[j], places)
  }

  /** After reading `lines` from `first` into `r`, the `j`-th new entry is the one the
      `j`-th operator line creates. */
  predicate OperatorsRead(first: ScanState, lines: seq<string>, r: ScanState) {
    EntriesFor(|first.entries|, r.entries, OperatorLines(lines), r.places)
  }

  /** One line keeps the entries of the operator lines read before, and an operator line
      adds its own. */
  lemma {:induction false} StepEntries(m: nat, st: ScanState, line: string, ops: seq<string>)
    requires |st.entries| > 0 && Step(st, line).Ok? && EntriesFor(m, st.entries, ops, st.places)
    ensures EntriesFor(m, Step(st, line).value.entries,
                       if IsOperatorLine(line) then ops + [line] else ops, Step(st, line).value.places)
  {
    var r := Step(st, line).value;
    var ops' := if IsOperatorLine(line) then ops + [line] else ops;
    StepEffect(st, line);
    forall j | 0 <= j < |ops'|
      ensures EntryFor(r.entries[m + j], ops'[j], r.places)
    {
      if j < |ops| {
        assert ops'[j] == ops[j];
        EntryForExtend(st.entries[m + j], r.entries[m + j], ops[j], st.places, r.places);
      } else {
        StepOperator(st, line);
      }
    }
  }

  lemma {:induction false} StepOperators(first: ScanState, lines: seq<string>)
    requires |first.entries| > 0 && lines != [] && Scan(first, lines).Ok?
    requires OperatorsRead(first, lines[..|lines| - 1], Scan(first, lines[..|lines| - 1]).value)
    ensures OperatorsRead(first, lines, Scan(first, lines).value)
  {
    var init := lines[..|lines| - 1];
    var line := lines[|lines| - 1];
    var st := Scan(first, init).value;
    assert Scan(first, lines) == Step(st, line);
    StepEntries(|first.entries|, st, line, OperatorLines(init));
  }

  /** The `j`-th new entry is the one the `j`-th operator line creates. */
  lemma {:induction false} ScanOperators(first: ScanState, lines: seq<string>)
    requires |first.entries| > 0
    ensures Scan(first, lines).Ok? ==> OperatorsRead(first, lines, Scan(first, lines).value)
    decreases |lines|
  {
    if lines != [] && Scan(first, lines).Ok? {
      ScanOperators(first, lines[..|lines| - 1]);
      StepOperators(first, lines);
    }
  }

  /** The arrow columns of arrow lines. */
  function Columns(lines: seq<string>): (r: seq<nat>)
    requires forall x :: x in lines ==> IsQuery(x)
    decreases |lines|
  {
    if lines == [] then [] else Columns(lines[..|lines| - 1]) + [ArrowColumn(lines[|lines| - 1])]
  }

  /** One line appends its arrow column to the places when it is an operator line. */
  lemma {:induction false} StepPlaces(st: ScanState, line: string)
    requires |st.entries| > 0 && Step(st, line).Ok?
    ensures Step(st, line).value.places
            == if IsOperatorLine(line) then AddPlace(st.places, ArrowColumn(line)) else st.places
  {
  }

  /** `arrow_places` after reading: the arrow columns of the operator lines, each appended
      when first seen, after the ones known before. */
  lemma {:induction false} ScanPlaces(first: ScanState, lines: seq<string>)
    requires |first.entries| > 0
    ensures Scan(first, lines).Ok? ==>
              Scan(first, lines).value.places == AddPlaces(first.places, Columns(OperatorLines(lines)))
    decreases |lines|
  {
    if lines != [] && Scan(first, lines).Ok? {
      var init := lines[..|lines| - 1];
      var line := lines[|lines| - 1];
      ScanPlaces(first, init);
      StepPlaces(Scan(first, init).value, line);
      if IsOperatorLine(line) {
        var ops := OperatorLines(init) + [line];
        assert ops[..|ops| - 1] == OperatorLines(init);
      }
    }
  }

  /** Appending unseen columns one by one never lists a column twice, and lists exactly
      the columns known before and the ones appended. */
  lemma {:induction false} AddPlacesDistinct(places: seq<nat>, cols: seq<nat>)
    requires NoDuplicates(places)
    ensures NoDuplicates(AddPlaces(places, cols))
    ensures forall x :: x in AddPlaces(places, cols) <==> x in places || x in cols
    decreases |cols|
  {
    if cols != [] {
      var init := cols[..|cols| - 1];
      AddPlacesDistinct(places, init);
      assert forall x :: x in cols <==> x in init || x == cols[|cols| - 1];
    }
  }

  /** A listing is read exactly when it is not empty, its first line is a valid
      operation, and every later line is accepted. */
  lemma {:induction false} ParseOk(explanation: seq<string>)
    ensures Parse(explanation).Ok? <==>
              |explanation| > 0 && SetOperation(explanation[0]).Ok? && AllAccepted(explanation[1..])
  {
    if |explanation| > 0 && SetOperation(explanation[0]).Ok? {
      ScanOk(Start(SetOperation(explanation[0]).value), explanation[1..]);
    }
  }

  /** Why a listing is refused: it is empty, its first line is malformed, or it has a
      first rejected line, whose error is the listing's. */
  lemma {:induction false} ParseFailure(explanation: seq<string>)
    requires Parse(explanation).Fail?
    ensures |explanation| == 0 ==> Parse(explanation).error == EmptyExplanation
    ensures |explanation| > 0 && SetOperation(explanation[0]).Fail? ==>
              Parse(explanation).error == MalformedAnnotation(explanation[0])
    ensures |explanation| > 0 && SetOperation(explanation[0]).Ok? ==>
              exists i :: RejectedWith(explanation[1..], i, Parse(explanation).error)
  {
    if |explanation| > 0 && SetOperation(explanation[0]).Ok? {
      ScanFailure(Start(SetOperation(explanation[0]).value), explanation[1..]);
    }
  }

  /** What a read listing makes: the root from the first line at level 0, then one entry
      per operator line, each with the operation of its text and the rank of its arrow
      column among `arrow_places`, which lists the arrow columns once each from column 0;
      and every condition line, stripped, in order. */
  lemma {:induction false} ParseReads(explanation: seq<string>)
    requires Parse(explanation).Ok?
    ensures var r := Parse(explanation).value;
            var lines := explanation[1..];
            |explanation| > 0 && SetOperation(explanation[0]).Ok?
            && r.entries[0].op == SetOperation(explanation[0]).value && r.entries[0].level == 0
            && EntriesFor(1, r.entries, OperatorLines(lines), r.places)
            && r.places == AddPlaces([0], Columns(OperatorLines(lines)))
            && NoDuplicates(r.places)
            && AllConditions(r.entries) == ConditionTexts(lines)
  {
    var first := Start(SetOperation(explanation[0]).value);
    var lines := explanation[1..];
    ScanKeeps(first, lines);
    ScanOperators(first, lines);
    ScanPlaces(first, lines);
    ScanConditions(first, lines);
    AddPlacesDistinct([0], Columns(OperatorLines(lines)));
    assert AllConditions(first.entries) == [] by {
      assert first.entries[..0] == [];
    }
  }

  // ---------------------------------------------------------------------------
  // The node stack
  // ---------------------------------------------------------------------------

  /** `all_nodes.pop()`: the top frame is closed under the frame below it. */
  function Pop(stack: seq<Node>): (r: seq<Node>)
    requires |stack| >= 2
    ensures |r| == |stack| - 1 && r[..|r| - 1] == stack[..|stack| - 2]
  {
    stack[..|stack| - 2] + [AddChild(stack[|stack| - 2], stack[|stack| - 1])]
  }

  /** The tree a stack of open frames stands for: every frame closed under the one below. */
  function Close(stack: seq<Node>): Node
    requires |stack| >= 1
    decreases |stack|
  {
    if |stack| == 1 then stack[0] else AddChild(stack[0], Close(stack[1..]))
  }

  /** Popping changes the frames, not the tree they stand for. */
  lemma {:induction false} ClosePop(stack: seq<Node>)
    requires |stack| >= 2
    ensures Close(Pop(stack)) == Close(stack)
    decreases |stack|
  {
    var p := Pop(stack);
    if |stack| > 2 {
      assert p[1..] == Pop(stack[1..]);
      ClosePop(stack[1..]);
    } else {
      assert stack[1..] == [stack[1]];
    }
  }

  /** `upper` was pushed right above `lower`: deeper than it, and, when `lower` already has
      children, after them and no deeper than the last one. */
  predicate Above(lower: Node, upper: Node) {
    lower.level < upper.level
    && (lower.children != [] ==> upper.level <= Last(lower.children).level)
  }

  /** The levels on the stack rise from the root's 0, every frame is nested, and each
      frame sits above the one below it. */
  predicate StackOk(stack: seq<Node>) {
    |stack| >= 1 && stack[0].level == 0
    && (forall k :: 0 <= k < |stack| ==> Nested(stack[k]))
    && (forall k :: 0 <= k < |stack| - 1 ==> Above(stack[k], stack[k + 1]))
  }

  lemma {:induction false} LeafPreOrder(n: Node)
    requires n.children == []
    ensures PreOrder(n) == [Label(n)]
  {
    assert Dfs(n) == [n];
  }

  /** Closing a stack with one more frame on top adds that frame's nodes at the end. */
  lemma {:induction false} CloseAppend(stack: seq<Node>, x: Node)
    requires |stack| >= 1
    ensures PreOrder(Close(stack + [x])) == PreOrder(Close(stack)) + PreOrder(x)
    decreases |stack|
  {
    var s := stack + [x];
    if |stack| == 1 {
      assert s[1..] == [x];
      PreOrderAddChild(stack[0], x);
    } else {
      assert s[1..] == stack[1..] + [x];
      CloseAppend(stack[1..], x);
      PreOrderAddChild(stack[0], Close(s[1..]));
      PreOrderAddChild(stack[0], Close(stack[1..]));
    }
  }

  /** Pushing a fresh node appends its entry to the nodes in creation order. */
  lemma {:induction false} PushEntries(stack: seq<Node>, x: Node)
    requires |stack| >= 1 && x.children == []
    ensures PreOrder(Close(stack + [x])) == PreOrder(Close(stack)) + [Label(x)]
  {
    CloseAppend(stack, x);
    LeafPreOrder(x);
  }

  /** A condition on the top frame extends the entry created last. */
  lemma {:induction false} ConditionEntries(stack: seq<Node>, line: string)
    requires |stack| >= 1 && Last(stack).children == []
    ensures PreOrder(Close(stack[..|stack| - 1] + [AddCondition(Last(stack), line)]))
            == AppendCondition(PreOrder(Close(stack)), line)
  {
    var n := |stack|;
    var top := Last(stack);
    LeafPreOrder(top);
    LeafPreOrder(AddCondition(top, line));
    if n == 1 {
      assert stack == [top];
    } else {
      PushEntries(stack[..n - 1], top);
      PushEntries(stack[..n - 1], AddCondition(top, line));
      assert stack[..n - 1] + [top] == stack;
    }
  }

  lemma {:induction false} NestedAddChild(p: Node, c: Node)
    requires Nested(p) && Nested(c) && c.level > p.level
    requires p.children != [] ==> c.level <= Last(p.children).level
    ensures Nested(AddChild(p, c))
  {
    var q := AddChild(p, c);
    assert q.children == p.children + [c];
    assert forall i :: 0 <= i < |p.children| ==> q.children[i] == p.children[i];
  }

  lemma {:induction false} PopOk(stack: seq<Node>)
    requires StackOk(stack) && |stack| >= 2
    ensures StackOk(Pop(stack))
  {
    var n := |stack|;
    NestedAddChild(stack[n - 2], stack[n - 1]);
    var r := Pop(stack);
    forall k | 0 <= k < n - 1
      ensures Nested(r[k])
    {
      if k < n - 2 {
        assert r[k] == stack[k];
      }
    }
    forall k | 0 <= k < n - 2
      ensures Above(r[k], r[k + 1])
    {
      assert r[k] == stack[k];
      if k + 1 < n - 2 {
        assert r[k + 1] == stack[k + 1];
      } else {
        assert r[k + 1].level == stack[k + 1].level;
      }
    }
  }

  lemma {:induction false} PushOk(stack: seq<Node>, x: Node)
    requires StackOk(stack) && x.children == [] && Above(Last(stack), x)
    ensures StackOk(stack + [x])
  {
    var r := stack + [x];
    var n := |stack|;
    forall k | 0 <= k < n + 1
      ensures Nested(r[k])
    {
      if k < n {
        assert r[k] == stack[k];
      } else {
        assert r[k] == x;
      }
    }
    forall k | 0 <= k < n
      ensures Above(r[k], r[k + 1])
    {
      assert r[k] == stack[k];
      if k + 1 < n {
        assert r[k + 1] == stack[k + 1];
      } else {
        assert r[k + 1] == x;
      }
    }
  }

  lemma {:induction false} ConditionOk(stack: seq<Node>, line: string)
    requires StackOk(stack)
    ensures StackOk(stack[..|stack| - 1] + [AddCondition(Last(stack), line)])
  {
    var r := stack[..|stack| - 1] + [AddCondition(Last(stack), line)];
    assert forall k :: 0 <= k < |stack| - 1 ==> r[k] == stack[k];
    assert Nested(r[|stack| - 1]) by {
      assert r[|stack| - 1].children == Last(stack).children;
    }
  }

  /** The closed tree of a well-formed stack is nested and rooted at level 0. */
  lemma {:induction false} CloseOk(stack: seq<Node>)
    requires StackOk(stack)
    ensures Nested(Close(stack)) && Close(stack).level == 0
    decreases |stack|
  {
    if |stack| >= 2 {
      PopOk(stack);
      CloseOk(Pop(stack));
      ClosePop(stack);
    }
  }

  // ---------------------------------------------------------------------------
  // parse_query_explanation_to_tree
  // ---------------------------------------------------------------------------

  /** The parser's working state: `all_nodes`, `arrow_places` and `current_level`. */
  datatype Frames = Frames(allNodes: seq<Node>, arrowPlaces: seq<nat>, currentLevel: nat)

  /** The top frame is the node created last, with no children yet, at `current_level`. */
  predicate FramesOk(f: Frames) {
    StackOk(f.allNodes) && Last(f.allNodes).children == [] && f.currentLevel == Last(f.allNodes).level
  }

  /** What the frames stand for: the nodes in creation order and the arrow columns. */
  function View(f: Frames): ScanState
    requires |f.allNodes| >= 1
  {
    ScanState(PreOrder(Close(f.allNodes)), f.arrowPlaces)
  }

  function ViewOutcome(r: Outcome<Frames>): Outcome<ScanState>
    requires r.Ok? ==> |r.value.allNodes| >= 1
  {
    match r
    case Ok(f) => Ok(View(f))
    case Fail(e) => Fail(e)
  }

  /** A condition line goes to the top frame, which is the entry created last. */
  lemma {:induction false} ConditionFrame(f: Frames, line: string)
    requires FramesOk(f)
    ensures var nodes := f.allNodes[..|f.allNodes| - 1] + [AddCondition(Last(f.allNodes), line)];
            var g := Frames(nodes, f.arrowPlaces, f.currentLevel);
            FramesOk(g) && View(g) == View(f).(entries := AppendCondition(View(f).entries, line))
  {
    ConditionEntries(f.allNodes, line);
    ConditionOk(f.allNodes, line);
  }

  /** A fresh node pushed above the frames appends its entry. */
  lemma {:induction false} PushFrame(nodes: seq<Node>, places: seq<nat>, node: Node)
    requires StackOk(nodes) && node.children == [] && Above(Last(nodes), node)
    ensures FramesOk(Frames(nodes + [node], places, node.level))
    ensures View(Frames(nodes + [node], places, node.level))
            == ScanState(PreOrder(Close(nodes)) + [Label(node)], places)
  {
    PushEntries(nodes, node);
    PushOk(nodes, node);
  }

  /** The inner loop of the parser: `all_nodes.pop()` while the top frame sits at `level`
      or deeper. When that pops the root (only at level 0), the next `all_nodes[-1]` fails. */
  method PopTo(allNodes: seq<Node>, level: nat) returns (r: Option<seq<Node>>)
    requires StackOk(allNodes) && Last(allNodes).children == [] && level <= Last(allNodes).level
    ensures r.None? <==> level == 0
    ensures r.Some? ==> StackOk(r.value) && PreOrder(Close(r.value)) == PreOrder(Close(allNodes))
    ensures r.Some? ==> Last(r.value).children != [] && Last(r.value).level < level <= Last(Last(r.value).children).level
  {
    var nodes := allNodes;
    while Last(nodes).level >= level
      invariant StackOk(nodes) && PreOrder(Close(nodes)) == PreOrder(Close(allNodes))
      invariant Last(nodes).children != [] ==> Last(Last(nodes).children).level >= level
      invariant nodes != allNodes ==> Last(nodes).children != []
      decreases |nodes|
    {
      if |nodes| == 1 {
        // the root is popped and `all_nodes[-1]` fails on the empty stack
        return None;
      }
      PopOk(nodes);
      ClosePop(nodes);
      nodes := Pop(nodes);
    }
    return Some(nodes);
  }

  /** The body of the parser's loop: one line after the first. A condition goes to the
      top frame; an arrow line deeper than `current_level` pushes a node, any other arrow
      line first pops every frame at its level or deeper. */
  method ReadLine(f: Frames, line: string) returns (r: Outcome<Frames>)
    requires FramesOk(f)
    ensures r.Ok? ==> FramesOk(r.value)
    ensures ViewOutcome(r) == Step(View(f), line)
  {
    var allNodes := f.allNodes;
    var arrowPlaces := f.arrowPlaces;
    if IsCond(line) {
      ConditionFrame(f, line);
      allNodes := allNodes[..|allNodes| - 1] + [AddCondition(Last(allNodes), line)];
      return Ok(Frames(allNodes, arrowPlaces, f.currentLevel));
    } else if IsQuery(line) {
      var arrowPosition := ArrowColumn(line);
      if arrowPosition !in arrowPlaces {
        arrowPlaces := arrowPlaces + [arrowPosition];
      }
      var level := IndexOf(arrowPlaces, arrowPosition);
      if level <= f.currentLevel {
        var popped := PopTo(allNodes, level);
        if popped.None? {
          return Fail(RootPopped(line));
        }
        allNodes := popped.value;
      }
      var op := SetOperation(OperatorText(line));
      if op.Fail? {
        return Fail(op.error);
      }
      var node := Leaf(op.value, level);
      PushFrame(allNodes, arrowPlaces, node);
      return Ok(Frames(allNodes + [node], arrowPlaces, level));
    }
    return Ok(f);
  }

  /** `parse_query_explanation_to_tree`, one listing line per element (the first column of
      each row). The tree lists the nodes in the order `Parse` creates them, with their
      levels and conditions, and every child sits deeper than its parent, after its
      elder siblings and no deeper than they do. */
  method ParseQueryExplanationToTree(explanation: seq<string>) returns (r: Outcome<Node>)
    ensures r.Fail? <==> Parse(explanation).Fail?
    ensures r.Fail? ==> r.error == Parse(explanation).error
    ensures r.Ok? ==> PreOrder(r.value) == Parse(explanation).value.entries
    ensures r.Ok? ==> Nested(r.value) && r.value.level == 0
  {
    if |explanation| == 0 {
      return Fail(EmptyExplanation);
    }
    var rootOp := SetOperation(explanation[0]);
    if rootOp.Fail? {
      return Fail(rootOp.error);
    }
    var root := Leaf(rootOp.value, 0);
    var frames := Frames([root], [0], 0);
    var rest := explanation[1..];
    ghost var first := Start(rootOp.value);
    LeafPreOrder(root);
    for i := 0 to |rest|
      invariant FramesOk(frames)
      invariant Scan(first, rest[..i]) == Ok(View(frames))
    {
      ScanSnoc(first, rest, i);
      var next := ReadLine(frames, rest[i]);
      if next.Fail? {
        ScanFailSticks(first, rest, i + 1);
        return Fail(next.error);
      }
      frames := next.value;
    }
    assert rest[..|rest|] == rest;
    CloseOk(frames.allNodes);
    r := Ok(Close(frames.allNodes));
  }
}
