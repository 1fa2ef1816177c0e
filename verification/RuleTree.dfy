/** The decision tree behind the default draw: a loop that follows lines from node to node.
    Three kinds of node have logic; the loop has no check for cycles of its own. */
module RuleTree {
  import opened Collections
  import opened Wrappers
  import opened Text

  datatype RuleName = RuleLock | RuleLuckAward | RuleStock | Other(name: string)

  datatype CheckType = Allow | TakeOver

  datatype LimitType = EQUAL | GT | LT | GE | LE

  /** A line to another node, or to nowhere (the empty name). */
  datatype Line = Line(to: Option<RuleName>, limitType: LimitType, limitValue: CheckType)

  datatype Node = Node(ruleValue: string, lines: seq<Line>)

  datatype Tree = Tree(root: RuleName, nodes: map<RuleName, Node>)

  datatype Award = Award(id: int, ruleValue: string)

  datatype StockReply = Granted | Refused | StockError | EnqueueError

  /** What one node's logic does: an action and an award, an error, or a panic. */
  datatype Outcome = Action(check: CheckType, award: Award) | Failed | Panic

  /** Everything the nodes consult: the drawn award, the user's raffle count (fixed at 10 in the
      source), and the answer the stock gives if it is asked. */
  datatype Draw = Draw(award: int, raffleCount: int, stock: StockReply)

  function LockLogic(d: Draw, ruleValue: string): Outcome {
    match Atoi(ruleValue)
    case None => Panic
    case Some(needed) => Action(if d.raffleCount >= needed then Allow else TakeOver, Award(d.award, ruleValue))
  }

  function LuckLogic(ruleValue: string): Outcome {
    var parts := Split(ruleValue, ':');
    if |parts| != 2 || Atoi(parts[0]).None? then Panic
    else Action(TakeOver, Award(Atoi(parts[0]).value, parts[1]))
  }

  function StockLogic(d: Draw, ruleValue: string): Outcome {
    match d.stock
    case Granted => Action(Allow, Award(d.award, ruleValue))
    case Refused => Action(TakeOver, Award(d.award, ruleValue))
    case _ => Failed
  }

  /** The logic of a node; a node without logic or without a row is a nil dereference. */
  function Logic(t: Tree, key: RuleName, d: Draw): Outcome {
    if key !in t.nodes then Panic
    else
      match key
      case RuleLock => LockLogic(d, t.nodes[key].ruleValue)
      case RuleLuckAward => LuckLogic(t.nodes[key].ruleValue)
      case RuleStock => StockLogic(d, t.nodes[key].ruleValue)
      case Other(_) => Panic
  }

  predicate Decides(check: CheckType, line: Line) {
    line.limitType == EQUAL && check == line.limitValue
  }

  /** Where to go after `check`: nowhere when there are no lines, along the first line that decides,
      or no answer (a panic) when lines are there and none does. */
  function Next(check: CheckType, lines: seq<Line>): Option<Option<RuleName>> {
    if lines == [] then Some(None) else FirstMatch(check, lines)
  }

  function FirstMatch(check: CheckType, lines: seq<Line>): Option<Option<RuleName>> {
    if lines == [] then None
    else if Decides(check, lines[0]) then Some(lines[0].to)
    else FirstMatch(check, lines[1..])
  }

  datatype Verdict = Won(award: Award) | Error | Panicked

  /** One node: either the draw stops there or it goes on to another node. */
  datatype Move = Stop(verdict: Verdict) | To(key: RuleName)

  function Visit(t: Tree, key: RuleName, d: Draw): Move {
    match Logic(t, key, d)
    case Panic => Stop(Panicked)
    case Failed => Stop(Error)
    case Action(check, award) =>
      match Next(check, t.nodes[key].lines)
      case None => Stop(Panicked)
      case Some(None) => Stop(Won(award))
      case Some(Some(to)) => To(to)
  }

  // ---------------------------------------------------------------- reference semantics

  /** The meaning of the tree below `key`, leaving only nodes in `unvisited`; a node left twice has none. */
  function Eval(t: Tree, key: RuleName, d: Draw, unvisited: set<RuleName>): Option<Verdict>
    decreases |unvisited|
  {
    match Visit(t, key, d)
    case Stop(v) => Some(v)
    case To(next) => if key in unvisited then Eval(t, next, d, unvisited - {key}) else None
  }

  /** The nodes a draw visits, in order. */
  function Visited(t: Tree, key: RuleName, d: Draw, unvisited: set<RuleName>): (p: seq<RuleName>)
    ensures p != [] && p[0] == key
    decreases |unvisited|
  {
    match Visit(t, key, d)
    case Stop(_) => [key]
    case To(next) => if key in unvisited then [key] + Visited(t, next, d, unvisited - {key}) else [key]
  }

  // ---------------------------------------------------------------- assembly from the tables

  /** The lines of one node, in table order. */
  function LinesFrom(rows: seq<(RuleName, Line)>, key: RuleName): seq<Line> {
    if rows == [] then []
    else
      var before := LinesFrom(rows[..|rows| - 1], key);
      var last := rows[|rows| - 1];
      if last.0 == key then before + [last.1] else before
  }

  /** The node map: of several rows for one node the last one counts. */
  function NodesFrom(rows: seq<(RuleName, string)>, lineRows: seq<(RuleName, Line)>): map<RuleName, Node> {
    if rows == [] then map[]
    else
      var last := rows[|rows| - 1];
      NodesFrom(rows[..|rows| - 1], lineRows)[last.0 := Node(last.1, LinesFrom(lineRows, last.0))]
  }

  /** `lines` are those rows that start from `key`, all of them and in the order of the rows; `at` are their places. */
  ghost predicate OwnLinesAt(rows: seq<(RuleName, Line)>, key: RuleName, lines: seq<Line>, at: seq<int>) {
    && |at| == |lines| && Ascending(at)
    && (forall k :: 0 <= k < |at| ==> 0 <= at[k] < |rows| && rows[at[k]] == (key, lines[k]))
    && (forall i :: 0 <= i < |rows| && rows[i].0 == key ==> i in at)
  }

  ghost predicate OwnLines(rows: seq<(RuleName, Line)>, key: RuleName, lines: seq<Line>) {
    exists at :: OwnLinesAt(rows, key, lines, at)
  }

  lemma {:induction false} LinesAreOwn(rows: seq<(RuleName, Line)>, key: RuleName)
    ensures OwnLines(rows, key, LinesFrom(rows, key))
    decreases |rows|
  {
    if rows == [] {
      assert OwnLinesAt(rows, key, [], []);
    } else {
      var n := |rows| - 1;
      LinesAreOwn(rows[..n], key);
      var lines := LinesFrom(rows[..n], key);
      var at :| OwnLinesAt(rows[..n], key, lines, at);
      OneMoreRow(rows, key, lines, at);
    }
  }

  lemma OneMoreRow(rows: seq<(RuleName, Line)>, key: RuleName, lines: seq<Line>, at: seq<int>)
    requires rows != [] && OwnLinesAt(rows[..|rows| - 1], key, lines, at)
    ensures var n := |rows| - 1;
            if rows[n].0 == key then OwnLinesAt(rows, key, lines + [rows[n].1], at + [n])
            else OwnLinesAt(rows, key, lines, at)
  {
    var n := |rows| - 1;
    assert forall i :: 0 <= i < n ==> rows[..n][i] == rows[i];
    assert forall i :: i in at ==> i in at + [n];
    assert n in at + [n];
  }

  predicate IsLastOf(rows: seq<(RuleName, string)>, i: nat)
    requires i < |rows|
  {
    forall j :: i < j < |rows| ==> rows[j].0 != rows[i].0
  }

  lemma {:induction false} LastRowIsNode(rows: seq<(RuleName, string)>, lineRows: seq<(RuleName, Line)>, i: nat)
    requires i < |rows| && IsLastOf(rows, i)
    ensures var nodes := NodesFrom(rows, lineRows);
            rows[i].0 in nodes && nodes[rows[i].0] == Node(rows[i].1, LinesFrom(lineRows, rows[i].0))
    decreases |rows|
  {
    var n := |rows| - 1;
    if i < n {
      assert IsLastOf(rows[..n], i);
      LastRowIsNode(rows[..n], lineRows, i);
      assert rows[n].0 != rows[i].0;
    }
  }

  /** Every row's node is in the map, with exactly its own lines in table order and its last row's value. */
  lemma LastRowCounts(rows: seq<(RuleName, string)>, lineRows: seq<(RuleName, Line)>, i: nat)
    requires i < |rows| && IsLastOf(rows, i)
    ensures var nodes := NodesFrom(rows, lineRows);
            && rows[i].0 in nodes && nodes[rows[i].0].ruleValue == rows[i].1
            && OwnLines(lineRows, rows[i].0, nodes[rows[i].0].lines)
  {
    LastRowIsNode(rows, lineRows, i);
    LinesAreOwn(lineRows, rows[i].0);
  }

  /** And no other node is. */
  lemma {:induction false} OnlyRowsAreNodes(rows: seq<(RuleName, string)>, lineRows: seq<(RuleName, Line)>, key: RuleName)
    requires key in NodesFrom(rows, lineRows)
    ensures exists i :: 0 <= i < |rows| && rows[i].0 == key
    decreases |rows|
  {
    var n := |rows| - 1;
    if rows[n].0 != key {
      OnlyRowsAreNodes(rows[..n], lineRows, key);
      var i :| 0 <= i < n && rows[..n][i].0 == key;
      assert rows[i].0 == key;
    }
  }

  /** QueryRuleTree: group the lines by the node they start from, then hang each group on its node. */
  method AssembleTree(root: RuleName, nodeRows: seq<(RuleName, string)>,
                      lineRows: seq<(RuleName, Line)>) returns (t: Tree)
    ensures t == Tree(root, NodesFrom(nodeRows, lineRows))
    ensures forall i: nat :: i < |nodeRows| && IsLastOf(nodeRows, i) ==>
              && nodeRows[i].0 in t.nodes && t.nodes[nodeRows[i].0].ruleValue == nodeRows[i].1
              && OwnLines(lineRows, nodeRows[i].0, t.nodes[nodeRows[i].0].lines)
  {
    var linesOf: map<RuleName, seq<Line>> := map[];
    for i := 0 to |lineRows|
      invariant forall k :: (if k in linesOf then linesOf[k] else []) == LinesFrom(lineRows[..i], k)
    {
      var (from, line) := lineRows[i];
      assert lineRows[..i + 1][..i] == lineRows[..i];
      linesOf := linesOf[from := (if from in linesOf then linesOf[from] else []) + [line]];
    }
    assert lineRows[..|lineRows|] == lineRows;
    var nodes: map<RuleName, Node> := map[];
    for i := 0 to |nodeRows|
      invariant nodes == NodesFrom(nodeRows[..i], lineRows)
    {
      var (key, ruleValue) := nodeRows[i];
      assert nodeRows[..i + 1][..i] == nodeRows[..i];
      nodes := nodes[key := Node(ruleValue, if key in linesOf then linesOf[key] else [])];
    }
    assert nodeRows[..|nodeRows|] == nodeRows;
    forall i: nat | i < |nodeRows| && IsLastOf(nodeRows, i)
      ensures nodeRows[i].0 in nodes && nodes[nodeRows[i].0].ruleValue == nodeRows[i].1
      ensures OwnLines(lineRows, nodeRows[i].0, nodes[nodeRows[i].0].lines)
    {
      LastRowCounts(nodeRows, lineRows, i);
    }
    return Tree(root, nodes);
  }

  // ---------------------------------------------------------------- well-formed trees

  ghost predicate HasLine(t: Tree, from: RuleName, to: RuleName) {
    from in t.nodes && exists i :: 0 <= i < |t.nodes[from].lines| && t.nodes[from].lines[i].to == Some(to)
  }

  ghost predicate IsPath(t: Tree, p: seq<RuleName>) {
    forall i :: 0 <= i < |p| - 1 ==> HasLine(t, p[i], p[i + 1])
  }

  /** No node reaches itself along one or more lines. */
  ghost predicate Acyclic(t: Tree) {
    forall p :: IsPath(t, p) && |p| >= 2 ==> p[0] != p[|p| - 1]
  }

  /** Every node has logic and a readable rule value, its lines lead to nodes, and if it has any
      lines they decide every check its logic can produce. */
  ghost predicate WellFormed(t: Tree) {
    && t.root in t.nodes
    && (forall k :: k in t.nodes ==> !k.Other? && Readable(k, t.nodes[k].ruleValue) && Covers(k, t.nodes[k].lines))
    && (forall k, i :: k in t.nodes && 0 <= i < |t.nodes[k].lines| && t.nodes[k].lines[i].to.Some? ==>
          t.nodes[k].lines[i].to.value in t.nodes)
  }

  predicate Readable(k: RuleName, ruleValue: string) {
    match k
    case RuleLock => Atoi(ruleValue).Some?
    case RuleLuckAward => var parts := Split(ruleValue, ':'); |parts| == 2 && Atoi(parts[0]).Some?
    case _ => true
  }

  predicate Covers(k: RuleName, lines: seq<Line>) {
    lines == [] || (FirstMatch(TakeOver, lines).Some? && (k == RuleLuckAward || FirstMatch(Allow, lines).Some?))
  }

  lemma {:induction false} MatchIsALine(check: CheckType, lines: seq<Line>)
    ensures FirstMatch(check, lines).Some? ==>
              exists i :: 0 <= i < |lines| && Decides(check, lines[i]) && FirstMatch(check, lines) == Some(lines[i].to)
  {
    if lines != [] {
      MatchIsALine(check, lines[1..]);
      if Decides(check, lines[0]) {
        assert FirstMatch(check, lines) == Some(lines[0].to);
      } else if FirstMatch(check, lines[1..]).Some? {
        var i :| 0 <= i < |lines[1..]| && Decides(check, lines[1..][i]) && FirstMatch(check, lines[1..]) == Some(lines[1..][i].to);
        assert lines[i + 1] == lines[1..][i];
      }
    }
  }

  lemma MoveIsALine(t: Tree, key: RuleName, d: Draw)
    requires Visit(t, key, d).To?
    ensures key in t.nodes && HasLine(t, key, Visit(t, key, d).key)
  {
    MatchIsALine(Logic(t, key, d).check, t.nodes[key].lines);
  }

  /** A node panics exactly if it has no row, no logic, or a value that cannot be read, and fails exactly if it is the
      stock and the stock does. */
  lemma LogicPanicsIff(t: Tree, key: RuleName, d: Draw)
    ensures Logic(t, key, d) == Panic <==> key !in t.nodes || key.Other? || !Readable(key, t.nodes[key].ruleValue)
    ensures Logic(t, key, d) == Failed <==> key in t.nodes && key == RuleStock && d.stock != Granted && d.stock != Refused
  {
  }

  // ---------------------------------------------------------------- termination

  ghost function Elements(p: seq<RuleName>): set<RuleName> {
    set k | k in p
  }

  /** The loop ends if and only if no node is met twice. */
  predicate Terminates(t: Tree, d: Draw) {
    Eval(t, t.root, d, t.nodes.Keys).Some?
  }

  /** A path that comes back to one of its nodes contains a cycle. */
  lemma ReturnIsACycle(t: Tree, p: seq<RuleName>, to: RuleName)
    requires IsPath(t, p + [to]) && to in p
    ensures !Acyclic(t)
  {
    var i :| 0 <= i < |p| && p[i] == to;
    var loop := (p + [to])[i..];
    assert IsPath(t, loop);
    assert loop[0] == loop[|loop| - 1];
  }

  lemma {:induction false} AcyclicFrom(t: Tree, d: Draw, p: seq<RuleName>, key: RuleName)
    requires Acyclic(t) && IsPath(t, p + [key])
    ensures Eval(t, key, d, t.nodes.Keys - Elements(p)).Some?
    decreases |t.nodes.Keys - Elements(p)|
  {
    if Visit(t, key, d).To? {
      MoveIsALine(t, key, d);
      if key in p {
        ReturnIsACycle(t, p, key);
      } else {
        assert t.nodes.Keys - Elements(p) - {key} == t.nodes.Keys - Elements(p + [key]);
        AcyclicFrom(t, d, p + [key], Visit(t, key, d).key);
      }
    }
  }

  /** On an acyclic tree every draw ends, whatever the nodes answer. */
  lemma AcyclicTerminates(t: Tree, d: Draw)
    requires Acyclic(t)
    ensures Terminates(t, d)
  {
    assert [] + [t.root] == [t.root];
    AcyclicFrom(t, d, [], t.root);
    assert t.nodes.Keys - Elements([]) == t.nodes.Keys;
  }

  function Iterate<T>(f: T -> T, x: T, n: nat): T {
    if n == 0 then x else f(Iterate(f, x, n - 1))
  }

  /** Where the loop stands after n rounds, if it is still running. */
  function At(t: Tree, d: Draw, n: nat): Option<RuleName> {
    Iterate(Advance(t, d), Some(t.root), n)
  }

  function Advance(t: Tree, d: Draw): Option<RuleName> -> Option<RuleName> {
    at => Onward(t, d, at)
  }

  function Onward(t: Tree, d: Draw, at: Option<RuleName>): Option<RuleName> {
    if at.Some? && Visit(t, at.value, d).To? then Some(Visit(t, at.value, d).key) else None
  }

  lemma NextRound(t: Tree, d: Draw, n: nat)
    ensures At(t, d, n + 1) == Onward(t, d, At(t, d, n))
  {
  }

  lemma {:induction false} Periodic<T>(f: T -> T, x: T, i: nat, j: nat, m: nat)
    requires Iterate(f, x, i) == Iterate(f, x, j)
    ensures Iterate(f, x, i + m) == Iterate(f, x, j + m)
  {
    if m > 0 { Periodic(f, x, i, j, m - 1); }
  }

  lemma {:induction false} WasRunning(t: Tree, d: Draw, m: nat, n: nat)
    requires m <= n && At(t, d, n).Some?
    ensures At(t, d, m).Some?
    decreases n - m
  {
    if m < n {
      NextRound(t, d, n - 1);
      WasRunning(t, d, m, n - 1);
    }
  }

  lemma {:induction false} RunsForEver(t: Tree, d: Draw, i: nat, j: nat, n: nat)
    requires i < j && At(t, d, i) == At(t, d, j) && At(t, d, j).Some?
    ensures At(t, d, n).Some?
    decreases n
  {
    if n <= j {
      WasRunning(t, d, n, j);
    } else {
      Periodic(Advance(t, d), Some(t.root), i, j, n - j);
      RunsForEver(t, d, i, j, n - (j - i));
    }
  }

  /** The first rounds stood at the nodes of `p`. */
  ghost predicate Rounds(t: Tree, d: Draw, p: seq<RuleName>) {
    forall k :: 0 <= k < |p| ==> At(t, d, k) == Some(p[k])
  }

  lemma OneMoreRound(t: Tree, d: Draw, p: seq<RuleName>, key: RuleName)
    requires Rounds(t, d, p + [key]) && Visit(t, key, d).To?
    ensures Rounds(t, d, p + [key] + [Visit(t, key, d).key])
  {
    assert (p + [key])[|p|] == key;
  }

  lemma MetTwice(t: Tree, d: Draw, p: seq<RuleName>, key: RuleName) returns (i: nat, j: nat)
    requires Rounds(t, d, p + [key]) && key in p
    ensures i < j && At(t, d, i) == At(t, d, j) && At(t, d, j).Some?
  {
    i :| 0 <= i < |p| && p[i] == key;
    j := |p|;
    assert (p + [key])[i] == key && (p + [key])[j] == key;
  }

  lemma LeavesOneMore(t: Tree, p: seq<RuleName>, key: RuleName)
    requires key in t.nodes && key !in p
    ensures t.nodes.Keys - Elements(p + [key]) == t.nodes.Keys - Elements(p) - {key}
    ensures |t.nodes.Keys - Elements(p + [key])| < |t.nodes.Keys - Elements(p)|
  {
    assert t.nodes.Keys - Elements(p) == (t.nodes.Keys - Elements(p + [key])) + {key};
  }

  /** The rounds so far left the nodes of `p`, and the reference semantics has no value from here on:
      some node comes back. */
  lemma {:induction false} ComesBack(t: Tree, d: Draw, p: seq<RuleName>, key: RuleName) returns (i: nat, j: nat)
    requires Rounds(t, d, p + [key])
    requires Eval(t, key, d, t.nodes.Keys - Elements(p)).None?
    ensures i < j && At(t, d, i) == At(t, d, j) && At(t, d, j).Some?
    decreases |t.nodes.Keys - Elements(p)|
  {
    if key in p {
      i, j := MetTwice(t, d, p, key);
    } else {
      MoveIsALine(t, key, d);
      LeavesOneMore(t, p, key);
      OneMoreRound(t, d, p, key);
      i, j := ComesBack(t, d, p + [key], Visit(t, key, d).key);
    }
  }

  /** Without termination the loop is at some node in every round, for ever
      (when the stock, if asked again, answers the same). */
  lemma NonTerminationIsForEver(t: Tree, d: Draw, n: nat)
    requires !Terminates(t, d)
    ensures At(t, d, n).Some?
  {
    assert t.nodes.Keys - Elements([]) == t.nodes.Keys;
    var i, j := ComesBack(t, d, [], t.root);
    RunsForEver(t, d, i, j, n);
  }

  // ---------------------------------------------------------------- no panic

  lemma {:induction false} WellFormedNeverPanics(t: Tree, key: RuleName, d: Draw, unvisited: set<RuleName>)
    requires WellFormed(t) && key in t.nodes
    ensures Eval(t, key, d, unvisited) != Some(Panicked)
    decreases |unvisited|
  {
    if Visit(t, key, d).To? {
      MoveIsALine(t, key, d);
      if key in unvisited { WellFormedNeverPanics(t, Visit(t, key, d).key, d, unvisited - {key}); }
    }
  }

  // ---------------------------------------------------------------- the loop

  /** A draw that ends leaves each node once, so it visits each at most once. */
  lemma {:induction false} VisitsOnce(t: Tree, key: RuleName, d: Draw, unvisited: set<RuleName>)
    requires Eval(t, key, d, unvisited).Some?
    ensures Distinct(Visited(t, key, d, unvisited))
    ensures forall k :: k in Visited(t, key, d, unvisited) ==> k in unvisited || Visit(t, k, d).Stop?
    decreases |unvisited|
  {
    if Visit(t, key, d).To? { VisitsOnce(t, Visit(t, key, d).key, d, unvisited - {key}); }
  }

  /** Line `i` is the first that asks for equality with this check. */
  predicate FirstEqual(lines: seq<Line>, check: CheckType, i: nat) {
    && i < |lines| && lines[i].limitType == EQUAL && lines[i].limitValue == check
    && forall j :: 0 <= j < i ==> lines[j].limitType != EQUAL || lines[j].limitValue != check
  }

  lemma {:induction false} FirstEqualMatches(lines: seq<Line>, check: CheckType, i: nat)
    requires FirstEqual(lines, check, i)
    ensures FirstMatch(check, lines) == Some(lines[i].to)
  {
    if i > 0 {
      assert lines[0].limitType != EQUAL || lines[0].limitValue != check;
      FirstEqualMatches(lines[1..], check, i - 1);
    }
  }

  /** ruleTreeEngine.next: where the first line leads that asks for equality with this check, nowhere when there
      are no lines, and the panic (None) exactly when lines are there and none asks for it. */
  method FindNext(check: CheckType, lines: seq<Line>) returns (next: Option<Option<RuleName>>)
    ensures next == Next(check, lines)
    ensures lines == [] ==> next == Some(None)
    ensures forall i: nat :: FirstEqual(lines, check, i) ==> next == Some(lines[i].to)
    ensures next == None <==>
          lines != [] && forall i :: 0 <= i < |lines| ==> lines[i].limitType != EQUAL || lines[i].limitValue != check
  {
    if |lines| == 0 { return Some(None); }
    for i := 0 to |lines|
      invariant FirstMatch(check, lines) == FirstMatch(check, lines[i..])
      invariant forall j :: 0 <= j < i ==> lines[j].limitType != EQUAL || lines[j].limitValue != check
    {
      if Decides(check, lines[i]) { return Some(lines[i].to); }
    }
    return None;
  }

  /** ruleTreeEngine.process: follows lines until there is none, and returns the award of the node
      visited last. That is what the tree means. */
  method Process(t: Tree, d: Draw) returns (v: Verdict)
    requires Terminates(t, d)
    ensures Eval(t, t.root, d, t.nodes.Keys) == Some(v)
  {
    var nextNode := Some(t.root);
    var award := Award(0, "");
    ghost var unvisited := t.nodes.Keys;
    while nextNode.Some?
      invariant Eval(t, t.root, d, t.nodes.Keys)
             == if nextNode.Some? then Eval(t, nextNode.value, d, unvisited) else Some(Won(award))
      decreases |unvisited|, nextNode.Some?
    {
      var key := nextNode.value;
      match Logic(t, key, d)
      case Panic => return Panicked;
      case Failed => return Error;
      case Action(check, a) =>
        var next := FindNext(check, t.nodes[key].lines);
        if next.None? { return Panicked; }
        nextNode := next.value;
        award := a;
        unvisited := if next.value.Some? then unvisited - {key} else unvisited;
    }
    return Won(award);
  }

  /** What a draw through the tree promises: it ends, it visits no node twice (so it asks the stock
      at most once), it never panics, and it returns the award of the node it visited last. */
  lemma DrawThroughTree(t: Tree, d: Draw)
    requires WellFormed(t) && Acyclic(t)
    ensures var p := Visited(t, t.root, d, t.nodes.Keys);
            Distinct(p)
    ensures match Eval(t, t.root, d, t.nodes.Keys)
            case None => false
            case Some(Panicked) => false
            case Some(Error) => d.stock.StockError? || d.stock.EnqueueError?
            case Some(Won(award)) =>
              var p := Visited(t, t.root, d, t.nodes.Keys);
              Logic(t, p[|p| - 1], d).Action? && Logic(t, p[|p| - 1], d).award == award
  {
    AcyclicTerminates(t, d);
    VisitsOnce(t, t.root, d, t.nodes.Keys);
    WellFormedNeverPanics(t, t.root, d, t.nodes.Keys);
    LastDecides(t, t.root, d, t.nodes.Keys);
  }

  lemma {:induction false} LastDecides(t: Tree, key: RuleName, d: Draw, unvisited: set<RuleName>)
    requires Eval(t, key, d, unvisited).Some?
    ensures var p := Visited(t, key, d, unvisited);
            Visit(t, p[|p| - 1], d) == Stop(Eval(t, key, d, unvisited).value)
    decreases |unvisited|
  {
    if Visit(t, key, d).To? { LastDecides(t, Visit(t, key, d).key, d, unvisited - {key}); }
  }

  // ---------------------------------------------------------------- who gets the drawn award

  /** The lock always leads on, a refusal by the stock leads on, and the fallback is another award. */
  predicate Guards(t: Tree, award: int) {
    && (RuleLock in t.nodes ==>
          Next(Allow, t.nodes[RuleLock].lines) != Some(None) && Next(TakeOver, t.nodes[RuleLock].lines) != Some(None))
    && (RuleStock in t.nodes ==> Next(TakeOver, t.nodes[RuleStock].lines) != Some(None))
    && (RuleLuckAward in t.nodes ==> Atoi(Split(t.nodes[RuleLuckAward].ruleValue, ':')[0]) != Some(award))
  }

  /** In such a tree a draw keeps the award it drew only if the stock was the last node and granted it. */
  lemma KeptOnlyIfGranted(t: Tree, d: Draw)
    requires Guards(t, d.award) && Terminates(t, d)
    requires KeepsDrawn(t, d)
    ensures var p := Visited(t, t.root, d, t.nodes.Keys); p[|p| - 1] == RuleStock && d.stock == Granted
  {
    LastDecides(t, t.root, d, t.nodes.Keys);
  }

  predicate KeepsDrawn(t: Tree, d: Draw)
    requires Terminates(t, d)
  {
    var v := Eval(t, t.root, d, t.nodes.Keys).value;
    v.Won? && v.award.id == d.award
  }

  /** The nodes that, visited last, give the drawn award back although the stock did not grant it:
      the lock, a refusing stock, and a fallback that names the drawn award itself. */
  predicate GivesBack(t: Tree, last: RuleName, d: Draw) {
    || last == RuleLock
    || (last == RuleStock && d.stock == Refused)
    || (last == RuleLuckAward && last in t.nodes && Atoi(Split(t.nodes[last].ruleValue, ':')[0]) == Some(d.award))
  }

  /** Exactly when a draw keeps its award without a grant, wherever in the tree it ends: in a well-formed
      tree, when the node it visits last is one of those. */
  lemma KeptWithoutGrantIff(t: Tree, d: Draw)
    requires WellFormed(t) && Terminates(t, d) && d.stock != Granted
    ensures var p := Visited(t, t.root, d, t.nodes.Keys);
            KeepsDrawn(t, d) <==> GivesBack(t, p[|p| - 1], d)
  {
    LastDecides(t, t.root, d, t.nodes.Keys);
    WellFormedNeverPanics(t, t.root, d, t.nodes.Keys);
    var p := Visited(t, t.root, d, t.nodes.Keys);
    StopGivesBackIff(t, p[|p| - 1], d, Eval(t, t.root, d, t.nodes.Keys).value);
  }

  lemma StopGivesBackIff(t: Tree, last: RuleName, d: Draw, v: Verdict)
    requires Visit(t, last, d) == Stop(v) && v != Panicked && d.stock != Granted
    ensures v.Won? && v.award.id == d.award <==> GivesBack(t, last, d)
  {
  }

  // ---------------------------------------------------------------- lock, stock and fallback

  ghost predicate LeadsTo(lines: seq<Line>, check: CheckType, to: Option<RuleName>) {
    exists i: nat :: FirstEqual(lines, check, i) && lines[i].to == to
  }

  /** The tree the three nodes are made for: the lock opens at `needed` raffles onto the stock, and a closed lock and a
      refusing stock lead to the fallback. Lines beside and behind the ones that decide may be anything. */
  ghost predicate LockStockLuck(t: Tree, needed: int, fallback: int, text: string) {
    && t.root == RuleLock && {RuleLock, RuleStock, RuleLuckAward} <= t.nodes.Keys
    && t.nodes[RuleLock].ruleValue == Itoa(needed)
    && LeadsTo(t.nodes[RuleLock].lines, Allow, Some(RuleStock))
    && LeadsTo(t.nodes[RuleLock].lines, TakeOver, Some(RuleLuckAward))
    && LeadsTo(t.nodes[RuleStock].lines, Allow, None)
    && LeadsTo(t.nodes[RuleStock].lines, TakeOver, Some(RuleLuckAward))
    && t.nodes[RuleLuckAward].ruleValue == Join([Itoa(fallback), text], ':') && t.nodes[RuleLuckAward].lines == []
  }

  lemma LeadsToNext(lines: seq<Line>, check: CheckType, to: Option<RuleName>)
    requires LeadsTo(lines, check, to)
    ensures Next(check, lines) == Some(to)
  {
    var i: nat :| FirstEqual(lines, check, i) && lines[i].to == to;
    FirstEqualMatches(lines, check, i);
  }

  lemma LuckGivesFallback(t: Tree, d: Draw, needed: int, fallback: int, text: string)
    requires LockStockLuck(t, needed, fallback, text) && MIN_INT64 <= fallback <= MAX_INT64 && ':' !in text
    ensures Visit(t, RuleLuckAward, d) == Stop(Won(Award(fallback, text)))
  {
    assert ':' !in Itoa(fallback);
    SplitOfJoin([Itoa(fallback), text], ':');
    AtoiOfItoa(fallback);
  }

  lemma StockDecides(t: Tree, d: Draw, needed: int, fallback: int, text: string)
    requires LockStockLuck(t, needed, fallback, text)
    ensures Visit(t, RuleStock, d) == match d.stock
                                      case Granted => Stop(Won(Award(d.award, t.nodes[RuleStock].ruleValue)))
                                      case Refused => To(RuleLuckAward)
                                      case _ => Stop(Error)
  {
    LeadsToNext(t.nodes[RuleStock].lines, Allow, None);
    LeadsToNext(t.nodes[RuleStock].lines, TakeOver, Some(RuleLuckAward));
  }

  lemma LockDecides(t: Tree, d: Draw, needed: int, fallback: int, text: string)
    requires LockStockLuck(t, needed, fallback, text) && MIN_INT64 <= needed <= MAX_INT64
    ensures Visit(t, RuleLock, d) == To(if needed <= d.raffleCount then RuleStock else RuleLuckAward)
  {
    AtoiOfItoa(needed);
    LeadsToNext(t.nodes[RuleLock].lines, Allow, Some(RuleStock));
    LeadsToNext(t.nodes[RuleLock].lines, TakeOver, Some(RuleLuckAward));
  }

  /** Main result: through such a tree, who has raffled often enough and is granted a unit keeps the drawn award; who
      has not, or is refused, gets the fallback; and only the former ask the stock, whose errors alone are errors. */
  lemma LockStockLuckAwards(t: Tree, d: Draw, needed: int, fallback: int, text: string)
    requires LockStockLuck(t, needed, fallback, text) && ':' !in text
    requires MIN_INT64 <= needed <= MAX_INT64 && MIN_INT64 <= fallback <= MAX_INT64
    ensures Eval(t, t.root, d, t.nodes.Keys) == Some(
              if d.raffleCount < needed || d.stock == Refused then Won(Award(fallback, text))
              else if d.stock == Granted then Won(Award(d.award, t.nodes[RuleStock].ruleValue))
              else Error)
    ensures RuleStock in Visited(t, t.root, d, t.nodes.Keys) <==> needed <= d.raffleCount
  {
    var keys := t.nodes.Keys;
    LockDecides(t, d, needed, fallback, text);
    StockDecides(t, d, needed, fallback, text);
    LuckGivesFallback(t, d, needed, fallback, text);
    var rest := keys - {RuleLock};
    assert Visited(t, RuleLuckAward, d, rest) == [RuleLuckAward];
    assert Eval(t, RuleLuckAward, d, rest) == Some(Won(Award(fallback, text)));
    assert Eval(t, RuleLuckAward, d, rest - {RuleStock}) == Some(Won(Award(fallback, text)));
    assert Visited(t, RuleStock, d, rest)[0] == RuleStock;
  }

  // ---------------------------------------------------------------- the stock's part in a draw

  predicate SameButStock(d: Draw, e: Draw) {
    d.award == e.award && d.raffleCount == e.raffleCount
  }

  /** A draw that never asks the stock does not depend on its answer. */
  lemma {:induction false} UnaskedStockHasNoSay(t: Tree, key: RuleName, d: Draw, e: Draw, unvisited: set<RuleName>)
    requires SameButStock(d, e) && RuleStock !in Visited(t, key, d, unvisited)
    ensures Eval(t, key, e, unvisited) == Eval(t, key, d, unvisited)
    ensures Visited(t, key, e, unvisited) == Visited(t, key, d, unvisited)
    decreases |unvisited|
  {
    assert key in Visited(t, key, d, unvisited);
    assert Visit(t, key, e) == Visit(t, key, d);
    if Visit(t, key, d).To? && key in unvisited {
      UnaskedStockHasNoSay(t, Visit(t, key, d).key, d, e, unvisited - {key});
    }
  }

  /** A stock that is asked and fails ends the draw without an award, whatever the tree. */
  lemma {:induction false} FailingStockFails(t: Tree, key: RuleName, d: Draw, unvisited: set<RuleName>)
    requires d.stock.StockError? || d.stock.EnqueueError?
    requires RuleStock in Visited(t, key, d, unvisited)
    ensures Eval(t, key, d, unvisited).None? || !Eval(t, key, d, unvisited).value.Won?
    decreases |unvisited|
  {
    if key != RuleStock && key in unvisited { FailingStockFails(t, Visit(t, key, d).key, d, unvisited - {key}); }
  }
}
