/** The rule chain before the draw: a linked list cloned from one prototype per rule, opened anew
    for every draw, ending in the default rule. */
module RuleChain {
  import opened Wrappers
  import opened Text

  const BLACKLIST := "rule_blacklist"
  const WEIGHT := "rule_weight"
  const DEFAULT := "rule_default"

  predicate Known(model: string) {
    model == BLACKLIST || model == WEIGHT || model == DEFAULT
  }

  /** Strategy.GetRuleModels. */
  function RuleModels(text: string): seq<string> {
    if text == "" then [] else Split(text, ',')
  }

  function KnownOf(models: seq<string>): (known: seq<string>)
    ensures forall i :: 0 <= i < |known| ==> Known(known[i])
  {
    if models == [] then []
    else
      var before := KnownOf(models[..|models| - 1]);
      var last := models[|models| - 1];
      if Known(last) then before + [last] else before
  }

  /** The rules a draw consults: the known ones in order and then the default,
      or the default alone when there are none or the first is unknown. */
  function ChainOf(models: seq<string>): (chain: seq<string>)
    ensures chain != [] && chain[|chain| - 1] == DEFAULT
  {
    if models == [] || !Known(models[0]) then [DEFAULT] else KnownOf(models) + [DEFAULT]
  }

  /** A filtering rule is consulted exactly if it stands between commas in the strategy's models and the first
      of them is a known rule: one unknown name in front switches off every rule behind it. */
  lemma ConsultedIff(text: string, rule: string)
    requires Known(rule) && rule != DEFAULT
    ensures rule in ChainOf(RuleModels(text)) <==> rule in Split(text, ',') && Known(Split(text, ',')[0])
  {
    KnownOfKeeps(RuleModels(text), rule);
  }

  /** The known rules keep their order, piece by piece. */
  lemma {:induction false} KnownOfJoin(a: seq<string>, b: seq<string>)
    ensures KnownOf(a + b) == KnownOf(a) + KnownOf(b)
    ensures |b| == 1 ==> KnownOf(b) == if Known(b[0]) then b else []
    decreases |b|
  {
    if b == [] {
      assert a + b == a;
    } else {
      var n := |b| - 1;
      assert (a + b)[..|a + b| - 1] == a + b[..n];
      KnownOfJoin(a, b[..n]);
      assert n == 0 ==> b[..n] == [];
    }
  }

  lemma {:induction false} KnownOfKeeps(models: seq<string>, rule: string)
    requires Known(rule)
    ensures rule in KnownOf(models) <==> rule in models
  {
    if models != [] {
      var n := |models| - 1;
      KnownOfKeeps(models[..n], rule);
      assert models == models[..n] + [models[n]];
    }
  }

  lemma {:induction false} FirstKnownLeads(models: seq<string>)
    requires models != [] && Known(models[0])
    ensures ChainOf(models)[0] == models[0] && KnownOf(models) != [] && KnownOf(models)[0] == models[0]
  {
    if |models| > 1 {
      FirstKnownLeads(models[..|models| - 1]);
    } else {
      assert KnownOf(models[..0]) == [];
    }
  }

  // ---------------------------------------------------------------- what a chain decides

  /** Why a rule or the draw fails: a list without a colon, one whose award is no number, or anything else. */
  datatype RuleError = ConfigInvalid | ConfigParseFailed | OtherFailure

  /** What one rule says of a user: an error, an award of its own, or nothing. */
  datatype Decision = Fails(error: RuleError) | TakesOver(award: int) | Passes

  /** The decisions of the two filtering rules, and what the default draw returns (None is an error). */
  datatype Rules = Rules(blacklist: Decision, weight: Decision, draw: Option<int>)

  datatype ChainResult = Decided(award: int, model: string) | ChainError(error: RuleError) | NilDereference

  function Decide(model: string, rules: Rules): Decision {
    if model == BLACKLIST then rules.blacklist
    else if model == WEIGHT then rules.weight
    else if rules.draw.Some? then TakesOver(rules.draw.value)
    else Fails(OtherFailure)
  }

  function RunChain(chain: seq<string>, rules: Rules): ChainResult {
    if chain == [] then NilDereference
    else
      match Decide(chain[0], rules)
      case Fails(error) => ChainError(error)
      case TakesOver(award) => Decided(award, chain[0])
      case Passes => RunChain(chain[1..], rules)
  }

  /** Position of the rule that settles the draw: everything before it passes, it does not. */
  ghost predicate Settles(chain: seq<string>, rules: Rules, i: int) {
    && 0 <= i < |chain| && !Decide(chain[i], rules).Passes?
    && forall j :: 0 <= j < i ==> Decide(chain[j], rules).Passes?
  }

  lemma {:induction false} SettlingRuleDecides(chain: seq<string>, rules: Rules, i: int)
    requires Settles(chain, rules, i)
    ensures RunChain(chain, rules) == match Decide(chain[i], rules)
                                      case TakesOver(award) => Decided(award, chain[i])
                                      case Fails(error) => ChainError(error)
    decreases i
  {
    if i > 0 {
      assert Decide(chain[0], rules).Passes?;
      assert forall j :: 0 <= j < i ==> chain[1..][j] == chain[j + 1];
      SettlingRuleDecides(chain[1..], rules, i - 1);
    }
  }

  /** Every opened chain has a settling rule, so running it never falls off the end. */
  lemma OpenedChainSettles(models: seq<string>, rules: Rules)
    ensures exists i :: Settles(ChainOf(models), rules, i)
    ensures RunChain(ChainOf(models), rules) != NilDereference
  {
    var chain := ChainOf(models);
    SomeRuleSettles(chain, rules);
    var i :| Settles(chain, rules, i);
    SettlingRuleDecides(chain, rules, i);
  }

  lemma {:induction false} SomeRuleSettles(chain: seq<string>, rules: Rules)
    requires chain != [] && chain[|chain| - 1] == DEFAULT
    ensures exists i :: Settles(chain, rules, i)
    decreases |chain|
  {
    if Decide(chain[0], rules).Passes? {
      SomeRuleSettles(chain[1..], rules);
      var i :| Settles(chain[1..], rules, i);
      assert forall j :: 1 <= j < |chain| ==> chain[j] == chain[1..][j - 1];
      assert Settles(chain, rules, i + 1);
    } else {
      assert Settles(chain, rules, 0);
    }
  }

  // ---------------------------------------------------------------- the blacklist rule

  /** "award:user,user,...". */
  function BlacklistDecision(ruleValue: string, user: string): Decision {
    var parts := Split(ruleValue, ':');
    if |parts| < 2 then Fails(ConfigInvalid)
    else if Atoi(parts[0]).None? then Fails(ConfigParseFailed)
    else if user in Split(parts[1], ',') then TakesOver(Atoi(parts[0]).value)
    else Passes
  }

  method BlacklistLogic(ruleValue: string, user: string) returns (d: Decision)
    ensures d == BlacklistDecision(ruleValue, user)
  {
    var parts := Split(ruleValue, ':');
    if |parts| < 2 { return Fails(ConfigInvalid); }
    var award := Atoi(parts[0]);
    if award.None? { return Fails(ConfigParseFailed); }
    var users := Split(parts[1], ',');
    for i := 0 to |users|
      invariant forall j :: 0 <= j < i ==> users[j] != user
    {
      if user == users[i] { return TakesOver(award.value); }
    }
    return Passes;
  }

  /** A text without a colon, or without a number before its first colon, fails for every user, each in its way, and no
      other text fails. */
  lemma BlacklistFailsIff(ruleValue: string, user: string)
    ensures BlacklistDecision(ruleValue, user) == Fails(ConfigInvalid) <==> ':' !in ruleValue
    ensures BlacklistDecision(ruleValue, user) == Fails(ConfigParseFailed)
       <==> ':' in ruleValue && Atoi(Split(ruleValue, ':')[0]).None?
    ensures BlacklistDecision(ruleValue, user) != Fails(OtherFailure)
  {
    UncutIff(ruleValue, ':');
  }

  /** A blacklist as an operator writes it. */
  function BlacklistText(award: int, users: seq<string>): string
    requires users != []
  {
    Join([Itoa(award), Join(users, ',')], ':')
  }

  /** Whoever writes the list out as "award:user,user" gets exactly those users blacklisted to exactly that award. */
  lemma BlacklistNamesUsers(award: int, users: seq<string>, user: string)
    requires MIN_INT64 <= award <= MAX_INT64 && users != []
    requires forall i :: 0 <= i < |users| ==> ',' !in users[i] && ':' !in users[i]
    ensures BlacklistDecision(BlacklistText(award, users), user) == if user in users then TakesOver(award) else Passes
  {
    var list := Join(users, ',');
    JoinAvoids(users, ',', ':');
    assert ':' !in Itoa(award);
    SplitOfJoin([Itoa(award), list], ':');
    SplitOfJoin(users, ',');
    AtoiOfItoa(award);
  }

  // ---------------------------------------------------------------- the linked chain

  class ChainNode {
    const model: string
    var nextChain: ChainNode?

    constructor (model: string)
      ensures this.model == model && nextChain == null
    {
      this.model := model;
      nextChain := null;
    }

    /** clone: a copy of the prototype, pointer and all. */
    constructor Clone(prototype: ChainNode)
      ensures model == prototype.model && nextChain == prototype.nextChain
    {
      model := prototype.model;
      nextChain := prototype.nextChain;
    }

    method AppendNext(next: ChainNode)
      modifies this
      ensures nextChain == next
    {
      nextChain := next;
    }

    /** logic, with the nodes from this one on: decide here, or hand on to the next node. */
    method Logic(rules: Rules, ghost nodes: seq<ChainNode>) returns (r: ChainResult)
      requires nodes != [] && nodes[0] == this && Linked(nodes) && nodes[|nodes| - 1].model == DEFAULT
      ensures r == RunChain(Models(nodes), rules)
      decreases |nodes|
    {
      match Decide(model, rules)
      case Fails(error) => return ChainError(error);
      case TakesOver(award) => return Decided(award, model);
      case Passes =>
        assert |nodes| > 1 && nodes[0].nextChain == nodes[1];
        assert Models(nodes)[1..] == Models(nodes[1..]);
        r := nextChain.Logic(rules, nodes[1..]);
    }
  }

  function Models(nodes: seq<ChainNode>): seq<string> {
    seq(|nodes|, i requires 0 <= i < |nodes| => nodes[i].model)
  }

  /** The nodes form one chain: no node twice, each points to the following one, the last to none. */
  ghost predicate Linked(nodes: seq<ChainNode>)
    reads nodes
  {
    && (forall i, j :: 0 <= i < j < |nodes| ==> nodes[i] != nodes[j])
    && (forall i :: 0 <= i < |nodes| - 1 ==> nodes[i].nextChain == nodes[i + 1])
    && (nodes != [] ==> nodes[|nodes| - 1].nextChain == null)
  }

  class Factory {
    const group: map<string, ChainNode>

    constructor ()
      ensures Valid()
      ensures forall m :: m in group ==> fresh(group[m])
    {
      var blacklist := new ChainNode(BLACKLIST);
      var weight := new ChainNode(WEIGHT);
      var default := new ChainNode(DEFAULT);
      group := map[BLACKLIST := blacklist, WEIGHT := weight, DEFAULT := default];
    }

    ghost predicate Valid()
      reads group.Values
    {
      && (forall m :: m in group <==> Known(m))
      && (forall m :: m in group ==> group[m].model == m && group[m].nextChain == null)
    }

    /** openLogicChain: a chain of new nodes for the rules of a strategy. It modifies nothing that
        existed before, so no prototype and no chain opened earlier changes. */
    method OpenLogicChain(ruleModels: seq<string>) returns (head: ChainNode, ghost nodes: seq<ChainNode>)
      requires Valid()
      ensures fresh(nodes) && Linked(nodes) && Models(nodes) == ChainOf(ruleModels)
      ensures nodes != [] && head == nodes[0]
    {
      if |ruleModels| == 0 || ruleModels[0] !in group {
        head := new ChainNode.Clone(group[DEFAULT]);
        nodes := [head];
        return;
      }
      var chain := new ChainNode.Clone(group[ruleModels[0]]);
      head := chain;
      nodes := [head];
      assert ruleModels[..1] == [ruleModels[0]];
      assert Models(nodes) == KnownOf(ruleModels[..1]);
      for i := 1 to |ruleModels|
        invariant Valid() && fresh(nodes) && Linked(nodes) && Models(nodes) == KnownOf(ruleModels[..i])
        invariant nodes != [] && head == nodes[0] && chain == nodes[|nodes| - 1]
      {
        assert ruleModels[..i + 1][..i] == ruleModels[..i];
        var model := ruleModels[i];
        if model in group {
          var newNode := new ChainNode.Clone(group[model]);
          chain.AppendNext(newNode);
          chain := newNode;
          nodes := nodes + [newNode];
          assert Models(nodes) == KnownOf(ruleModels[..i]) + [model];
        }
      }
      assert ruleModels[..|ruleModels|] == ruleModels;
      var defaultNode := new ChainNode.Clone(group[DEFAULT]);
      chain.AppendNext(defaultNode);
      nodes := nodes + [defaultNode];
      assert Models(nodes) == KnownOf(ruleModels) + [DEFAULT];
    }

    /** Open a chain and run it: it terminates, and no missing next node is ever called. */
    method RaffleLogicChain(ruleModels: seq<string>, rules: Rules) returns (r: ChainResult)
      requires Valid()
      ensures r == RunChain(ChainOf(ruleModels), rules) && r != NilDereference
    {
      var head, nodes := OpenLogicChain(ruleModels);
      r := head.Logic(rules, nodes);
      OpenedChainSettles(ruleModels, rules);
    }
  }
}
