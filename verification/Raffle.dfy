/** A raffle from end to end: the rule chain, and then the rule tree, but only for an award that the
    default draw picked. */
module Raffle {
  import opened Wrappers
  import opened Text
  import opened RuleChain
  import DrawPool
  import PoolStore
  import RuleTree
  import WeightRule

  /** What an award's rule model leads to: no model, a failed query, a tree that cannot be read, or a
      tree. A model whose tree has no rows reads as the tree without nodes. */
  datatype Lookup = NoModel | QueryFails | Unreadable | Found(tree: RuleTree.Tree)

  /** `listed` are the awards with a row in the strategy, `failing` those whose row cannot be queried;
      an award without a lookup has no model. */
  datatype Strategy = Strategy(models: seq<string>, lookups: map<int, Lookup>, listed: set<int>, failing: set<int>) {
    function LookupOf(award: int): Lookup {
      if award in lookups then lookups[award] else NoModel
    }
  }

  datatype Reply = Awarded(award: int) | Error | Panic | Hangs

  /** raffleRuleTree. */
  function ThroughTree(st: Strategy, d: RuleTree.Draw): Reply {
    match st.LookupOf(d.award)
    case NoModel => Awarded(d.award)
    case QueryFails => Error
    case Unreadable => Panic
    case Found(t) =>
      if t.root !in t.nodes then Error
      else
        match RuleTree.Eval(t, t.root, d, t.nodes.Keys)
        case None => Hangs
        case Some(Won(award)) => Awarded(award.id)
        case Some(Error) => Error
        case Some(Panicked) => Panic
  }

  /** buildRaffleAward. The row query reports a missing row as an empty row, through the cache, and without
      an error: the reply then names award 0. */
  function BuildAward(st: Strategy, r: Reply): Reply {
    if !r.Awarded? then r
    else if r.award in st.failing then Error
    else if r.award in st.listed then r
    else Awarded(0)
  }

  /** The award that the chain, or after the default draw the tree, ends with. */
  function EndsWith(st: Strategy, rules: Rules, raffleCount: int, stock: RuleTree.StockReply): Reply {
    OpenedChainSettles(st.models, rules);
    match RunChain(ChainOf(st.models), rules)
    case ChainError(_) => Error
    case Decided(award, model) =>
      if model != DEFAULT then Awarded(award) else ThroughTree(st, RuleTree.Draw(award, raffleCount, stock))
    case NilDereference => Panic
  }

  function PerformRaffle(st: Strategy, rules: Rules, raffleCount: int, stock: RuleTree.StockReply): Reply {
    BuildAward(st, EndsWith(st, rules, raffleCount, stock))
  }

  // ---------------------------------------------------------------- the award that is named

  /** The user is told the award the raffle ended with if and only if the strategy lists it (or it is
      award 0); the award told is a listed one if and only if that one is, or award 0 is. */
  lemma ToldIsEndedWithIff(st: Strategy, rules: Rules, raffleCount: int, stock: RuleTree.StockReply, award: int)
    requires EndsWith(st, rules, raffleCount, stock) == Awarded(award) && award !in st.failing
    ensures var told := PerformRaffle(st, rules, raffleCount, stock);
            && told.Awarded?
            && (told.award == award <==> award in st.listed || award == 0)
            && (told.award in st.listed <==> award in st.listed || 0 in st.listed)
  {
    assert PerformRaffle(st, rules, raffleCount, stock) == BuildAward(st, Awarded(award));
  }

  /** An award whose row cannot be queried is an error, and a raffle that ends with no award tells just that. */
  lemma NothingIsTold(st: Strategy, rules: Rules, raffleCount: int, stock: RuleTree.StockReply)
    ensures var end := EndsWith(st, rules, raffleCount, stock);
            && (!end.Awarded? ==> PerformRaffle(st, rules, raffleCount, stock) == end)
            && (end.Awarded? && end.award in st.failing ==> PerformRaffle(st, rules, raffleCount, stock) == Error)
  {
  }

  /** A tree of one fallback node. */
  function LuckOnly(fallback: int): RuleTree.Tree {
    RuleTree.Tree(RuleTree.RuleLuckAward, map[RuleTree.RuleLuckAward := RuleTree.Node(Join([Itoa(fallback), ""], ':'), [])])
  }

  lemma LuckOnlyGivesFallback(fallback: int, d: RuleTree.Draw)
    requires MIN_INT64 <= fallback <= MAX_INT64
    ensures var t := LuckOnly(fallback);
            RuleTree.Eval(t, t.root, d, t.nodes.Keys) == Some(RuleTree.Won(RuleTree.Award(fallback, "")))
  {
    assert ':' !in Itoa(fallback);
    SplitOfJoin([Itoa(fallback), ""], ':');
    AtoiOfItoa(fallback);
  }

  /** It does go wrong: a fallback the strategy does not list turns every draw into award 0. */
  lemma UnlistedFallbackNamesAwardZero(drawn: int, fallback: int, raffleCount: int, stock: RuleTree.StockReply)
    requires MIN_INT64 <= fallback <= MAX_INT64 && fallback != drawn
    ensures var st := Strategy([], map[drawn := Found(LuckOnly(fallback))], {drawn}, {});
            PerformRaffle(st, Rules(Passes, Passes, Some(drawn)), raffleCount, stock) == Awarded(0)
  {
    LuckOnlyGivesFallback(fallback, RuleTree.Draw(drawn, raffleCount, stock));
    SettlingRuleDecides([DEFAULT], Rules(Passes, Passes, Some(drawn)), 0);
  }

  // ---------------------------------------------------------------- who decides

  /** A draw that a rule took over never reaches the tree: neither the tree, the raffle count nor the
      stock has a say, so such awards are outside the stock's bound. */
  lemma TakenOverSkipsTree(st: Strategy, rules: Rules, i: int, raffleCount: int, stock: RuleTree.StockReply)
    requires Settles(ChainOf(st.models), rules, i) && ChainOf(st.models)[i] != DEFAULT
    ensures EndsWith(st, rules, raffleCount, stock)
         == match Decide(ChainOf(st.models)[i], rules)
            case TakesOver(award) => Awarded(award)
            case Fails(_) => Error
  {
    SettlingRuleDecides(ChainOf(st.models), rules, i);
  }

  predicate TreeEndsWith(t: RuleTree.Tree, d: RuleTree.Draw, award: int) {
    var verdict := RuleTree.Eval(t, t.root, d, t.nodes.Keys);
    verdict.Some? && verdict.value.Won? && verdict.value.award.id == award
  }

  /** Which award a default draw ends with: the drawn one when it has no model, else the one its tree ends with. */
  lemma DefaultDrawAwards(st: Strategy, rules: Rules, i: int, raffleCount: int, stock: RuleTree.StockReply, award: int)
    requires Settles(ChainOf(st.models), rules, i) && ChainOf(st.models)[i] == DEFAULT && rules.draw.Some?
    ensures EndsWith(st, rules, raffleCount, stock) == Awarded(award) <==>
              match st.LookupOf(rules.draw.value)
              case NoModel => award == rules.draw.value
              case Found(t) => t.root in t.nodes && TreeEndsWith(t, RuleTree.Draw(rules.draw.value, raffleCount, stock), award)
              case _ => false
  {
    SettlingRuleDecides(ChainOf(st.models), rules, i);
  }

  /** And when it ends with none: an error when the draw fails, the model's query fails, the tree has no root node or
      ends in an error; a panic when the tree cannot be read or panics; and never otherwise. */
  lemma DefaultDrawFails(st: Strategy, rules: Rules, i: int, raffleCount: int, stock: RuleTree.StockReply)
    requires Settles(ChainOf(st.models), rules, i) && ChainOf(st.models)[i] == DEFAULT
    ensures EndsWith(st, rules, raffleCount, stock) == Error <==>
              || rules.draw.None?
              || match st.LookupOf(rules.draw.value)
                 case QueryFails => true
                 case Found(t) =>
                   t.root !in t.nodes || TreeGives(t, RuleTree.Draw(rules.draw.value, raffleCount, stock), RuleTree.Error)
                 case _ => false
    ensures EndsWith(st, rules, raffleCount, stock) == Panic <==>
              rules.draw.Some? &&
              match st.LookupOf(rules.draw.value)
              case Unreadable => true
              case Found(t) =>
                t.root in t.nodes && TreeGives(t, RuleTree.Draw(rules.draw.value, raffleCount, stock), RuleTree.Panicked)
              case _ => false
  {
    SettlingRuleDecides(ChainOf(st.models), rules, i);
  }

  predicate TreeGives(t: RuleTree.Tree, d: RuleTree.Draw, verdict: RuleTree.Verdict) {
    RuleTree.Eval(t, t.root, d, t.nodes.Keys) == Some(verdict)
  }

  /** Behind a guarding tree, a default draw ends with the award it drew only after the stock granted it. */
  lemma DrawnAwardNeedsGrant(st: Strategy, rules: Rules, i: int, raffleCount: int, stock: RuleTree.StockReply)
    requires Settles(ChainOf(st.models), rules, i) && ChainOf(st.models)[i] == DEFAULT && rules.draw.Some?
    requires st.LookupOf(rules.draw.value).Found?
    requires RuleTree.Guards(st.LookupOf(rules.draw.value).tree, rules.draw.value)
    requires EndsWith(st, rules, raffleCount, stock) == Awarded(rules.draw.value)
    ensures stock == RuleTree.Granted
  {
    DefaultDrawAwards(st, rules, i, raffleCount, stock, rules.draw.value);
    RuleTree.KeptOnlyIfGranted(st.LookupOf(rules.draw.value).tree, RuleTree.Draw(rules.draw.value, raffleCount, stock));
  }

  /** A well-formed acyclic tree per drawable award: a raffle neither hangs nor panics. */
  lemma WellFormedRaffleAnswers(st: Strategy, rules: Rules, raffleCount: int, stock: RuleTree.StockReply)
    requires forall award :: award in st.lookups ==>
               match st.lookups[award]
               case Found(t) => RuleTree.WellFormed(t) && RuleTree.Acyclic(t)
               case look => !look.Unreadable?
    ensures PerformRaffle(st, rules, raffleCount, stock).Awarded? || PerformRaffle(st, rules, raffleCount, stock).Error?
  {
    var r := RunChain(ChainOf(st.models), rules);
    OpenedChainSettles(st.models, rules);
    if r.Decided? && st.LookupOf(r.award).Found? {
      RuleTree.DrawThroughTree(st.LookupOf(r.award).tree, RuleTree.Draw(r.award, raffleCount, stock));
    }
  }

  /** With the blacklist in front, a listed user's raffle always ends with the consolation award, and nobody
      else's does by that rule: for them it is the raffle without a blacklist. */
  lemma BlacklistInFront(st: Strategy, rules: Rules, award: int, users: seq<string>, user: string,
                         raffleCount: int, stock: RuleTree.StockReply)
    requires st.models != [] && st.models[0] == BLACKLIST
    requires MIN_INT64 <= award <= MAX_INT64 && users != []
    requires forall i :: 0 <= i < |users| ==> ',' !in users[i] && ':' !in users[i]
    requires rules.blacklist == BlacklistDecision(BlacklistText(award, users), user)
    ensures user in users ==> EndsWith(st, rules, raffleCount, stock) == Awarded(award)
    ensures user !in users ==> RunChain(ChainOf(st.models), rules) == RunChain(ChainOf(st.models)[1..], rules)
  {
    BlacklistNamesUsers(award, users, user);
    FirstKnownLeads(st.models);
    if user in users { TakenOverSkipsTree(st, rules, 0, raffleCount, stock); }
  }

  // ---------------------------------------------------------------- the rules as they are stored

  /** What the weight rule decides, from its text, the user's score, the stored pools and a random value. */
  ghost predicate WeightSays(c: PoolStore.Cache, strategy: int, ruleValue: string, score: int, random: nat,
                             d: Decision) {
    match WeightRule.ChainRules(Split(ruleValue, ' '))
    case Err(_) => d == Fails(OtherFailure)
    case Ok(tiers) =>
      if d.Passes? then forall t :: t in tiers ==> score < t
      else exists tier :: WeightRule.Reaches(tiers.Keys, score, tier) && d == DrawnFrom(c, WeightRule.PoolName(strategy, Some(Itoa(tier))), random)
  }

  function DrawnFrom(c: PoolStore.Cache, name: string, random: nat): Decision {
    match PoolStore.Draw(c, name, random)
    case Ok(award) => TakesOver(award)
    case Err(_) => Fails(OtherFailure)
  }

  /** ruleWeightLogic.logic, on the stored pools. */
  method WeightLogic(repo: PoolStore.Repository, strategy: int, ruleValue: string, score: int, random: nat)
      returns (d: Decision)
    ensures WeightSays(repo.Value(), strategy, ruleValue, score, random, d)
  {
    var chosen := WeightRule.ChooseTier(ruleValue, score);
    match chosen
    case WeightError => d := Fails(OtherFailure);
    case NextRule => d := Passes;
    case TakesOver(tier) =>
      var drawn := repo.GetRandomAwardID(WeightRule.PoolName(strategy, Some(Itoa(tier))), random);
      d := if drawn.Ok? then RuleChain.TakesOver(drawn.value) else Fails(OtherFailure);
      assert d == DrawnFrom(repo.Value(), WeightRule.PoolName(strategy, Some(Itoa(tier))), random);
  }

  /** A raffle over stored pools that the weight rule settles: it always succeeds, and ends with an award that
      the rule lists for the greatest tier the score reaches and that the strategy has. */
  lemma WeightRaffleEndsListed(st: Strategy, c: PoolStore.Cache, strategy: int, awards: seq<DrawPool.Award>,
                               ruleValue: string, score: int, random: nat, rules: Rules, i: int,
                               raffleCount: int, stock: RuleTree.StockReply)
    requires Settles(ChainOf(st.models), rules, i) && ChainOf(st.models)[i] == WEIGHT
    requires WeightSays(c, strategy, ruleValue, score, random, rules.weight)
    requires WeightRule.AllCanonical(Split(ruleValue, ' '))
    requires WeightRule.ArmoryRules(Split(ruleValue, ' ')).Ok? && WeightRule.ChainRules(Split(ruleValue, ' ')).Ok?
    requires WeightRule.AllArmed(c, strategy, awards, WeightRule.ArmoryRules(Split(ruleValue, ' ')).value)
    requires forall tier :: WeightRule.Reaches(WeightRule.ChainRules(Split(ruleValue, ' ')).value.Keys, score, tier) ==>
               var name := WeightRule.PoolName(strategy, Some(Itoa(tier))); name in c.ranges ==> random < c.ranges[name]
    ensures exists tier, award ::
              && WeightRule.Reaches(WeightRule.ChainRules(Split(ruleValue, ' ')).value.Keys, score, tier)
              && EndsWith(st, rules, raffleCount, stock) == Awarded(award)
              && (award in st.listed && award !in st.failing ==>
                    PerformRaffle(st, rules, raffleCount, stock) == Awarded(award))
              && WeightRule.Lists(ruleValue, tier, award)
              && exists k :: 0 <= k < |awards| && awards[k].id == award
  {
    var tier :| WeightRule.Reaches(WeightRule.ChainRules(Split(ruleValue, ' ')).value.Keys, score, tier)
             && rules.weight == DrawnFrom(c, WeightRule.PoolName(strategy, Some(Itoa(tier))), random);
    WeightRule.TierPoolIsArmed(c, strategy, awards, ruleValue, tier);
    WeightRule.WeightDrawIsListed(c, strategy, awards, ruleValue, score, tier, random);
    TakenOverSkipsTree(st, rules, i, raffleCount, stock);
  }

  /** And one that the default draw settles, of an award without a model: it ends with an award the strategy has. */
  lemma DefaultRaffleEndsListed(st: Strategy, c: PoolStore.Cache, strategy: int, awards: seq<DrawPool.Award>,
                                random: nat, rules: Rules, i: int, raffleCount: int, stock: RuleTree.StockReply)
    requires Settles(ChainOf(st.models), rules, i) && ChainOf(st.models)[i] == DEFAULT
    requires Decide(DEFAULT, rules) == DrawnFrom(c, WeightRule.PoolName(strategy, None), random)
    requires WeightRule.ArmedFor(c, WeightRule.PoolName(strategy, None), awards)
    requires var name := WeightRule.PoolName(strategy, None); name in c.ranges ==> random < c.ranges[name]
    ensures rules.draw.Some? && exists k :: 0 <= k < |awards| && awards[k].id == rules.draw.value
    ensures st.LookupOf(rules.draw.value).NoModel? ==>
          && EndsWith(st, rules, raffleCount, stock) == Awarded(rules.draw.value)
          && (rules.draw.value in st.listed && rules.draw.value !in st.failing ==>
                PerformRaffle(st, rules, raffleCount, stock) == Awarded(rules.draw.value))
  {
    WeightRule.DrawFromArmed(c, WeightRule.PoolName(strategy, None), awards, random);
    DefaultDrawAwards(st, rules, i, raffleCount, stock, rules.draw.value);
  }
}
