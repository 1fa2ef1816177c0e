/** The weight rule, "tier:award,award tier:award ...". It is parsed twice: by the armory, which arms
    one pool for each tier, and by the rule chain, which picks the tier a user's score reaches. */
module WeightRule {
  import opened Wrappers
  import opened Text
  import DrawPool
  import PoolStore
  import opened Collections

  /** `Panics` is an index out of range in the armory's parser. */
  datatype ParseError = Panics | BadAward | BadTier | MissingColon

  // ---------------------------------------------------------------- the armory's parser

  function Ids(words: seq<string>): Option<seq<int>> {
    if words == [] then Some([])
    else
      var last := words[|words| - 1];
      match Ids(words[..|words| - 1])
      case None => None
      case Some(before) =>
        if last == "" then Some(before)
        else if Atoi(last).None? then None
        else Some(before + [Atoi(last).value])
  }

  function ArmoryRules(groups: seq<string>): Result<map<string, seq<int>>, ParseError> {
    if groups == [] then Ok(map[])
    else
      var last := groups[|groups| - 1];
      match ArmoryRules(groups[..|groups| - 1])
      case Err(e) => Err(e)
      case Ok(before) =>
        if last == "" then Ok(before)
        else
          var parts := Split(last, ':');
          if |parts| < 2 then Err(Panics)
          else
            match Ids(Split(parts[1], ','))
            case None => Err(BadAward)
            case Some(ids) => Ok(before[parts[0] := ids])
  }

  method ParseIds(words: seq<string>) returns (r: Option<seq<int>>)
    ensures r == Ids(words)
  {
    var values: seq<int> := [];
    for i := 0 to |words|
      invariant Ids(words[..i]) == Some(values)
    {
      assert words[..i + 1][..i] == words[..i];
      if words[i] != "" {
        var val := Atoi(words[i]);
        if val.None? {
          BadIdStays(words, i + 1);
          return None;
        }
        values := values + [val.value];
      }
    }
    assert words[..|words|] == words;
    return Some(values);
  }

  lemma {:induction false} BadIdStays(words: seq<string>, i: nat)
    requires i <= |words| && Ids(words[..i]).None?
    ensures Ids(words).None?
    decreases |words|
  {
    if i < |words| {
      assert words[..|words| - 1][..i] == words[..i];
      BadIdStays(words[..|words| - 1], i);
    } else {
      assert words[..i] == words;
    }
  }

  lemma {:induction false} ArmoryErrorStays(groups: seq<string>, i: nat)
    requires i <= |groups| && ArmoryRules(groups[..i]).Err?
    ensures ArmoryRules(groups) == ArmoryRules(groups[..i])
    decreases |groups|
  {
    if i < |groups| {
      assert groups[..|groups| - 1][..i] == groups[..i];
      ArmoryErrorStays(groups[..|groups| - 1], i);
    } else {
      assert groups[..i] == groups;
    }
  }

  /** StrategyRule.GetRuleWeightValues. */
  method GetRuleWeightValues(ruleValue: string) returns (r: Result<map<string, seq<int>>, ParseError>)
    ensures r == ArmoryRules(Split(ruleValue, ' '))
  {
    var groups := Split(ruleValue, ' ');
    var result: map<string, seq<int>> := map[];
    for i := 0 to |groups|
      invariant ArmoryRules(groups[..i]) == Ok(result)
    {
      assert groups[..i + 1][..i] == groups[..i];
      if groups[i] != "" {
        var parts := Split(groups[i], ':');
        if |parts| < 2 {
          ArmoryErrorStays(groups, i + 1);
          return Err(Panics);
        }
        var values := ParseIds(Split(parts[1], ','));
        if values.None? {
          ArmoryErrorStays(groups, i + 1);
          return Err(BadAward);
        }
        result := result[parts[0] := values.value];
      }
    }
    assert groups[..|groups|] == groups;
    return Ok(result);
  }

  // ---------------------------------------------------------------- the chain's parser

  function ChainRules(groups: seq<string>): Result<map<int, string>, ParseError> {
    if groups == [] then Ok(map[])
    else
      var last := groups[|groups| - 1];
      match ChainRules(groups[..|groups| - 1])
      case Err(e) => Err(e)
      case Ok(before) =>
        if last == "" then Ok(before)
        else
          var parts := Split(last, ':');
          if |parts| < 2 then Err(MissingColon)
          else if Atoi(parts[0]).None? then Err(BadTier)
          else Ok(before[Atoi(parts[0]).value := parts[1]])
  }

  lemma {:induction false} ChainErrorStays(groups: seq<string>, i: nat)
    requires i <= |groups| && ChainRules(groups[..i]).Err?
    ensures ChainRules(groups) == ChainRules(groups[..i])
    decreases |groups|
  {
    if i < |groups| {
      assert groups[..|groups| - 1][..i] == groups[..i];
      ChainErrorStays(groups[..|groups| - 1], i);
    } else {
      assert groups[..i] == groups;
    }
  }

  /** ruleWeightLogic.getAnalyticalValue. */
  method GetAnalyticalValue(ruleValue: string) returns (r: Result<map<int, string>, ParseError>)
    ensures r == ChainRules(Split(ruleValue, ' '))
  {
    var groups := Split(ruleValue, ' ');
    var result: map<int, string> := map[];
    for i := 0 to |groups|
      invariant ChainRules(groups[..i]) == Ok(result)
    {
      assert groups[..i + 1][..i] == groups[..i];
      if groups[i] != "" {
        var parts := Split(groups[i], ':');
        if |parts| < 2 {
          ChainErrorStays(groups, i + 1);
          return Err(MissingColon);
        }
        var key := Atoi(parts[0]);
        if key.None? {
          ChainErrorStays(groups, i + 1);
          return Err(BadTier);
        }
        result := result[key.value := parts[1]];
      }
    }
    assert groups[..|groups|] == groups;
    return Ok(result);
  }

  // ---------------------------------------------------------------- the two agree

  function TierText(group: string): string {
    Split(group, ':')[0]
  }

  predicate AllCanonical(groups: seq<string>) {
    forall i :: 0 <= i < |groups| && groups[i] != "" ==> Canonical(TierText(groups[i]))
  }

  /** The armory armed a pool under the name the chain asks for if and only if
      some group spells that tier the way FormatInt does. */
  lemma {:induction false} TierIsArmedIff(groups: seq<string>, tier: int)
    requires ArmoryRules(groups).Ok?
    ensures Itoa(tier) in ArmoryRules(groups).value <==> SpelledIn(groups, tier)
    decreases |groups|
  {
    if groups != [] {
      LastGroupArms(groups, tier);
      TierIsArmedIff(groups[..|groups| - 1], tier);
      LastGroupSpells(groups, tier);
    }
  }

  ghost predicate SpelledIn(groups: seq<string>, tier: int) {
    Any(groups, (group: string) => Spells(group, tier))
  }

  lemma LastGroupSpells(groups: seq<string>, tier: int)
    requires groups != []
    ensures SpelledIn(groups, tier) <==> SpelledIn(groups[..|groups| - 1], tier) || Spells(groups[|groups| - 1], tier)
  {
    AnyLast(groups, (group: string) => Spells(group, tier));
  }

  predicate Spells(group: string, tier: int) {
    group != "" && TierText(group) == Itoa(tier)
  }

  lemma LastGroupArms(groups: seq<string>, tier: int)
    requires groups != [] && ArmoryRules(groups).Ok?
    ensures ArmoryRules(groups[..|groups| - 1]).Ok?
    ensures Itoa(tier) in ArmoryRules(groups).value
            <==> Itoa(tier) in ArmoryRules(groups[..|groups| - 1]).value || Spells(groups[|groups| - 1], tier)
  {
  }

  /** Both rules name the same tiers and list the same awards for each. */
  ghost predicate Agree(armory: map<string, seq<int>>, chain: map<int, string>) {
    && (forall tier :: tier in chain ==>
          && Itoa(tier) in armory && Atoi(Itoa(tier)) == Some(tier)
          && Ids(Split(chain[tier], ',')) == Some(armory[Itoa(tier)]))
    && (forall key :: key in armory ==> Atoi(key).Some? && Atoi(key).value in chain && Itoa(Atoi(key).value) == key)
  }

  lemma OneMoreTierAgrees(armory: map<string, seq<int>>, chain: map<int, string>, key: string, text: string)
    requires Agree(armory, chain) && Atoi(key).Some? && Itoa(Atoi(key).value) == key && Ids(Split(text, ',')).Some?
    ensures Agree(armory[key := Ids(Split(text, ',')).value], chain[Atoi(key).value := text])
  {
  }

  /** With canonical tiers the two parsers agree. */
  lemma {:induction false} ParsersAgree(groups: seq<string>)
    requires ArmoryRules(groups).Ok? && ChainRules(groups).Ok? && AllCanonical(groups)
    ensures Agree(ArmoryRules(groups).value, ChainRules(groups).value)
    decreases |groups|
  {
    if groups != [] {
      var n := |groups| - 1;
      ParsersAgree(groups[..n]);
      var last := groups[n];
      if last != "" {
        var key := TierText(last);
        ItoaOfAtoi(key);
        OneMoreTierAgrees(ArmoryRules(groups[..n]).value, ChainRules(groups[..n]).value, key, Split(last, ':')[1]);
      }
    }
  }

  /** Without, they need not: the only group of a rule is armed under the name the chain asks for
      exactly when its tier is spelled canonically, so "04000:101" is never found. */
  lemma OddSpellingIsNotFound(group: string)
    requires group != "" && ArmoryRules([group]).Ok? && ChainRules([group]).Ok?
    ensures var tier := Atoi(TierText(group));
            && tier.Some? && tier.value in ChainRules([group]).value
            && (Itoa(tier.value) in ArmoryRules([group]).value <==> Canonical(TierText(group)))
  {
    assert [group][..0] == [];
    assert [group][0] == group;
    ItoaOfAtoi(TierText(group));
    TierIsArmedIff([group], Atoi(TierText(group)).value);
  }

  // ---------------------------------------------------------------- what is read from a rule

  /** Without a colon, or with something else than a number where the chain expects the tier. */
  predicate BadForChain(group: string) {
    group != "" && (':' !in group || Atoi(TierText(group)).None?)
  }

  /** The chain refuses a rule exactly if some group is of that kind. */
  lemma {:induction false} ChainRefusesIff(groups: seq<string>)
    ensures ChainRules(groups).Err? <==> Any(groups, BadForChain)
    decreases |groups|
  {
    if groups != [] {
      var n := |groups| - 1;
      ChainRefusesIff(groups[..n]);
      UncutIff(groups[n], ':');
      AnyLast(groups, BadForChain);
    }
  }

  predicate BadId(word: string) {
    word != "" && Atoi(word).None?
  }

  lemma {:induction false} IdsRefusedIff(words: seq<string>)
    ensures Ids(words).None? <==> Any(words, BadId)
    decreases |words|
  {
    if words != [] {
      var n := |words| - 1;
      IdsRefusedIff(words[..n]);
      AnyLast(words, BadId);
    }
  }

  /** Without a colon, or with something else than numbers where the armory expects the awards. */
  predicate BadForArmory(group: string) {
    group != "" && (':' !in group || Ids(Split(IdsText(group), ',')).None?)
  }

  function IdsText(group: string): string
    requires ':' in group
  {
    UncutIff(group, ':');
    Split(group, ':')[1]
  }

  /** One group more: an error before it stays, otherwise the group decides. */
  lemma LastGroupDecides(groups: seq<string>)
    requires groups != []
    ensures var (before, last) := (ArmoryRules(groups[..|groups| - 1]), groups[|groups| - 1]);
            && (before.Err? ==> ArmoryRules(groups) == before)
            && (before.Ok? ==> (ArmoryRules(groups).Err? <==> BadForArmory(last)))
            && (before.Ok? ==> (ArmoryRules(groups) == Err(Panics) <==> last != "" && ':' !in last))
  {
    UncutIff(groups[|groups| - 1], ':');
  }

  /** The armory fails on a rule exactly if some group is of that kind. */
  lemma {:induction false} ArmoryFailsIff(groups: seq<string>)
    ensures ArmoryRules(groups).Err? <==> Any(groups, BadForArmory)
    decreases |groups|
  {
    if groups != [] {
      var n := |groups| - 1;
      ArmoryFailsIff(groups[..n]);
      LastGroupDecides(groups);
      AnyLast(groups, BadForArmory);
    }
  }

  /** It panics exactly if the first group of that kind has no colon. */
  lemma {:induction false} ArmoryPanicsIff(groups: seq<string>)
    ensures ArmoryRules(groups) == Err(Panics) <==> exists i: nat :: FirstBad(groups, i) && ':' !in groups[i]
    decreases |groups|
  {
    if groups != [] {
      var n := |groups| - 1;
      ArmoryPanicsIff(groups[..n]);
      ArmoryFailsIff(groups[..n]);
      LastGroupDecides(groups);
      FirstBadGrows(groups);
    }
  }

  /** The first bad group of all but the last is the first of all; if there is none, it can only be the last. */
  lemma FirstBadGrows(groups: seq<string>)
    requires groups != []
    ensures var n := |groups| - 1;
            forall i: nat :: FirstBad(groups, i) <==>
              FirstBad(groups[..n], i)
              || (i == n && BadForArmory(groups[n]) && forall j :: 0 <= j < n ==> !BadForArmory(groups[..n][j]))
    ensures forall i: nat :: FirstBad(groups[..|groups| - 1], i) ==> groups[..|groups| - 1][i] == groups[i]
  {
    var n := |groups| - 1;
    assert forall j :: 0 <= j < n ==> groups[..n][j] == groups[j];
  }

  predicate FirstBad(groups: seq<string>, i: nat) {
    i < |groups| && BadForArmory(groups[i]) && forall j :: 0 <= j < i ==> !BadForArmory(groups[j])
  }

  /** A tier and its awards, as an operator writes them. */
  datatype Tier = Tier(score: int, awards: seq<int>)

  ghost predicate AllWritable(tiers: seq<Tier>) {
    forall i :: 0 <= i < |tiers| ==> Writable(tiers[i])
  }

  predicate Writable(tier: Tier) {
    && tier.awards != [] && MIN_INT64 <= tier.score <= MAX_INT64
    && forall i :: 0 <= i < |tier.awards| ==> MIN_INT64 <= tier.awards[i] <= MAX_INT64
  }

  function Texts(ids: seq<int>): (words: seq<string>)
    ensures |words| == |ids|
  {
    seq(|ids|, i requires 0 <= i < |ids| => Itoa(ids[i]))
  }

  function GroupText(tier: Tier): string
    requires tier.awards != []
  {
    Join([Itoa(tier.score), Join(Texts(tier.awards), ',')], ':')
  }

  ghost function GroupTexts(tiers: seq<Tier>): (groups: seq<string>)
    requires AllWritable(tiers)
    ensures |groups| == |tiers|
  {
    seq(|tiers|, i requires 0 <= i < |tiers| => GroupText(tiers[i]))
  }

  /** "tier:award,award tier:award ...". */
  ghost function WrittenRule(tiers: seq<Tier>): string
    requires tiers != [] && AllWritable(tiers)
  {
    Join(GroupTexts(tiers), ' ')
  }

  /** What such a rule means: of several groups for one tier the last one counts. */
  function Meaning(tiers: seq<Tier>): map<int, seq<int>> {
    if tiers == [] then map[]
    else
      var last := tiers[|tiers| - 1];
      Meaning(tiers[..|tiers| - 1])[last.score := last.awards]
  }

  lemma {:induction false} IdsOfTexts(ids: seq<int>)
    requires forall i :: 0 <= i < |ids| ==> MIN_INT64 <= ids[i] <= MAX_INT64
    ensures Ids(Texts(ids)) == Some(ids)
    decreases |ids|
  {
    if ids != [] {
      var n := |ids| - 1;
      IdsOfTexts(ids[..n]);
      assert Texts(ids)[..n] == Texts(ids[..n]);
      AtoiOfItoa(ids[n]);
      assert ids == ids[..n] + [ids[n]];
    }
  }

  lemma TextsAvoid(ids: seq<int>, c: char)
    requires ids != [] && c != ',' && c != '-' && !IsDigit(c)
    ensures c !in Join(Texts(ids), ',')
  {
    forall i | 0 <= i < |ids| ensures c !in Texts(ids)[i] { PrintedIsPlain(ids[i], c); }
    JoinAvoids(Texts(ids), ',', c);
  }

  lemma GroupIsRead(tier: Tier)
    requires Writable(tier)
    ensures var group := GroupText(tier);
            && group != "" && ' ' !in group && Split(group, ':') == [Itoa(tier.score), Join(Texts(tier.awards), ',')]
            && Ids(Split(Join(Texts(tier.awards), ','), ',')) == Some(tier.awards)
            && Atoi(Itoa(tier.score)) == Some(tier.score)
  {
    var list := Join(Texts(tier.awards), ',');
    TextsAvoid(tier.awards, ':');
    TextsAvoid(tier.awards, ' ');
    PrintedIsPlain(tier.score, ':');
    PrintedIsPlain(tier.score, ' ');
    SplitOfJoin([Itoa(tier.score), list], ':');
    JoinAvoids([Itoa(tier.score), list], ':', ' ');
    forall i | 0 <= i < |tier.awards| ensures ',' !in Texts(tier.awards)[i] { PrintedIsPlain(tier.awards[i], ','); }
    SplitOfJoin(Texts(tier.awards), ',');
    IdsOfTexts(tier.awards);
    AtoiOfItoa(tier.score);
  }

  /** The armory holds every tier of the meaning with its awards, under its printed name, and no other. */
  ghost predicate ArmoryMeans(armory: map<string, seq<int>>, meaning: map<int, seq<int>>) {
    && (forall tier :: tier in meaning ==>
          Itoa(tier) in armory && armory[Itoa(tier)] == meaning[tier] && Atoi(Itoa(tier)) == Some(tier))
    && (forall key :: key in armory ==> Atoi(key).Some? && Atoi(key).value in meaning && Itoa(Atoi(key).value) == key)
  }

  ghost predicate ChainMeans(chain: map<int, string>, meaning: map<int, seq<int>>) {
    && chain.Keys == meaning.Keys
    && forall tier :: tier in meaning ==> Ids(Split(chain[tier], ',')) == Some(meaning[tier])
  }

  lemma LastTierIsRead(groups: seq<string>, tier: Tier)
    requires groups != [] && Writable(tier) && groups[|groups| - 1] == GroupText(tier)
    ensures var before := ArmoryRules(groups[..|groups| - 1]);
            before.Ok? ==> ArmoryRules(groups) == Ok(before.value[Itoa(tier.score) := tier.awards])
  {
    GroupIsRead(tier);
  }

  lemma LastTierIsReadByChain(groups: seq<string>, tier: Tier)
    requires groups != [] && Writable(tier) && groups[|groups| - 1] == GroupText(tier)
    ensures var before := ChainRules(groups[..|groups| - 1]);
            before.Ok? ==> ChainRules(groups) == Ok(before.value[tier.score := Join(Texts(tier.awards), ',')])
  {
    GroupIsRead(tier);
  }

  lemma OneMoreTierMeans(armory: map<string, seq<int>>, meaning: map<int, seq<int>>, score: int, awards: seq<int>)
    requires ArmoryMeans(armory, meaning) && Atoi(Itoa(score)) == Some(score)
    ensures ArmoryMeans(armory[Itoa(score) := awards], meaning[score := awards])
  {
  }

  lemma {:induction false} ArmoryReads(tiers: seq<Tier>)
    requires AllWritable(tiers)
    ensures ArmoryRules(GroupTexts(tiers)).Ok? && ArmoryMeans(ArmoryRules(GroupTexts(tiers)).value, Meaning(tiers))
    decreases |tiers|
  {
    if tiers != [] {
      var n := |tiers| - 1;
      var groups := GroupTexts(tiers);
      assert groups[..n] == GroupTexts(tiers[..n]);
      ArmoryReads(tiers[..n]);
      LastTierIsRead(groups, tiers[n]);
      AtoiOfItoa(tiers[n].score);
      OneMoreTierMeans(ArmoryRules(groups[..n]).value, Meaning(tiers[..n]), tiers[n].score, tiers[n].awards);
    }
  }

  lemma {:induction false} ChainReads(tiers: seq<Tier>)
    requires AllWritable(tiers)
    ensures ChainRules(GroupTexts(tiers)).Ok? && ChainMeans(ChainRules(GroupTexts(tiers)).value, Meaning(tiers))
    decreases |tiers|
  {
    if tiers != [] {
      var n := |tiers| - 1;
      var groups := GroupTexts(tiers);
      assert groups[..n] == GroupTexts(tiers[..n]);
      ChainReads(tiers[..n]);
      LastTierIsReadByChain(groups, tiers[n]);
      GroupIsRead(tiers[n]);
    }
  }

  /** Main result: a rule written out by an operator is read back as what it means, by the armory and by the chain. */
  lemma WrittenRuleIsRead(tiers: seq<Tier>)
    requires tiers != [] && AllWritable(tiers)
    ensures var groups := Split(WrittenRule(tiers), ' ');
            && ArmoryRules(groups).Ok? && ArmoryMeans(ArmoryRules(groups).value, Meaning(tiers))
            && ChainRules(groups).Ok? && ChainMeans(ChainRules(groups).value, Meaning(tiers))
            && AllCanonical(groups)
  {
    forall i | 0 <= i < |tiers| ensures ' ' !in GroupTexts(tiers)[i] && Canonical(TierText(GroupTexts(tiers)[i])) {
      GroupIsRead(tiers[i]);
      AtoiOfItoa(tiers[i].score);
    }
    SplitOfJoin(GroupTexts(tiers), ' ');
    ArmoryReads(tiers);
    ChainReads(tiers);
  }

  // ---------------------------------------------------------------- the armory

  function FilterAwards(awards: seq<DrawPool.Award>, ids: seq<int>): seq<DrawPool.Award> {
    if awards == [] then []
    else
      var before := FilterAwards(awards[..|awards| - 1], ids);
      var last := awards[|awards| - 1];
      if last.id in ids then before + [last] else before
  }

  /** Exactly the strategy's awards with a listed id, each as often as the strategy has it. */
  lemma {:induction false} FilterSelects(awards: seq<DrawPool.Award>, ids: seq<int>, a: DrawPool.Award)
    ensures multiset(FilterAwards(awards, ids))[a] == if a.id in ids then multiset(awards)[a] else 0
    decreases |awards|
  {
    if awards != [] {
      FilterSelects(awards[..|awards| - 1], ids, a);
      assert awards == awards[..|awards| - 1] + [awards[|awards| - 1]];
    }
  }

  lemma {:induction false} FilteredAreListed(awards: seq<DrawPool.Award>, ids: seq<int>, i: nat)
    requires i < |FilterAwards(awards, ids)|
    ensures FilterAwards(awards, ids)[i].id in ids && FilterAwards(awards, ids)[i] in awards
    decreases |awards|
  {
    var n := |awards| - 1;
    if i < |FilterAwards(awards[..n], ids)| {
      FilteredAreListed(awards[..n], ids, i);
    }
  }

  method SelectAwards(awards: seq<DrawPool.Award>, ids: seq<int>) returns (selected: seq<DrawPool.Award>)
    ensures selected == FilterAwards(awards, ids)
    ensures forall a :: multiset(selected)[a] == if a.id in ids then multiset(awards)[a] else 0
  {
    selected := [];
    for i := 0 to |awards|
      invariant selected == FilterAwards(awards[..i], ids)
    {
      assert awards[..i + 1][..i] == awards[..i];
      if awards[i].id in ids { selected := selected + [awards[i]]; }
    }
    assert awards[..|awards|] == awards;
    forall a ensures multiset(selected)[a] == if a.id in ids then multiset(awards)[a] else 0 {
      FilterSelects(awards, ids, a);
    }
  }

  /** A tier's pool is stored under "strategy_tier", the default pool under "strategy". */
  function PoolName(strategy: int, tier: Option<string>): string {
    Marked(Itoa(strategy), tier)
  }

  /** Some pool compiled from `awards` is armed under `name`. */
  ghost predicate ArmedFor(c: PoolStore.Cache, name: string, awards: seq<DrawPool.Award>) {
    exists pool :: PoolStore.Armed(c, name, pool) && pool != [] && multiset(pool) == DrawPool.PoolOf(awards)
  }

  /** Nothing stored under any other name has changed. */
  ghost predicate SameElsewhere(before: PoolStore.Cache, after: PoolStore.Cache, name: string) {
    && (forall other, r: nat :: other != name ==> PoolStore.Draw(after, other, r) == PoolStore.Draw(before, other, r))
    && (forall other :: other != name && other in before.ranges ==>
          other in after.ranges && after.ranges[other] == before.ranges[other])
  }

  /** Which of the two writes of a pool get through. */
  datatype Writes = Writes(length: bool, hash: bool)

  predicate Stores(awards: seq<DrawPool.Award>, w: Writes) {
    w.length && w.hash && DrawPool.PoolOf(awards) != multiset{}
  }

  /** assembleLotteryStrategyWithAwards: compile and store one pool. */
  method AssembleWithAwards(repo: PoolStore.Repository, name: string, awards: seq<DrawPool.Award>,
                            w: Writes) returns (ok: bool)
    modifies repo
    ensures ok <==> Stores(awards, w)
    ensures ok ==> ArmedFor(repo.Value(), name, awards)
    ensures SameElsewhere(old(repo.Value()), repo.Value(), name)
  {
    var pool, index := DrawPool.Compile(awards);
    ghost var before := repo.Value();
    ok := repo.StoreStrategyAwardPool(name, pool, |pool|, index, w.length, w.hash);
    forall other, r: nat | other != name
      ensures PoolStore.Draw(repo.Value(), other, r) == PoolStore.Draw(before, other, r)
    {
      PoolStore.StoreLeavesOthers(before, name, pool, w.hash, other, r);
    }
    assert pool == [] <==> multiset(pool) == multiset{} by {
      if pool != [] { assert pool[0] in multiset(pool); }
    }
    if ok { PoolStore.StoreArms(before, name, pool); }
  }

  /** No two pools share a name, of whatever strategies and tiers. */
  lemma PoolNamesDiffer(strategy: int, tier: Option<string>, other: int, otherTier: Option<string>)
    ensures PoolName(strategy, tier) == PoolName(other, otherTier) <==>
              tier == otherTier && Itoa(strategy) == Itoa(other)
  {
    PrintedIsPlain(strategy, '_');
    PrintedIsPlain(other, '_');
    if PoolName(strategy, tier) == PoolName(other, otherTier) {
      SameUpToMark(Itoa(strategy), tier, Itoa(other), otherTier);
    }
  }

  lemma MarkInLonger(a: string, tier: Option<string>, b: string, otherTier: Option<string>)
    requires Marked(a, tier) == Marked(b, otherTier)
    ensures |a| < |b| ==> '_' in b
  {
    var s := Marked(a, tier);
    assert s[..|b|] == b;
    if |a| < |b| { assert b[|a|] == s[|a|] == '_'; }
  }

  lemma SameUpToMark(a: string, tier: Option<string>, b: string, otherTier: Option<string>)
    requires '_' !in a && '_' !in b
    requires Marked(a, tier) == Marked(b, otherTier)
    ensures a == b && tier == otherTier
  {
    MarkInLonger(a, tier, b, otherTier);
    MarkInLonger(b, otherTier, a, tier);
    var s := Marked(a, tier);
    assert s[..|a|] == a && s[..|b|] == b;
    if tier.Some? && otherTier.Some? {
      assert s[|a| + 1..] == tier.value && s[|b| + 1..] == otherTier.value;
    }
  }

  function Marked(name: string, tier: Option<string>): string {
    if tier.Some? then name + "_" + tier.value else name
  }

  /** Whatever else was stored since, an armed pool stays armed. */
  lemma StaysArmed(before: PoolStore.Cache, after: PoolStore.Cache, name: string, awards: seq<DrawPool.Award>)
    requires ArmedFor(before, name, awards)
    requires forall r: nat :: PoolStore.Draw(after, name, r) == PoolStore.Draw(before, name, r)
    requires name in after.ranges && after.ranges[name] == before.ranges[name]
    ensures ArmedFor(after, name, awards)
  {
    var pool :| PoolStore.Armed(before, name, pool) && pool != [] && multiset(pool) == DrawPool.PoolOf(awards);
    assert PoolStore.Armed(after, name, pool);
  }

  /** Every pool of these tiers can be compiled to something and stored. */
  ghost predicate AllStore(strategy: int, awards: seq<DrawPool.Award>, rules: map<string, seq<int>>,
                           written: string -> Writes) {
    forall key :: key in rules ==> Stores(FilterAwards(awards, rules[key]), written(PoolName(strategy, Some(key))))
  }

  ghost predicate AllArmed(c: PoolStore.Cache, strategy: int, awards: seq<DrawPool.Award>,
                           rules: map<string, seq<int>>) {
    forall key :: key in rules ==> ArmedFor(c, PoolName(strategy, Some(key)), FilterAwards(awards, rules[key]))
  }

  /** The weight rule of a strategy: not among its models, a failed query, named without a row, or its text. */
  datatype RuleRow = NoRule | QueryFails | MissingRow | RuleText(text: string)

  /** A rule without a row is a nil dereference. */
  datatype Assembled = Assembled | Refused | Panicked

  /** assembleLotteryStrategy: the default pool, then one pool for each tier, in no particular order,
      stopping at the first that cannot be stored. A panic leaves the default pool armed. */
  method AssembleLotteryStrategy(repo: PoolStore.Repository, strategy: int, awards: seq<DrawPool.Award>,
                                 rule: RuleRow, written: string -> Writes) returns (r: Assembled)
    modifies repo
    ensures !r.Refused? ==> ArmedFor(repo.Value(), PoolName(strategy, None), awards)
    ensures r.Panicked? <==>
              && Stores(awards, written(PoolName(strategy, None)))
              && (rule.MissingRow? || (rule.RuleText? && ArmoryRules(Split(rule.text, ' ')) == Err(Panics)))
    ensures r.Assembled? <==>
              && Stores(awards, written(PoolName(strategy, None)))
              && (rule.NoRule? || (rule.RuleText? && ArmoryRules(Split(rule.text, ' ')).Ok?
                                   && AllStore(strategy, awards, ArmoryRules(Split(rule.text, ' ')).value, written)))
    ensures r.Assembled? && rule.RuleText? ==>
              AllArmed(repo.Value(), strategy, awards, ArmoryRules(Split(rule.text, ' ')).value)
  {
    var ok := AssembleWithAwards(repo, PoolName(strategy, None), awards, written(PoolName(strategy, None)));
    if !ok { return Refused; }
    match rule
    case NoRule => return Assembled;
    case QueryFails => return Refused;
    case MissingRow => return Panicked;
    case RuleText(text) =>
      var parsed := GetRuleWeightValues(text);
      if parsed.Err? { return if parsed.error.Panics? then Panicked else Refused; }
      ok := AssembleTiers(repo, strategy, awards, parsed.value, written);
      return if ok then Assembled else Refused;
  }

  method AssembleTiers(repo: PoolStore.Repository, strategy: int, awards: seq<DrawPool.Award>,
                       rules: map<string, seq<int>>, written: string -> Writes) returns (ok: bool)
    requires ArmedFor(repo.Value(), PoolName(strategy, None), awards)
    modifies repo
    ensures ok ==> ArmedFor(repo.Value(), PoolName(strategy, None), awards)
    ensures ok ==> AllArmed(repo.Value(), strategy, awards, rules)
    ensures ok <==> AllStore(strategy, awards, rules, written)
  {
    var todo := rules.Keys;
    while todo != {}
      invariant todo <= rules.Keys
      invariant ArmedFor(repo.Value(), PoolName(strategy, None), awards)
      invariant forall key :: key in rules && key !in todo ==>
                  ArmedFor(repo.Value(), PoolName(strategy, Some(key)), FilterAwards(awards, rules[key]))
      invariant forall key :: key in rules && key !in todo ==>
                  Stores(FilterAwards(awards, rules[key]), written(PoolName(strategy, Some(key))))
      decreases |todo|
    {
      var key :| key in todo;
      var selected := SelectAwards(awards, rules[key]);
      ghost var before := repo.Value();
      ok := AssembleWithAwards(repo, PoolName(strategy, Some(key)), selected, written(PoolName(strategy, Some(key))));
      if !ok { return; }
      ghost var after := repo.Value();
      OthersStayArmed(before, after, strategy, key, None, awards);
      forall k | k in rules && k !in todo
        ensures ArmedFor(after, PoolName(strategy, Some(k)), FilterAwards(awards, rules[k]))
      {
        OthersStayArmed(before, after, strategy, key, Some(k), FilterAwards(awards, rules[k]));
      }
      todo := todo - {key};
    }
    ok := true;
  }

  lemma OthersStayArmed(before: PoolStore.Cache, after: PoolStore.Cache, strategy: int, key: string,
                        other: Option<string>, awards: seq<DrawPool.Award>)
    requires other != Some(key) && ArmedFor(before, PoolName(strategy, other), awards)
    requires SameElsewhere(before, after, PoolName(strategy, Some(key)))
    ensures ArmedFor(after, PoolName(strategy, other), awards)
  {
    PoolNamesDiffer(strategy, other, strategy, Some(key));
    StaysArmed(before, after, PoolName(strategy, other), awards);
  }

  // ---------------------------------------------------------------- the chain's choice

  /** The greatest tier the score reaches. */
  ghost predicate Reaches(tiers: set<int>, score: int, tier: int) {
    tier in tiers && tier <= score && forall t :: t in tiers && t <= score ==> t <= tier
  }

  datatype WeightDecision = WeightError | NextRule | TakesOver(tier: int)

  /** The loop from the greatest tier down. */
  method Topmost(keys: seq<int>, score: int) returns (i: int)
    requires Ascending(keys)
    ensures -1 <= i < |keys|
    ensures i >= 0 ==> keys[i] <= score
    ensures forall k :: i < k < |keys| ==> score < keys[k]
  {
    i := |keys| - 1;
    while i >= 0 && score < keys[i]
      invariant -1 <= i < |keys|
      invariant forall k :: i < k < |keys| ==> score < keys[k]
    {
      i := i - 1;
    }
  }

  /** ruleWeightLogic.logic up to the draw: scan the sorted tiers from the top. */
  method ChooseTier(ruleValue: string, score: int) returns (d: WeightDecision)
    ensures d.WeightError? <==> ChainRules(Split(ruleValue, ' ')).Err?
    ensures d.TakesOver? ==> Reaches(ChainRules(Split(ruleValue, ' ')).value.Keys, score, d.tier)
    ensures d.NextRule? ==> forall t :: t in ChainRules(Split(ruleValue, ' ')).value ==> score < t
  {
    var parsed := GetAnalyticalValue(ruleValue);
    if parsed.Err? { return WeightError; }
    if |parsed.value| == 0 { return NextRule; }
    d := AmongTiers(parsed.value.Keys, score);
  }

  method AmongTiers(tiers: set<int>, score: int) returns (d: WeightDecision)
    ensures !d.WeightError?
    ensures d.TakesOver? ==> Reaches(tiers, score, d.tier)
    ensures d.NextRule? ==> forall t :: t in tiers ==> score < t
  {
    var keys := SortedKeys(tiers);
    var i := Topmost(keys, score);
    if i >= 0 {
      assert keys[i] in keys;
      forall t | t in tiers && t <= score ensures t <= keys[i] {
        var k :| 0 <= k < |keys| && keys[k] == t;
      }
      return TakesOver(keys[i]);
    }
    forall t | t in tiers ensures score < t {
      var k :| 0 <= k < |keys| && keys[k] == t;
    }
    return NextRule;
  }

  /** The rule lists the award for the tier. */
  predicate Lists(ruleValue: string, tier: int, award: int)
    requires ChainRules(Split(ruleValue, ' ')).Ok? && tier in ChainRules(Split(ruleValue, ' ')).value
  {
    var ids := Ids(Split(ChainRules(Split(ruleValue, ' ')).value[tier], ','));
    ids.Some? && award in ids.value
  }

  /** The pool the chain asks for under a tier of the rule is among the armed ones. */
  lemma TierPoolIsArmed(c: PoolStore.Cache, strategy: int, awards: seq<DrawPool.Award>, ruleValue: string, tier: int)
    requires AllCanonical(Split(ruleValue, ' '))
    requires ArmoryRules(Split(ruleValue, ' ')).Ok? && ChainRules(Split(ruleValue, ' ')).Ok?
    requires AllArmed(c, strategy, awards, ArmoryRules(Split(ruleValue, ' ')).value)
    requires tier in ChainRules(Split(ruleValue, ' ')).value
    ensures PoolName(strategy, Some(Itoa(tier))) in c.ranges && 0 < c.ranges[PoolName(strategy, Some(Itoa(tier)))]
  {
    ParsersAgree(Split(ruleValue, ' '));
    var ids := ArmoryRules(Split(ruleValue, ' ')).value[Itoa(tier)];
    assert ArmedFor(c, PoolName(strategy, Some(Itoa(tier))), FilterAwards(awards, ids));
  }

  /** A user taken over by the weight rule draws successfully, from the pool of the greatest tier the
      score reaches, and gets an award that the rule lists for that tier and the strategy has. */
  lemma WeightDrawIsListed(c: PoolStore.Cache, strategy: int, awards: seq<DrawPool.Award>, ruleValue: string,
                           score: int, tier: int, random: nat)
    requires AllCanonical(Split(ruleValue, ' '))
    requires ArmoryRules(Split(ruleValue, ' ')).Ok? && ChainRules(Split(ruleValue, ' ')).Ok?
    requires AllArmed(c, strategy, awards, ArmoryRules(Split(ruleValue, ' ')).value)
    requires Reaches(ChainRules(Split(ruleValue, ' ')).value.Keys, score, tier)
    requires PoolName(strategy, Some(Itoa(tier))) in c.ranges && random < c.ranges[PoolName(strategy, Some(Itoa(tier)))]
    ensures var drawn := PoolStore.Draw(c, PoolName(strategy, Some(Itoa(tier))), random);
            && drawn.Ok?
            && Lists(ruleValue, tier, drawn.value)
            && exists i :: 0 <= i < |awards| && awards[i].id == drawn.value
  {
    var groups := Split(ruleValue, ' ');
    ParsersAgree(groups);
    var ids := ArmoryRules(groups).value[Itoa(tier)];
    DrawFromTier(c, PoolName(strategy, Some(Itoa(tier))), awards, ids, random);
  }

  /** Drawing within the length of an armed pool succeeds, with one of the awards it was compiled from. */
  lemma DrawFromArmed(c: PoolStore.Cache, name: string, awards: seq<DrawPool.Award>, random: nat)
    requires ArmedFor(c, name, awards) && random < c.ranges[name]
    ensures var drawn := PoolStore.Draw(c, name, random);
            drawn.Ok? && exists i :: 0 <= i < |awards| && awards[i].id == drawn.value
  {
    var pool :| PoolStore.Armed(c, name, pool) && pool != [] && multiset(pool) == DrawPool.PoolOf(awards);
    assert PoolStore.Draw(c, name, random) == Ok(pool[random]);
    assert pool[random] in multiset(pool);
    DrawPool.OnlyListedAwards(awards, DrawPool.TotalRate(awards), DrawPool.Range(awards), pool[random]);
  }

  lemma DrawFromTier(c: PoolStore.Cache, name: string, awards: seq<DrawPool.Award>, ids: seq<int>, random: nat)
    requires ArmedFor(c, name, FilterAwards(awards, ids)) && random < c.ranges[name]
    ensures var drawn := PoolStore.Draw(c, name, random);
            drawn.Ok? && drawn.value in ids && exists i :: 0 <= i < |awards| && awards[i].id == drawn.value
  {
    var selected := FilterAwards(awards, ids);
    DrawFromArmed(c, name, selected, random);
    var k :| 0 <= k < |selected| && selected[k].id == PoolStore.Draw(c, name, random).value;
    FilteredAreListed(awards, ids, k);
    var i :| 0 <= i < |awards| && awards[i] == selected[k];
    assert awards[i].id == PoolStore.Draw(c, name, random).value;
  }
}
