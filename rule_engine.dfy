/**
  The deterministic rule engine (backend/app/rule_engine.py): every category is
  scored by weighted keyword rules over one text blob built from a vision payload,
  the categories are ranked by score, and the winner, an ambiguity flag and a
  confidence are derived from the top two scores.

  Weights and thresholds are multiples of 0.1 in the source; here they are whole
  numbers of tenths (a weight of 2.5 is 25, the default threshold 2.0 is 20).
 */
module RuleEngine {
  import opened Wrappers
  import opened Strings
  import opened CategoryUtils

  /** One `(keywords, weight)` rule; the weight in tenths. */
  datatype Rule = Rule(keywords: seq<string>, weight: nat)

  const RoadsRules: seq<Rule> := [
    Rule(["pothole", "potholes"], 30),
    Rule(["road damage", "damaged road", "broken road", "cracked road"], 30),
    Rule(["damaged pavement", "broken pavement", "cracked pavement"], 25),
    Rule(["footpath damage", "broken footpath", "damaged footpath"], 25),
    Rule(["manhole", "manhole cover"], 20),
    Rule(["road crack", "road surface"], 20),
    Rule(["bridge damage", "damaged bridge"], 20),
    Rule(["asphalt", "tar road", "concrete road"], 10),
    Rule(["road", "street", "highway", "lane"], 3)
  ]

  const SanitationRules: seq<Rule> := [
    Rule(["garbage", "trash", "rubbish", "refuse"], 30),
    Rule(["waste pile", "waste dump", "waste heap"], 30),
    Rule(["overflowing bin", "overflowing trash", "overflowing garbage"], 30),
    Rule(["litter", "littered", "littering"], 25),
    Rule(["dump", "dumped", "dumping"], 20),
    Rule(["dirty toilet", "filthy toilet", "unclean toilet"], 25),
    Rule(["debris", "scattered waste"], 15),
    Rule(["stench", "foul smell", "unhygienic"], 10)
  ]

  const HorticultureRules: seq<Rule> := [
    Rule(["fallen tree", "uprooted tree", "collapsed tree"], 30),
    Rule(["overgrown", "unmaintained park", "neglected park"], 25),
    Rule(["dead plant", "dead plants", "dry plants", "withered"], 25),
    Rule(["broken branch", "tree branch", "branches blocking"], 20),
    Rule(["tree blocking road", "tree fell", "tree on road"], 30),
    Rule(["garden", "park", "greenery", "vegetation"], 5)
  ]

  const LightingRules: seq<Rule> := [
    Rule(["street light", "streetlight", "street lamp"], 30),
    Rule(["lamp post", "lamppost", "light pole"], 30),
    Rule(["broken light", "non-functional light", "damaged light"], 25),
    Rule(["unlit road", "dark road", "dark street", "no lighting"], 25),
    Rule(["bulb", "illumination"], 5)
  ]

  const WaterRules: seq<Rule> := [
    Rule(["waterlogging", "waterlogged", "water logging"], 30),
    Rule(["flooded", "flooding", "flood"], 30),
    Rule(["drain overflow", "overflowing drain", "blocked drain"], 30),
    Rule(["sewer overflow", "sewer leak", "sewage"], 30),
    Rule(["pipe leak", "water leak", "leaking pipe", "burst pipe"], 25),
    Rule(["stagnant water", "standing water", "water pooling"], 25),
    Rule(["drainage problem", "drainage issue", "clogged drain"], 20),
    Rule(["water gushing", "water spraying"], 20)
  ]

  const PowerRules: seq<Rule> := [
    Rule(["dangling wire", "hanging wire", "loose wire", "fallen wire"], 30),
    Rule(["open transformer", "damaged transformer", "leaking transformer"], 30),
    Rule(["fallen electric pole", "tilted pole", "broken pole"], 30),
    Rule(["exposed wire", "bare wire", "naked cable"], 25),
    Rule(["power cable", "electric cable", "power line"], 20),
    Rule(["sparking", "electrical hazard", "electrocution risk"], 25),
    Rule(["transformer", "electric pole", "utility pole"], 15)
  ]

  const PollutionRules: seq<Rule> := [
    Rule(["air pollution", "smoke emission", "thick smoke"], 30),
    Rule(["industrial waste", "factory waste", "effluent"], 30),
    Rule(["open burning", "burning garbage", "burning waste"], 30),
    Rule(["chemical dump", "toxic waste", "hazardous waste"], 30),
    Rule(["pollution", "polluted", "contaminated"], 20),
    Rule(["smoke", "smog", "haze"], 15)
  ]

  const TrafficRules: seq<Rule> := [
    Rule(["traffic signal", "signal failure", "broken signal"], 30),
    Rule(["traffic jam", "traffic congestion", "gridlock"], 25),
    Rule(["road blockage", "road blocked", "road obstruction"], 25),
    Rule(["traffic"], 5)
  ]

  const LocalPoliceRules: seq<Rule> := [
    Rule(["illegal parking", "wrong parking", "no parking zone"], 30),
    Rule(["encroachment", "footpath encroachment", "pavement encroachment"], 30),
    Rule(["public nuisance", "disturbance", "rowdy"], 25),
    Rule(["footpath blocked", "path blocked", "walkway blocked"], 20),
    Rule(["unauthorized", "illegal occupation", "hawker"], 15)
  ]

  const TransportRules: seq<Rule> := [
    Rule(["bus shelter", "bus stop", "damaged bus stop"], 30),
    Rule(["state bus", "broken bus", "damaged bus"], 30),
    Rule(["transport terminal", "bus terminal", "bus depot"], 25)
  ]

  const CategoryRules: seq<(string, seq<Rule>)> := [
    ("Municipal - PWD (Roads)", RoadsRules),
    ("Municipal - Sanitation", SanitationRules),
    ("Municipal - Horticulture", HorticultureRules),
    ("Municipal - Street Lighting", LightingRules),
    ("Municipal - Water & Sewerage", WaterRules),
    ("Utility - Power (DISCOM)", PowerRules),
    ("Pollution Control Board", PollutionRules),
    ("Police - Traffic", TrafficRules),
    ("Police - Local Law Enforcement", LocalPoliceRules),
    ("State Transport", TransportRules)
  ]

  const NonCivicKeywords: seq<string> := [
    "selfie", "portrait", "food", "meal", "restaurant", "cartoon", "anime",
    "gaming", "screenshot", "indoor furniture", "appliance", "pet", "animal",
    "beautiful landscape", "clear sky", "family photo", "group photo"
  ]

  /** `classify_by_rules`' default `ambiguity_threshold` (2.0) and
      `confidence_gap_threshold` (1.0), in tenths; `Classify` and
      `ClassifyByRules` take them as their parameter defaults. */
  const DefaultAmbiguityThreshold: int := 20
  const DefaultGapThreshold: int := 10

  // ----- Scoring -----

  /** `any(kw in text_lower for kw in keywords)`. */
  predicate Fires(textLower: string, rule: Rule) {
    ContainsAny(textLower, rule.keywords)
  }

  /** The weights of all rules, added up. */
  function TotalWeight(rules: seq<Rule>): nat {
    if rules == [] then 0 else TotalWeight(rules[..|rules| - 1]) + rules[|rules| - 1].weight
  }

  /** The rules that fire, in order: every rule kept fires, and every rule that
      fires is kept. */
  function FiredRules(textLower: string, rules: seq<Rule>): (r: seq<Rule>)
    ensures |r| <= |rules|
    ensures forall k :: 0 <= k < |r| ==> r[k] in rules && Fires(textLower, r[k])
    ensures forall k :: 0 <= k < |rules| && Fires(textLower, rules[k]) ==> rules[k] in r
  {
    if rules == [] then []
    else
      var init := FiredRules(textLower, rules[..|rules| - 1]);
      var last := rules[|rules| - 1];
      assert forall k :: 0 <= k < |init| ==> init[k] in rules by {
        forall k | 0 <= k < |init| ensures init[k] in rules {
          assert init[k] in rules[..|rules| - 1];
        }
      }
      assert forall k :: 0 <= k < |rules| - 1 && Fires(textLower, rules[k]) ==> rules[k] in init by {
        forall k | 0 <= k < |rules| - 1 && Fires(textLower, rules[k]) ensures rules[k] in init {
          assert rules[..|rules| - 1][k] == rules[k];
        }
      }
      if Fires(textLower, last) then init + [last] else init
  }

  /** The score `_score_text` accumulates over the rules `rules`, the text already
      lower-cased: every rule that fires adds its weight once. */
  function RuleSum(textLower: string, rules: seq<Rule>): (r: nat)
    ensures r <= TotalWeight(rules)
  {
    if rules == [] then 0
    else
      var last := rules[|rules| - 1];
      RuleSum(textLower, rules[..|rules| - 1]) + (if Fires(textLower, last) then last.weight else 0)
  }

  /** `_score_text`. */
  method ScoreText(text: string, rules: seq<Rule>) returns (score: nat)
    ensures score == RuleSum(Lower(text), rules)
  {
    var textLower := Lower(text);
    score := 0;
    var i := 0;
    while i < |rules|
      invariant 0 <= i <= |rules|
      invariant score == RuleSum(textLower, rules[..i])
    {
      var rule := rules[i];
      if ContainsAny(textLower, rule.keywords) {
        score := score + rule.weight;
      }
      assert rules[..i + 1][..i] == rules[..i];
      i := i + 1;
    }
    assert rules[..i] == rules;
  }

  // ----- The vision payload -----

  /** The keys of the vision payload dictionary the engine reads; a missing key is
      `None`. */
  datatype VisionPayload = VisionPayload(
    description: Option<string>,
    visibleObjects: Option<seq<string>>,
    primaryIssue: Option<string>,
    secondaryIssue: Option<string>,
    hazards: Option<seq<string>>)

  /** `dict.get(key, default)`. */
  function GetOr<T>(o: Option<T>, fallback: T): T {
    match o
    case Some(v) => v
    case None => fallback
  }

  /** The combined text: the five fields with their defaults, lists joined by
      spaces, the fields separated by single spaces. */
  function CombinedText(p: VisionPayload): string {
    GetOr(p.description, "") + " " + Join(GetOr(p.visibleObjects, []), " ") + " "
    + GetOr(p.primaryIssue, "") + " " + GetOr(p.secondaryIssue, "") + " "
    + Join(GetOr(p.hazards, []), " ")
  }

  /** `parse_vision_text_to_payload`. */
  function ParseVisionText(text: string): (p: VisionPayload)
    ensures p.description == Some(text)
    ensures p.visibleObjects == Some([]) && p.hazards == Some([])
    ensures p.primaryIssue == Some("") && p.secondaryIssue == Some("")
  {
    VisionPayload(Some(text), Some([]), Some(""), Some(""), Some([]))
  }

  // ----- Ranking -----

  /** A category and its score. */
  type Scored = (string, nat)

  predicate SortedByScore(l: seq<Scored>) {
    forall i, j :: 0 <= i < j < |l| ==> l[i].1 >= l[j].1
  }

  /** Inserts `x`, which came before every element of `l`, ahead of the first
      element whose score is not higher. */
  function Insert(x: Scored, l: seq<Scored>): (r: seq<Scored>)
    ensures multiset(r) == multiset([x] + l)
    ensures SortedByScore(l) ==> SortedByScore(r)
    ensures r[0] == x || (l != [] && r[0] == l[0])
  {
    if l == [] || x.1 >= l[0].1 then [x] + l
    else
      var rest := Insert(x, l[1..]);
      assert l == [l[0]] + l[1..];
      assert multiset([x] + l) == multiset([l[0]]) + multiset([x] + l[1..]);
      [l[0]] + rest
  }

  /** `sorted(scores.items(), key=lambda x: -x[1])`: a stable sort by descending
      score. */
  function Rank(s: seq<Scored>): (r: seq<Scored>)
    ensures multiset(r) == multiset(s)
    ensures |r| == |s|
    ensures SortedByScore(r)
  {
    if s == [] then []
    else
      assert s == [s[0]] + s[1..];
      var r := Insert(s[0], Rank(s[1..]));
      assert |r| == |multiset(r)|;
      r
  }

  /** The index of the first entry with the highest score. */
  function FirstMax(s: seq<Scored>): (k: nat)
    requires s != []
    ensures k < |s|
    ensures forall j :: 0 <= j < |s| ==> s[j].1 <= s[k].1
    ensures forall j :: 0 <= j < k ==> s[j].1 < s[k].1
  {
    if |s| == 1 then 0
    else
      var k := FirstMax(s[1..]);
      if s[0].1 >= s[1 + k].1 then 0 else 1 + k
  }

  // ----- The decision -----

  /** The `method` field of the result. */
  datatype RuleMethod = RuleEngineMatch | RuleEngineNonCivic | RuleEngineNoMatch {
    function Name(): string {
      match this
      case RuleEngineMatch => "rule_engine"
      case RuleEngineNonCivic => "rule_engine_non_civic"
      case RuleEngineNoMatch => "rule_engine_no_match"
    }
  }

  /** The dictionary `classify_by_rules` returns; `scores` keeps the category
      order of the rule table. */
  datatype RuleResult = RuleResult(
    category: string,
    confidence: real,
    isAmbiguous: bool,
    scores: seq<Scored>,
    ruleMethod: RuleMethod)

  function Min(a: real, b: real): real {
    if a <= b then a else b
  }

  /** The answer for text that mentions a non-civic subject. */
  const NonCivicResult: RuleResult := RuleResult(Uncategorized, 0.85, false, [], RuleEngineNonCivic)

  /** `min(top / 6.0, 1.0)`, scaled by 0.7 when the gap to the runner-up is below
      the gap threshold and there is a runner-up; `top` in tenths. */
  function Confidence(top: int, gap: int, hasRunnerUp: bool, gapThreshold: int): (c: real)
    requires top > 0
    ensures 0.0 < c <= 1.0
    ensures c <= top as real / 60.0
    ensures c == 1.0 <==> top >= 60 && !(gap < gapThreshold && hasRunnerUp)
  {
    var raw := Min(top as real / 60.0, 1.0);
    if gap < gapThreshold && hasRunnerUp then raw * 0.7 else raw
  }

  /** The head of the ranking, or `("Uncategorized", 0)` when there is none. */
  function TopEntry(ranked: seq<Scored>): Scored {
    if |ranked| > 0 then ranked[0] else (Uncategorized, 0)
  }

  /** The score of the second entry of the ranking, or 0 when there is none. */
  function RunnerUpScore(ranked: seq<Scored>): nat {
    if |ranked| > 1 then ranked[1].1 else 0
  }

  /** The ranking and the branches after it: the winner is the head of the ranking,
      the runner-up its second entry. */
  function Decide(scores: seq<Scored>, ambiguityThreshold: int, gapThreshold: int): (r: RuleResult)
    ensures r.scores == scores && r.ruleMethod != RuleEngineNonCivic
    ensures r.ruleMethod == RuleEngineNoMatch <==> forall i :: 0 <= i < |scores| ==> scores[i].1 == 0
    ensures r.ruleMethod == RuleEngineNoMatch ==> r.category == Uncategorized && r.confidence == 0.1 && r.isAmbiguous
    ensures r.ruleMethod == RuleEngineMatch ==>
              r.category == scores[FirstMax(scores)].0 && 0.0 < r.confidence <= 1.0
  {
    var ranked := Rank(scores);
    var top := TopEntry(ranked);
    var gap := top.1 - RunnerUpScore(ranked);
    var isAmbiguous := top.1 < ambiguityThreshold || gap < gapThreshold;
    assert scores != [] ==> top == scores[FirstMax(scores)] by {
      if scores != [] {
        RankHead(scores);
      }
    }
    if top.1 <= 0 then
      RuleResult(Uncategorized, 0.1, true, scores, RuleEngineNoMatch)
    else
      RuleResult(top.0, Confidence(top.1, gap, |ranked| > 1, gapThreshold), isAmbiguous, scores, RuleEngineMatch)
  }

  /** The score table `classify_by_rules` fills: one entry per category, in table
      order. */
  function ScoreTable(textLower: string, table: seq<(string, seq<Rule>)>): seq<Scored> {
    seq(|table|, i requires 0 <= i < |table| => (table[i].0, RuleSum(textLower, table[i].1)))
  }

  /** What `classify_by_rules` returns for a payload. */
  function Classify(p: VisionPayload, ambiguityThreshold: int := DefaultAmbiguityThreshold,
                    gapThreshold: int := DefaultGapThreshold): RuleResult {
    var textLower := Lower(CombinedText(p));
    if ContainsAny(textLower, NonCivicKeywords) then NonCivicResult
    else Decide(ScoreTable(textLower, CategoryRules), ambiguityThreshold, gapThreshold)
  }

  /** `classify_by_rules`. */
  method ClassifyByRules(p: VisionPayload, ambiguityThreshold: int := DefaultAmbiguityThreshold,
                         gapThreshold: int := DefaultGapThreshold)
    returns (r: RuleResult)
    ensures r == Classify(p, ambiguityThreshold, gapThreshold)
  {
    var combined := CombinedText(p);
    var combinedLower := Lower(combined);
    if ContainsAny(combinedLower, NonCivicKeywords) {
      return NonCivicResult;
    }
    var scores: seq<Scored> := [];
    var i := 0;
    while i < |CategoryRules|
      invariant 0 <= i <= |CategoryRules|
      invariant scores == ScoreTable(combinedLower, CategoryRules[..i])
    {
      var s := ScoreText(combined, CategoryRules[i].1);
      scores := scores + [(CategoryRules[i].0, s)];
      i := i + 1;
    }
    assert CategoryRules[..i] == CategoryRules;
    r := Decide(scores, ambiguityThreshold, gapThreshold);
  }

  // ----- Ranking lemmas used above -----

  /** The head of the ranking is the first entry with the highest score: ties go
      to the category that comes first. */
  lemma {:induction false} RankHead(s: seq<Scored>)
    requires s != []
    ensures Rank(s)[0] == s[FirstMax(s)]
  {
    if |s| > 1 {
      var t := s[1..];
      RankHead(t);
      var k := FirstMax(t);
      assert s[1 + k] == t[k];
    }
  }
}
