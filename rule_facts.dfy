/**
  What the rule engine guarantees (backend/app/rule_engine.py): how a score is
  made up, what the ranking returns, and what each branch of `classify_by_rules`
  answers.
 */
module RuleFacts {
  import opened Wrappers
  import opened Strings
  import opened CategoryUtils
  import opened RuleEngine

  // ----- Scores -----

  /** A score is the total weight of the rules that fire: each rule counts once. */
  lemma {:induction false} RuleSumFired(textLower: string, rules: seq<Rule>)
    ensures RuleSum(textLower, rules) == TotalWeight(FiredRules(textLower, rules))
  {
    if rules != [] {
      var init := rules[..|rules| - 1];
      RuleSumFired(textLower, init);
      var f := FiredRules(textLower, init);
      var last := rules[|rules| - 1];
      if Fires(textLower, last) {
        assert (f + [last])[..|f + [last]| - 1] == f;
      }
    }
  }

  /** Scores add up over a split of the rule list. */
  lemma {:induction false} RuleSumAppend(textLower: string, a: seq<Rule>, b: seq<Rule>)
    ensures RuleSum(textLower, a + b) == RuleSum(textLower, a) + RuleSum(textLower, b)
  {
    if b == [] {
      assert a + b == a;
    } else {
      var b' := b[..|b| - 1];
      assert (a + b)[..|a + b| - 1] == a + b';
      RuleSumAppend(textLower, a, b');
    }
  }

  /** With positive weights, a score is zero exactly when no rule fires. */
  lemma {:induction false} RuleSumZeroIff(textLower: string, rules: seq<Rule>)
    requires forall k :: 0 <= k < |rules| ==> rules[k].weight > 0
    ensures RuleSum(textLower, rules) == 0 <==> forall k :: 0 <= k < |rules| ==> !Fires(textLower, rules[k])
  {
    if rules != [] {
      var init := rules[..|rules| - 1];
      RuleSumZeroIff(textLower, init);
      assert forall k :: 0 <= k < |init| ==> init[k] == rules[k];
    }
  }

  /** When every rule fires the score is the total weight. */
  lemma {:induction false} RuleSumAllFire(textLower: string, rules: seq<Rule>)
    requires forall k :: 0 <= k < |rules| ==> Fires(textLower, rules[k])
    ensures RuleSum(textLower, rules) == TotalWeight(rules)
  {
    if rules != [] {
      var init := rules[..|rules| - 1];
      assert forall k :: 0 <= k < |init| ==> init[k] == rules[k];
      RuleSumAllFire(textLower, init);
    }
  }

  /** A rule that fires on part of a text fires on the whole text. */
  lemma FiresInLonger(t: string, u: string, rule: Rule)
    requires Contains(t, u) && Fires(u, rule)
    ensures Fires(t, rule)
  {
    var k :| 0 <= k < |rule.keywords| && Contains(u, rule.keywords[k]);
    ContainsTransitive(t, u, rule.keywords[k]);
  }

  /** Adding text never lowers a score. */
  lemma {:induction false} RuleSumMonotone(t: string, u: string, rules: seq<Rule>)
    requires Contains(t, u)
    ensures RuleSum(u, rules) <= RuleSum(t, rules)
  {
    if rules != [] {
      RuleSumMonotone(t, u, rules[..|rules| - 1]);
      var last := rules[|rules| - 1];
      if Fires(u, last) {
        FiresInLonger(t, u, last);
      }
    }
  }

  // ----- Ranking -----

  /** `s` without its entry at index `f`. */
  function Without(s: seq<Scored>, f: nat): seq<Scored>
    requires f < |s|
  {
    s[..f] + s[f + 1..]
  }

  /** Removing one entry removes one occurrence. */
  lemma WithoutMultiset(s: seq<Scored>, f: nat)
    requires f < |s|
    ensures multiset(s) == multiset(Without(s, f)) + multiset{s[f]}
  {
    assert s == s[..f] + [s[f]] + s[f + 1..];
  }

  /** Below the winner the ranking holds exactly the other entries. */
  lemma RankTail(s: seq<Scored>)
    requires s != []
    ensures multiset(Rank(s)[1..]) == multiset(Without(s, FirstMax(s)))
  {
    var r := Rank(s);
    var f := FirstMax(s);
    RankHead(s);
    assert r == [r[0]] + r[1..];
    assert multiset(r) == multiset(r[1..]) + multiset{s[f]};
    WithoutMultiset(s, f);
    MultisetCancel(multiset(r[1..]), multiset(Without(s, f)), s[f]);
  }

  lemma MultisetCancel(a: multiset<Scored>, b: multiset<Scored>, x: Scored)
    requires a + multiset{x} == b + multiset{x}
    ensures a == b
  {
    assert forall y :: a[y] == (a + multiset{x})[y] - multiset{x}[y];
    assert forall y :: b[y] == (b + multiset{x})[y] - multiset{x}[y];
  }

  lemma WithoutIndex(s: seq<Scored>, f: nat, j: nat)
    requires f < |s| && j < |s| && j != f
    ensures s[j] in multiset(Without(s, f))
  {
    var rest := Without(s, f);
    var jj := if j < f then j else j - 1;
    assert rest[jj] == s[j];
  }

  lemma WithoutMember(s: seq<Scored>, f: nat, x: Scored)
    requires f < |s| && x in multiset(Without(s, f))
    ensures exists j :: 0 <= j < |s| && j != f && s[j] == x
  {
    var rest := Without(s, f);
    var i :| 0 <= i < |rest| && rest[i] == x;
    var j := if i < f then i else i + 1;
    assert s[j] == x;
  }

  lemma SortedSecond(r: seq<Scored>, x: Scored)
    requires SortedByScore(r) && |r| > 1 && x in multiset(r[1..])
    ensures x.1 <= r[1].1
  {
    var i :| 0 <= i < |r[1..]| && r[1..][i] == x;
    assert r[1 + i] == x;
  }

  /** The second entry of the ranking carries the highest score among all entries
      but the winner: the runner-up score. */
  lemma RankRunnerUp(s: seq<Scored>)
    requires |s| > 1
    ensures forall j :: 0 <= j < |s| && j != FirstMax(s) ==> s[j].1 <= Rank(s)[1].1
    ensures exists j :: 0 <= j < |s| && j != FirstMax(s) && s[j].1 == Rank(s)[1].1
  {
    var f := FirstMax(s);
    var r := Rank(s);
    RankTail(s);
    forall j | 0 <= j < |s| && j != f ensures s[j].1 <= r[1].1 {
      WithoutIndex(s, f, j);
      SortedSecond(r, s[j]);
    }
    assert r[1..][0] == r[1];
    WithoutMember(s, f, r[1]);
  }

  // ----- The rule table -----

  /** The ten rule categories are distinct canonical categories, none of them the
      sentinel. */
  lemma CategoryKeysCanonical()
    ensures |CategoryRules| == 10
    ensures forall i :: 0 <= i < |CategoryRules| ==>
              CategoryRules[i].0 in CanonicalCategories && CategoryRules[i].0 != Uncategorized
    ensures forall i, j :: 0 <= i < j < |CategoryRules| ==> CategoryRules[i].0 != CategoryRules[j].0
  {
  }

  /** Ten categories are scored. */
  lemma CategoryCount()
    ensures |CategoryRules| == 10
  {
  }

  /** Every weight is positive. */
  lemma CategoryWeightsPositive()
    ensures forall i, k :: 0 <= i < |CategoryRules| && 0 <= k < |CategoryRules[i].1| ==>
              CategoryRules[i].1[k].weight > 0
  {
  }

  // ----- The decision -----

  /** The ambiguity flag and the confidence of a match, from the top score and the
      runner-up score. */
  lemma DecideMatch(scores: seq<Scored>, ambiguityThreshold: int, gapThreshold: int)
    requires |scores| > 1
    ensures var r := Decide(scores, ambiguityThreshold, gapThreshold);
            var top := scores[FirstMax(scores)].1;
            var second := Rank(scores)[1].1;
            r.ruleMethod == RuleEngineMatch ==>
              && r.isAmbiguous == (top < ambiguityThreshold || top - second < gapThreshold)
              && r.confidence == (if top - second < gapThreshold then Min(top as real / 60.0, 1.0) * 0.7
                                  else Min(top as real / 60.0, 1.0))
  {
    RankHead(scores);
    assert TopEntry(Rank(scores)).1 == scores[FirstMax(scores)].1;
  }

  // ----- classify_by_rules -----

  /** Non-civic text short-circuits: the sentinel with confidence 0.85, not
      ambiguous, no scores; and only non-civic text gets this method. */
  lemma ClassifyNonCivic(p: VisionPayload, ambiguityThreshold: int, gapThreshold: int)
    ensures var r := Classify(p, ambiguityThreshold, gapThreshold);
            && (r.ruleMethod == RuleEngineNonCivic <==> ContainsAny(Lower(CombinedText(p)), NonCivicKeywords))
            && (r.ruleMethod == RuleEngineNonCivic ==>
                  r.category == Uncategorized && r.confidence == 0.85 && !r.isAmbiguous && r.scores == [])
  {
  }

  /** Otherwise every category of the rule table is scored, once, in table order. */
  lemma ClassifyScores(p: VisionPayload, ambiguityThreshold: int, gapThreshold: int)
    requires !ContainsAny(Lower(CombinedText(p)), NonCivicKeywords)
    ensures var r := Classify(p, ambiguityThreshold, gapThreshold);
            && |r.scores| == |CategoryRules|
            && forall i :: 0 <= i < |CategoryRules| ==>
                 r.scores[i] == (CategoryRules[i].0, RuleSum(Lower(CombinedText(p)), CategoryRules[i].1))
  {
  }

  /** A match names a category with the highest score, the first such in table
      order. */
  lemma ClassifyWinner(p: VisionPayload, ambiguityThreshold: int, gapThreshold: int)
    ensures var r := Classify(p, ambiguityThreshold, gapThreshold);
            r.ruleMethod == RuleEngineMatch ==>
              exists i :: 0 <= i < |CategoryRules| && r.category == CategoryRules[i].0
                && (forall j :: 0 <= j < |CategoryRules| ==> r.scores[j].1 <= r.scores[i].1)
                && (forall j :: 0 <= j < i ==> r.scores[j].1 < r.scores[i].1)
  {
    var r := Classify(p, ambiguityThreshold, gapThreshold);
    if r.ruleMethod == RuleEngineMatch {
      ClassifyScores(p, ambiguityThreshold, gapThreshold);
      var i := FirstMax(r.scores);
      assert r.category == CategoryRules[i].0;
    }
  }

  /** Outside the non-civic case the answer is "no match" exactly when no rule of
      any category fires. */
  lemma ClassifyNoMatch(p: VisionPayload, ambiguityThreshold: int, gapThreshold: int)
    requires !ContainsAny(Lower(CombinedText(p)), NonCivicKeywords)
    ensures var r := Classify(p, ambiguityThreshold, gapThreshold);
            (r.ruleMethod == RuleEngineNoMatch)
              <==> forall i, k :: 0 <= i < |CategoryRules| && 0 <= k < |CategoryRules[i].1| ==>
                     !Fires(Lower(CombinedText(p)), CategoryRules[i].1[k])
    ensures var r := Classify(p, ambiguityThreshold, gapThreshold);
            r.ruleMethod == RuleEngineNoMatch ==>
              r.category == Uncategorized && r.confidence == 0.1 && r.isAmbiguous
  {
    var t := Lower(CombinedText(p));
    ClassifyScores(p, ambiguityThreshold, gapThreshold);
    CategoryWeightsPositive();
    forall i | 0 <= i < |CategoryRules|
      ensures RuleSum(t, CategoryRules[i].1) == 0
          <==> forall k :: 0 <= k < |CategoryRules[i].1| ==> !Fires(t, CategoryRules[i].1[k])
    {
      RuleSumZeroIff(t, CategoryRules[i].1);
    }
  }

  /** For a payload, the ambiguity flag is exactly "top below the threshold or gap
      to the runner-up below the gap threshold" (the confidence is the one
      `DecideMatch` states, on the score table `ClassifyScores` states). */
  lemma ClassifyAmbiguity(p: VisionPayload, ambiguityThreshold: int, gapThreshold: int)
    ensures var r := Classify(p, ambiguityThreshold, gapThreshold);
            r.ruleMethod == RuleEngineMatch ==>
              var top := r.scores[FirstMax(r.scores)].1;
              var second := Rank(r.scores)[1].1;
              r.isAmbiguous == (top < ambiguityThreshold || top - second < gapThreshold)
  {
    var t := Lower(CombinedText(p));
    if !ContainsAny(t, NonCivicKeywords) {
      var scores := ScoreTable(t, CategoryRules);
      var r := Decide(scores, ambiguityThreshold, gapThreshold);
      assert r.scores == scores;
      CategoryCount();
      DecideMatch(scores, ambiguityThreshold, gapThreshold);
    }
  }

  /** Whatever the branch, the category is canonical. */
  lemma ClassifyCanonical(p: VisionPayload, ambiguityThreshold: int, gapThreshold: int)
    ensures Classify(p, ambiguityThreshold, gapThreshold).category in CanonicalCategories
  {
    var r := Classify(p, ambiguityThreshold, gapThreshold);
    if r.ruleMethod == RuleEngineMatch {
      ClassifyWinner(p, ambiguityThreshold, gapThreshold);
      CategoryKeysCanonical();
    }
  }

  // ----- The payload -----

  /** A free-text description becomes a payload whose combined text is that
      description followed by the four separators of the empty fields. */
  lemma ParseVisionCombined(text: string)
    ensures CombinedText(ParseVisionText(text)) == text + "    "
  {
  }

  /** Every element of a joined list is part of the joined text. */
  lemma {:induction false} JoinHas(xs: seq<string>, sep: string, i: nat)
    requires i < |xs|
    ensures Contains(Join(xs, sep), xs[i])
  {
    var j := Join(xs, sep);
    if |xs| == 1 {
      ContainsWitness(j, xs[0], 0);
    } else if i == 0 {
      PieceMid([], xs[0], sep + Join(xs[1..], sep));
      assert j == [] + xs[0] + (sep + Join(xs[1..], sep));
    } else {
      JoinHas(xs[1..], sep, i - 1);
      var rest := Join(xs[1..], sep);
      PieceMid(xs[0] + sep, rest, []);
      assert j == (xs[0] + sep) + rest + [];
      ContainsTransitive(j, rest, xs[i]);
    }
  }

  /** The middle part of a concatenation is contained in it. */
  lemma PieceMid(a: string, m: string, b: string)
    ensures Contains(a + m + b, m)
  {
    assert (a + m + b)[|a|..|a| + |m|] == m;
    ContainsWitness(a + m + b, m, |a|);
  }

  /** Each of five space-separated parts is a substring of the whole. */
  lemma SpacedParts(d: string, o: string, pr: string, se: string, h: string)
    ensures var c := d + " " + o + " " + pr + " " + se + " " + h;
            Contains(c, d) && Contains(c, o) && Contains(c, pr) && Contains(c, se) && Contains(c, h)
  {
    var c := d + " " + o + " " + pr + " " + se + " " + h;
    assert c == [] + d + (" " + o + " " + pr + " " + se + " " + h);
    PieceMid([], d, " " + o + " " + pr + " " + se + " " + h);
    assert c == (d + " ") + o + (" " + pr + " " + se + " " + h);
    PieceMid(d + " ", o, " " + pr + " " + se + " " + h);
    assert c == (d + " " + o + " ") + pr + (" " + se + " " + h);
    PieceMid(d + " " + o + " ", pr, " " + se + " " + h);
    assert c == (d + " " + o + " " + pr + " ") + se + (" " + h);
    PieceMid(d + " " + o + " " + pr + " ", se, " " + h);
    assert c == (d + " " + o + " " + pr + " " + se + " ") + h + [];
    PieceMid(d + " " + o + " " + pr + " " + se + " ", h, []);
  }

  /** An item of a joined list inside `c` is itself inside `c`. */
  lemma JoinedItems(c: string, xs: seq<string>)
    requires Contains(c, Join(xs, " "))
    ensures forall i :: 0 <= i < |xs| ==> Contains(c, xs[i])
  {
    forall i | 0 <= i < |xs| ensures Contains(c, xs[i]) {
      JoinHas(xs, " ", i);
      ContainsTransitive(c, Join(xs, " "), xs[i]);
    }
  }

  /** Every text field of the payload, and every listed object and hazard, is a
      substring of the combined text that the rules are matched against. */
  lemma CombinedTextHasFields(p: VisionPayload)
    ensures var c := CombinedText(p);
            && Contains(c, GetOr(p.description, ""))
            && Contains(c, GetOr(p.primaryIssue, ""))
            && Contains(c, GetOr(p.secondaryIssue, ""))
            && (forall i :: 0 <= i < |GetOr(p.visibleObjects, [])| ==> Contains(c, GetOr(p.visibleObjects, [])[i]))
            && (forall i :: 0 <= i < |GetOr(p.hazards, [])| ==> Contains(c, GetOr(p.hazards, [])[i]))
  {
    SpacedParts(GetOr(p.description, ""), Join(GetOr(p.visibleObjects, []), " "),
                GetOr(p.primaryIssue, ""), GetOr(p.secondaryIssue, ""),
                Join(GetOr(p.hazards, []), " "));
    JoinedItems(CombinedText(p), GetOr(p.visibleObjects, []));
    JoinedItems(CombinedText(p), GetOr(p.hazards, []));
  }

  // ----- Worked examples -----

  /** A rule none of whose keywords can occur in the text: each keyword holds a
      character the text lacks. */
  lemma NotFiresMissing(t: string, rule: Rule, idx: seq<nat>)
    requires |idx| == |rule.keywords|
    requires forall k :: 0 <= k < |idx| ==> idx[k] < |rule.keywords[k]| && rule.keywords[k][idx[k]] !in t
    ensures !Fires(t, rule)
  {
    forall k | 0 <= k < |rule.keywords| ensures !Contains(t, rule.keywords[k]) {
      NotContainsMissingChar(t, rule.keywords[k], idx[k]);
    }
  }

  lemma RuleSumSingle(t: string, rule: Rule)
    ensures RuleSum(t, [rule]) == if Fires(t, rule) then rule.weight else 0
  {
    assert [rule][..0] == [];
  }

  lemma {:induction false} RuleSumPieces(t: string, rules: seq<Rule>)
    ensures rules != [] ==> RuleSum(t, rules) == RuleSum(t, [rules[0]]) + RuleSum(t, rules[1..])
  {
    if rules != [] {
      assert rules == [rules[0]] + rules[1..];
      RuleSumAppend(t, [rules[0]], rules[1..]);
    }
  }

  /** A seven-rule score is the sum of the rules' own contributions. */
  lemma RuleSumSeven(t: string, rs: seq<Rule>)
    requires |rs| == 7
    ensures RuleSum(t, rs) == RuleSum(t, [rs[0]]) + RuleSum(t, [rs[1]]) + RuleSum(t, [rs[2]])
              + RuleSum(t, [rs[3]]) + RuleSum(t, [rs[4]]) + RuleSum(t, [rs[5]]) + RuleSum(t, [rs[6]])
  {
    RuleSumPieces(t, rs);
    RuleSumPieces(t, rs[1..]);
    RuleSumPieces(t, rs[2..]);
    RuleSumPieces(t, rs[3..]);
    RuleSumPieces(t, rs[4..]);
    RuleSumPieces(t, rs[5..]);
    assert rs[1..][1..] == rs[2..];
    assert rs[2..][1..] == rs[3..];
    assert rs[3..][1..] == rs[4..];
    assert rs[4..][1..] == rs[5..];
    assert rs[5..][1..] == rs[6..];
    assert rs[6..] == [rs[6]];
  }

  lemma OpenTransformerQuiet(t: string, rule: Rule, idx: seq<nat>)
    requires t == "open transformer"
    requires |idx| == |rule.keywords|
    requires forall k :: 0 <= k < |idx| ==> idx[k] < |rule.keywords[k]| && rule.keywords[k][idx[k]] in "dhlibxkw"
    ensures RuleSum(t, [rule]) == 0
  {
    RuleSumSingle(t, rule);
    NotFiresMissing(t, rule, idx);
  }

  lemma OpenTransformerFires(t: string, rule: Rule, at: nat)
    requires t == "open transformer"
    requires rule.keywords != [] && ContainsAt(t, rule.keywords[0], at)
    ensures RuleSum(t, [rule]) == rule.weight
  {
    RuleSumSingle(t, rule);
    ContainsWitness(t, rule.keywords[0], at);
  }

  /** What each power rule contributes on "open transformer". */
  lemma OpenTransformerRule(t: string, k: nat)
    requires t == "open transformer" && k < 7
    ensures RuleSum(t, [PowerRules[k]]) == if k == 1 then 30 else if k == 6 then 15 else 0
  {
    var rs := PowerRules;
    if k == 0 {
      OpenTransformerQuiet(t, rs[0], [0, 0, 0, 2]);
    } else if k == 1 {
      OpenTransformerFires(t, rs[1], 0);
    } else if k == 2 {
      OpenTransformerQuiet(t, rs[2], [2, 1, 0]);
    } else if k == 3 {
      OpenTransformerQuiet(t, rs[3], [1, 0, 2]);
    } else if k == 4 {
      OpenTransformerQuiet(t, rs[4], [2, 1, 2]);
    } else if k == 5 {
      OpenTransformerQuiet(t, rs[5], [4, 1, 1]);
    } else {
      assert t[5..16] == "transformer" == rs[6].keywords[0];
      OpenTransformerFires(t, rs[6], 5);
    }
  }

  /** On "open transformer" the power rules score 4.5: the open-transformer rule
      (3.0) and the transformer rule (1.5) fire, and no other. */
  lemma OpenTransformerScore(t: string)
    requires t == "open transformer"
    ensures RuleSum(t, PowerRules) == 45
  {
    RuleSumSeven(t, PowerRules);
    forall k | 0 <= k < 7
      ensures RuleSum(t, [PowerRules[k]]) == if k == 1 then 30 else if k == 6 then 15 else 0
    {
      OpenTransformerRule(t, k);
    }
  }

  /** A description that mentions a selfie is dismissed as non-civic. */
  lemma SelfieIsNonCivic(text: string, ambiguityThreshold: int, gapThreshold: int)
    requires text == "a selfie of a person"
    ensures Classify(ParseVisionText(text), ambiguityThreshold, gapThreshold) == NonCivicResult
  {
    var p := ParseVisionText(text);
    ParseVisionCombined(text);
    var low := Lower(CombinedText(p));
    assert low[2..8] == NonCivicKeywords[0] by {
      assert forall i | 2 <= i < 8 :: low[i] == text[i];
    }
    ContainsWitness(low, NonCivicKeywords[0], 2);
  }
}
