# Civic-issue decision core, modelled in Dafny

This project models the deterministic decision core of a civic-complaint
triage backend. The core has three parts.

- **Category registry** (`backend/app/category_utils.py`). This is the closed
  set of eleven canonical categories, with `"Uncategorized"` as the sentinel.
  - `canonicalize_label` maps a label to a category. It normalises the text
    (strip, lower-case, underscores to spaces, whitespace runs collapsed), tries
    an exact alias lookup, then scans the aliases in table order for the first
    one that is a substring of the label or has the label as a substring, and
    falls back to the sentinel.
  - `labels_match` compares two labels by their canonical images.
  - `safe_dirname` and `folder_to_label` form the folder-name round trip used
    for dataset directories.
- **Weighted rule scorer** (`backend/app/rule_engine.py`).
  - The text fields of a vision payload are joined into one text.
  - Text that names a non-civic subject is rejected outright.
  - Otherwise every category is scored. Each `(keywords, weight)` rule adds its
    weight once when any of its keywords occurs in the lower-cased text.
  - The categories are ranked by a stable sort on descending score.
  - The result is a category, a confidence, an ambiguity flag, the score table
    and the method that decided.
  - `parse_vision_text_to_payload` wraps plain text as a payload.
- **Authority registry and routing** (`backend/app/authorities.py`).
  - A table of twelve authorities, each with an escalation parent except
    the national apex body `CENTRAL_DARPG`.
  - Lookup of an authority by id, and filtering by level.
  - An exact classifier-label map, then a first-match ladder of keyword tests
    on the lower-cased label.
  - `route_authority` returns the chosen id, a confidence, a reason and the
    chosen authority's escalation parent.

## Modules

- `Wrappers`: `Option`.
- `Strings`: the parts of Python's `str` the core uses. These are `strip`,
  `lower`, `replace`, `re.sub(r"\s+", " ", …)`, `join` and `in`.
- `CategoryUtils` and `CategoryFacts`: the registry, and what is proved about it.
- `RuleEngine` and `RuleFacts`: the scorer, and what is proved about it.
- `Authorities` and `AuthorityFacts`: the authority table and routing, and what
  is proved about them.

## Modelling choices

- **Pure code is modelled as functions.** The category registry, the ranking,
  the branch logic of `classify_by_rules` and the whole authority module are
  pure in the source. They are functions over `string`, `seq` and `map`.
- **Loops are modelled as methods.** `_score_text` and the score-table loop of
  `classify_by_rules` are the only loops that update variables.
  - The method `RuleEngine.ScoreText` is proved equal to the recursive sum
    `RuleSum`.
  - The method `RuleEngine.ClassifyByRules` is proved equal to the function
    `Classify`.
- **Scores are whole tenths.** Every weight and threshold in the source is a
  multiple of 0.1, so scores are natural numbers of tenths:
  - a weight of 3.0 is 30;
  - the default thresholds 2.0 and 1.0 are 20 and 10;
  - `top_score / 6.0` is `top / 60`.
- **Confidences are exact reals.** They are `real` values.
- **Dictionaries become sequences when order matters.** `_CATEGORY_RULES` and
  `_ALIAS_TO_CANONICAL` are iterated in insertion order, so they are sequences
  of pairs in source order. Lookups in them are first-match searches.
- **Python's `sorted` is modelled as a stable insertion sort** on descending
  score. Any stable sort gives the same order, so ties keep table order.
- **The payload dictionary is a datatype of `Option` fields.**
  - A missing key is `None`.
  - `.get(key, default)` is `GetOr`.
- **Default arguments stay default arguments.** `Classify` and
  `ClassifyByRules` default the thresholds to 20 and 10 tenths (2.0 and 1.0).
  An `Authority` defaults to 21 escalation days and no parent, as the
  dataclass does.
- **`lower()` folds ASCII letters only.**
- **`strip()` and `\s` use Python's whitespace set.**
- **`_normalize` is not idempotent.** It strips before it turns underscores into
  spaces, so `"_a"` normalises to `" a"`, and `" a"` normalises to `"a"`.
  `canonicalize_label` is idempotent all the same (`CanonicalizeIdempotent`).

Where a property one might expect does not hold, the model follows the code.

- **The empty label is not `"Uncategorized"`.** `""`, and every label made only
  of whitespace and underscores, canonicalises to `"Municipal - PWD (Roads)"`.
  The reason is that the empty string is a substring of the first alias
  (`BlankLabel`).
- **The sentinel is not only the no-match fallback.** The substring scan
  visits the alias `"uncategorized"` last. A label that is a fragment of that
  word (for example `"cat"`) reaches `"Uncategorized"` through the scan. So the
  sentinel means "no alias *other than the last* qualifies"
  (`CanonicalizeScanUncategorized`). It does not mean "no alias qualifies".
- **`"illegal parking"` goes to horticulture.** The horticulture rung tests
  `"park"` before the police rung tests `"parking"` (see Findings).
- **`"open transformer"` scores 4.5, not 3.0.** It fires both the
  `"open transformer"` rule and the plain `"transformer"` rule of the power
  category (`OpenTransformerScore`, stated as 45 tenths).

## Model

| member | source | states |
|---|---|---|
| `CategoryUtils.Normalize` | backend/app/category_utils.py:78-81 | the normalised text has no underscore and no upper-case letter; its only whitespace is single spaces; no two whitespace characters are adjacent |
| `CategoryUtils.LookupAlias` | backend/app/category_utils.py:64-65 | the alias lookup finds nothing exactly when no key equals the text; what it finds is the value of a key equal to the text |
| `CategoryUtils.ScanAliases` | backend/app/category_utils.py:67-71 | the substring scan returns the sentinel or the canonical value of some alias of the table |
| `CategoryUtils.Resolve` | backend/app/category_utils.py:63-71 | lookup then scan returns the sentinel or a value of the table |
| `CategoryUtils.Canonicalize` | backend/app/category_utils.py:62-71 | `canonicalize_label` always returns one of the canonical categories |
| `CategoryUtils.SafeDirname` | backend/app/category_utils.py:52-53 | a folder name has no space, `(`, `)` or `&` |
| `CategoryUtils.FolderToLabel` | backend/app/category_utils.py:56-59 | `folder_to_label` always returns a canonical category, whether through the folder table or through canonicalisation |
| `CategoryUtils.AliasValuesCanonical` | backend/app/category_utils.py:6-35 | every alias maps to a canonical category |
| `CategoryUtils.FolderTableCanonical` | backend/app/category_utils.py:37-49 | every folder name of the table maps to a canonical category |
| `CategoryFacts.AliasTableWellFormed` | backend/app/category_utils.py:20-35 | the alias keys are distinct; every value is canonical; only the last alias maps to the sentinel |
| `CategoryFacts.LookupAliasAt` | backend/app/category_utils.py:64-65 | the lookup returns the value of the first key equal to the text |
| `CategoryFacts.ScanFirstMatch` | backend/app/category_utils.py:67-69 | the scan returns the value of the first alias, in table order, that qualifies in either direction |
| `CategoryFacts.ScanNoMatch` | backend/app/category_utils.py:67-71 | when no alias qualifies, the scan falls back to the sentinel |
| `CategoryFacts.ScanUncategorizedIff` | backend/app/category_utils.py:67-71 | over a table whose last entry alone maps to the sentinel, the scan gives the sentinel exactly when none of the other aliases qualifies |
| `CategoryFacts.CanonicalizeExactAlias` | backend/app/category_utils.py:62-65 | a label whose normalised form is an alias key gets that alias's value, with no scan |
| `CategoryFacts.CanonicalizeFirstQualifying` | backend/app/category_utils.py:62-69 | a label whose normalised form is no key gets the value of the first qualifying alias |
| `CategoryFacts.CanonicalizeNoQualifying` | backend/app/category_utils.py:67-71 | a label for which no alias qualifies gets the sentinel |
| `CategoryFacts.CanonicalizeScanUncategorized` | backend/app/category_utils.py:62-71 | off the exact-match path, the result is the sentinel exactly when no alias before the last qualifies |
| `CategoryFacts.NormalizeClean` | backend/app/category_utils.py:78-81 | a text already trimmed, without underscores, and with single spaces only, normalises to its lower-case form |
| `CategoryFacts.NormalizeKeepsText` | backend/app/category_utils.py:78-81 | normalising changes only case, whitespace and underscores: its non-whitespace characters are those of the input, lower-cased, with underscores read as spaces |
| `CategoryFacts.CanonicalFixedPoint` | backend/app/category_utils.py:20-65 | every canonical category canonicalises to itself |
| `CategoryFacts.CanonicalizeIdempotent` | backend/app/category_utils.py:62-71 | canonicalising twice gives the same as canonicalising once |
| `CategoryFacts.BlankNormalize` | backend/app/category_utils.py:78-81 | a label of whitespace and underscores only normalises to `""` or `" "` |
| `CategoryFacts.BlankLabel` | backend/app/category_utils.py:62-81 | an empty, whitespace-only or underscore-only label canonicalises to `"Municipal - PWD (Roads)"` |
| `CategoryFacts.LabelsMatchEquivalence` | backend/app/category_utils.py:74-75 | `labels_match` is reflexive, symmetric and transitive, and every label matches its canonical form |
| `CategoryFacts.SafeDirnameAppend` | backend/app/category_utils.py:52-53 | the folder name of a concatenation is the concatenation of the folder names |
| `CategoryFacts.SafeDirnamePlain` | backend/app/category_utils.py:52-53 | on a label with no parenthesis and no `&`, the folder name only turns spaces into underscores |
| `CategoryFacts.SafeDirnameParens` | backend/app/category_utils.py:52-53 | a parenthesised suffix loses its parentheses |
| `CategoryFacts.SafeDirnameAmpersand` | backend/app/category_utils.py:52-53 | `&` is spelled `and` |
| `CategoryFacts.SafeDirnameRoundTrip` | backend/app/category_utils.py:37-59 | the folder name of every canonical category is a key of the folder table, and `folder_to_label` of it gives the category back |
| `RuleEngine.FiredRules` | backend/app/rule_engine.py:124-125 | the rules kept are exactly the rules of the list that have a keyword in the text: each kept rule fires, and each rule that fires is kept |
| `RuleEngine.RuleSum` | backend/app/rule_engine.py:120-127 | the score never exceeds the total weight of the rules |
| `RuleEngine.ScoreText` | backend/app/rule_engine.py:120-127 | the accumulating loop of `_score_text` computes the rule sum of the lower-cased text |
| `RuleEngine.ParseVisionText` | backend/app/rule_engine.py:211-222 | the payload's description is the text, and every other field is empty |
| `RuleEngine.Insert` | backend/app/rule_engine.py:178 | one step of the stable sort keeps the elements and keeps a sorted list sorted |
| `RuleEngine.Rank` | backend/app/rule_engine.py:178 | the ranking is a permutation of the score table, sorted by descending score |
| `RuleEngine.FirstMax` | backend/app/rule_engine.py:178-179 | the winner has the highest score, and every category before it scores strictly less |
| `RuleEngine.RankHead` | backend/app/rule_engine.py:178-179 | the head of the stable ranking is the first category with the highest score, so ties go to table order |
| `RuleEngine.Confidence` | backend/app/rule_engine.py:196-200 | a positive top score gives a confidence in (0, 1] and at most `top / 6`; it is exactly 1 when the top reaches 6.0 and the gap is not narrow with a runner-up present |
| `RuleEngine.Decide` | backend/app/rule_engine.py:178-208 | the score table is returned unchanged; "no match" happens exactly when every score is 0 and gives the sentinel, confidence 0.1 and the ambiguous flag; otherwise the winner is the first top scorer and the confidence lies in (0, 1] |
| `RuleEngine.ClassifyByRules` | backend/app/rule_engine.py:130-208 | the method, with its score-table loop, returns what the specification function `Classify` gives |
| `RuleFacts.RuleSumFired` | backend/app/rule_engine.py:124-126 | the score is the sum of the weights of the rules that fire, each counted once |
| `RuleFacts.RuleSumAppend` | backend/app/rule_engine.py:124-126 | scoring is additive over rule lists |
| `RuleFacts.RuleSumZeroIff` | backend/app/rule_engine.py:120-127 | with positive weights, the score is 0 exactly when no rule fires |
| `RuleFacts.RuleSumAllFire` | backend/app/rule_engine.py:124-126 | when every rule fires, the score is the total weight |
| `RuleFacts.RuleSumMonotone` | backend/app/rule_engine.py:120-127 | a text that contains another scores at least as much |
| `RuleFacts.RankRunnerUp` | backend/app/rule_engine.py:178-180 | the runner-up score is the highest score among the categories other than the winner, and some such category has it |
| `RuleFacts.CategoryKeysCanonical` | backend/app/rule_engine.py:28-110 | the rule table has ten distinct keys, all canonical categories other than the sentinel |
| `RuleFacts.CategoryWeightsPositive` | backend/app/rule_engine.py:28-110 | every rule weight is positive |
| `RuleFacts.DecideMatch` | backend/app/rule_engine.py:183-205 | with a winner, the ambiguity flag is exactly "top below the threshold or gap below the gap threshold", and the confidence is `min(top/6, 1)`, times 0.7 exactly when the gap is below the gap threshold |
| `RuleFacts.ClassifyNonCivic` | backend/app/rule_engine.py:161-170 | the non-civic answer is given exactly when the lower-cased text holds a non-civic keyword; it is the sentinel, confidence 0.85, not ambiguous, with empty scores |
| `RuleFacts.ClassifyScores` | backend/app/rule_engine.py:172-175 | otherwise the scores hold one entry per category of the rule table, in table order, each the rule sum for that category |
| `RuleFacts.ClassifyWinner` | backend/app/rule_engine.py:178-207 | a matched category has the highest score, and every earlier category scores strictly less |
| `RuleFacts.ClassifyNoMatch` | backend/app/rule_engine.py:186-193 | outside the non-civic case, "no match" happens exactly when no rule of any category fires; it gives the sentinel, confidence 0.1 and the ambiguous flag |
| `RuleFacts.ClassifyAmbiguity` | backend/app/rule_engine.py:183-184 | for a payload that matches, the ambiguity flag is exactly "top below the threshold or gap to the runner-up below the gap threshold" |
| `RuleFacts.ClassifyCanonical` | backend/app/rule_engine.py:161-208 | the category returned is always canonical |
| `RuleFacts.ParseVisionCombined` | backend/app/rule_engine.py:211-222 | the combined text of a wrapped plain text is that text followed by the four field separators |
| `RuleFacts.JoinHas` | backend/app/rule_engine.py:155 | a space-joined list contains each of its items |
| `RuleFacts.CombinedTextHasFields` | backend/app/rule_engine.py:154-159 | the combined text contains the description, the primary and secondary issue, every visible object and every hazard |
| `RuleFacts.OpenTransformerScore` | backend/app/rule_engine.py:75-83 | `"open transformer"` scores 4.5 against the power rules, because both the `"open transformer"` rule and the `"transformer"` rule fire |
| `RuleFacts.SelfieIsNonCivic` | backend/app/rule_engine.py:113-170 | the plain text "a selfie of a person" gets the non-civic answer |
| `Authorities.FindIn` | backend/app/authorities.py:125-129 | the search returns nothing exactly when no id matches; what it returns has the id, and no earlier entry has it |
| `Authorities.FilterLevel` | backend/app/authorities.py:131-132 | an authority is in the result exactly when it is in the table at that level |
| `Authorities.ExactAuthority` | backend/app/authorities.py:169-173 | the exact match answers exactly when the label is a key of the map (case-sensitive), and then answers that key's id |
| `Authorities.FirstGroup` | backend/app/authorities.py:176-208 | the ladder answers nothing exactly when no group's keywords occur; otherwise it answers the target of the first group that matches |
| `Authorities.KeywordAuthority` | backend/app/authorities.py:176-216 | the keyword fallback answers nothing exactly when no ladder group and no police keyword matches; a matching ladder group decides; otherwise a police keyword gives `POLICE_TRAFFIC` when `traffic` or `signal` occurs and `POLICE_LOCAL` when not |
| `Authorities.AuthorityIdFromDept` | backend/app/authorities.py:169-216 | a label that is a key of the map resolves to that key's id; any other label resolves by the keyword fallback on its lower-cased form |
| `Authorities.CorrectedKeywordAuthority` | backend/app/authorities.py:198-214 | with the police test for `parking` moved ahead of the horticulture rung, a text that mentions parking always gets an authority and never horticulture |
| `Authorities.ParentOf` | backend/app/authorities.py:219-237 | the parent of an unknown id is absent; a parent reported is the parent of an authority of the table with that id |
| `AuthorityFacts.ParentAt` | backend/app/authorities.py:233-237 | the parent reported for the id of the table's i-th authority is that authority's parent |
| `Authorities.RouteAuthority` | backend/app/authorities.py:219-237 | the reason is exact when the map matches and unmapped exactly when no id is chosen; the id is the one the resolver gives; the parent is the chosen authority's; the confidence is 0.95, 0.75 or 0.2 by reason |
| `AuthorityFacts.IdsUnique` | backend/app/authorities.py:20-123 | no two authorities share an id |
| `AuthorityFacts.FindByOwnId` | backend/app/authorities.py:125-129 | in a table with unique ids, looking up an entry's id finds that entry |
| `AuthorityFacts.GetAuthorityByIdSpec` | backend/app/authorities.py:20-129 | the lookup fails exactly when no authority has the id, and otherwise returns the authority with that id |
| `AuthorityFacts.FilterLevelAppend` | backend/app/authorities.py:131-132 | the level filter keeps table order: filtering a concatenation concatenates the filtered parts |
| `AuthorityFacts.MapTargetsExist` | backend/app/authorities.py:135-167 | every value of the classifier map is the id of an authority in the table, and that authority has a parent |
| `AuthorityFacts.LadderTargetsRoutable` | backend/app/authorities.py:176-216 | every target of the keyword ladder, and both police targets, names one of the ten authorities below the apex level |
| `AuthorityFacts.KeywordTargetsRoutable` | backend/app/authorities.py:176-216 | whatever the keyword fallback answers names such an authority |
| `AuthorityFacts.ResolvedRoutable` | backend/app/authorities.py:169-216 | every id the resolver returns names one of those authorities |
| `AuthorityFacts.FirstGroupAt` | backend/app/authorities.py:176-208 | the first group that matches decides the ladder's answer |
| `AuthorityFacts.RouteExact` | backend/app/authorities.py:219-228 | a label that is a key of the map routes to its id with reason `exact_match`, confidence 0.95 and that authority's parent |
| `AuthorityFacts.RouteKeyword` | backend/app/authorities.py:230-237 | a label that is no key but is resolved by keywords routes with reason `keyword_match` and confidence 0.75 |
| `AuthorityFacts.RouteUnmapped` | backend/app/authorities.py:230-237 | an unresolved label routes to no id, reason `unmapped`, confidence 0.2 and no parent |
| `AuthorityFacts.RouteParent` | backend/app/authorities.py:219-237 | whenever an id is chosen, it names an existing authority, and the escalation parent is that authority's parent and is present |
| `AuthorityFacts.RouteTrafficLight` | backend/app/authorities.py:176-188 | "traffic light" reaches the lighting test before the police test, so it routes to `MUNI_LIGHTING` by keyword, with parent `UTIL_DISCOM` |
| `AuthorityFacts.FirstGroupSplit` | backend/app/authorities.py:176-208 | on a ladder split in two, the first part decides when it answers, and the second part otherwise |
| `AuthorityFacts.IllegalParkingKeyword` | backend/app/authorities.py:198-200 | on `"illegal parking"` no rung before horticulture matches and `"park"` does, so the keyword fallback answers `MUNI_HORTICULTURE` |
| `AuthorityFacts.RouteIllegalParking` | backend/app/authorities.py:176-237 | `"illegal parking"` routes by keyword to `MUNI_HORTICULTURE` with parent `STATE_CMO`, while `POLICE_LOCAL`'s domain names illegal parking |
| `AuthorityFacts.CorrectedLadderAgrees` | backend/app/authorities.py:176-216 | on every text that does not mention parking, the corrected fallback answers as the one as written |
| `AuthorityFacts.CorrectedIllegalParking` | backend/app/authorities.py:210-214 | with the correction, `"illegal parking"` goes to `POLICE_LOCAL` |
| `AuthorityFacts.RouteUncategorized` | backend/app/authorities.py:169-237 | `"Uncategorized"` is unmapped |
| `AuthorityFacts.RouteSanitationExact` | backend/app/authorities.py:219-228 | `"Municipal - Sanitation"` routes exactly to `MUNI_SANITATION`, with parent `STATE_CMO` |
| `AuthorityFacts.RouteSanitationKeyword` | backend/app/authorities.py:176-237 | the lower-case spelling is no key of the map, and reaches `MUNI_SANITATION` by keyword with confidence 0.75 |
| `AuthorityFacts.DanglingParent` | backend/app/authorities.py:90-105 | the two police authorities name `STATE_HOME_DEPT` as their parent, no authority has that id, and so not every parent resolves |
| `AuthorityFacts.SingleRoot` | backend/app/authorities.py:116-122 | in the table as written, `CENTRAL_DARPG` is the only authority without a parent |
| `AuthorityFacts.CorrectedKeepsLookups` | backend/app/authorities.py:125-129 | the corrected table answers every lookup the original answers, in the same way |
| `AuthorityFacts.CorrectedIdsUnique` | backend/app/authorities.py:20-123 | the ids of the corrected table are distinct |
| `AuthorityFacts.CorrectedParentsResolve` | backend/app/authorities.py:20-123 | in the corrected table every parent names an existing authority |
| `AuthorityFacts.CorrectedSingleRoot` | backend/app/authorities.py:116-122 | in the corrected table `CENTRAL_DARPG` is the only authority without a parent |
| `AuthorityFacts.ReachMonotone` | backend/app/authorities.py:17 | a chain that reaches the root within n steps also reaches it within n + 1 |
| `AuthorityFacts.CorrectedChains` | backend/app/authorities.py:20-123 | in the corrected table, following parents from any authority reaches `CENTRAL_DARPG` in at most three steps, so the links form a tree |

## Left out

- Image classification, calls to the language-model server, the job queue,
  HTTP routes, persistence, authentication, upload validation, geotagging,
  configuration and the dataset scripts are not part of this model. They are
  foreign calls, I/O or concurrency.
- The fusion pipeline is not modelled: the reasoning-model merge, the
  description keyword fallback, the validity gate and any escalation step.
  No code for them appears in the three modelled files.
- `round(raw_confidence, 3)` is not modelled. Confidences are exact reals, and
  IEEE floating point is not modelled.
- Payload values are assumed to be strings and lists of strings. The
  `str(...)` coercion of other value types is not modelled. Neither is a key
  that is present with the value `None`, which Python would turn into the text `"None"` or reject.
- `lower()` and `strip()` work on ASCII letters and Python's whitespace set.
  Unicode case folding is not modelled.
- `Authority.name`, `domain` and `escalation_days` are carried as data. No
  operation of the core reads them, so nothing is proved about them.
- The `AuthorityLevel` names are carried as data (`AuthorityLevel.Value`).
  Nothing is proved about them.
- `Classify` is the specification function behind `ClassifyByRules`. It has
  no contract of its own: its properties are the `RuleFacts.Classify*` lemmas.
- `RuleFacts.ClassifyAmbiguity`: states the ambiguity flag for a payload but
  not the confidence. The confidence for a payload follows by combining
  `RuleFacts.DecideMatch` with the score table of `RuleFacts.ClassifyScores`.
  A single lemma joining them is too expensive for the verifier.
- `Authorities.GetAuthoritiesByLevel`: its order is stated through
  `AuthorityFacts.FilterLevelAppend` and the membership contract of
  `FilterLevel`. Which authorities each level holds is not enumerated.
- `CategoryFacts.CanonicalizeScanUncategorized`: does not claim "the sentinel
  only when no alias qualifies". That claim is false, because the alias
  `"uncategorized"` can itself qualify in the scan.
- The property "every parent names an existing authority" does not hold for
  the table as written (see Findings). The forest properties are therefore
  proved for the corrected table.
- The corrected table is used for the forest properties only. Routing keeps
  the table as written, and `CorrectedKeepsLookups` shows this changes no
  lookup the original answers.
- Routing also keeps the keyword ladder as written, so `RouteAuthority` sends
  `"illegal parking"` to horticulture. `CorrectedKeywordAuthority` is stated
  beside it and is not wired into routing.
- `Authorities.ParentOf`: does not state in its own contract that a reported
  parent is present for every id the resolver returns. That fact needs the
  whole table and is proved separately, as `AuthorityFacts.RouteParent` and
  `AuthorityFacts.ResolvedRoutable`.

## Findings

| source | as written | input that shows it | evidently intended | confidence | as-written member | corrected member |
|---|---|---|---|---|---|---|
| backend/app/authorities.py:96-104 | `POLICE_LOCAL` and `POLICE_TRAFFIC` name `STATE_HOME_DEPT` as their escalation parent, but no authority in the table has that id | routing `"Police - Traffic"` gives the parent `"STATE_HOME_DEPT"`, and `get_authority_by_id("STATE_HOME_DEPT")` returns `None`, so escalation stops there | every parent names an authority of the table, and every chain ends at `CENTRAL_DARPG` | not executed | `AuthorityFacts.DanglingParent` | `AuthorityFacts.CorrectedParentsResolve` |
| backend/app/authorities.py:198-214 | the horticulture rung tests `"park"` before the police rung tests `"parking"`, so `"park"` catches every parking complaint | `"illegal parking"` routes to `MUNI_HORTICULTURE`, although `POLICE_LOCAL`'s domain (authorities.py line 94) is "Law & Order, Illegal Parking, Nuisance" | parking complaints go to the police | not executed | `AuthorityFacts.RouteIllegalParking` | `AuthorityFacts.CorrectedIllegalParking` |

The corrected table, `Authorities.CorrectedAuthoritiesDb`, adds a
`STATE_HOME_DEPT` entry whose parent is `CENTRAL_DARPG`. Its name, domain and
escalation days are placeholders, because the source gives none. For this
table, `CorrectedIdsUnique`, `CorrectedSingleRoot` and `CorrectedChains` prove
the rest of the intended forest: ids are unique, there is one root, and every
chain reaches the root within three steps.

The corrected keyword fallback, `Authorities.CorrectedKeywordAuthority`, tests
`"parking"` (with the police traffic/local split) right after the power rung.
It never sends a parking complaint to horticulture, and
`CorrectedLadderAgrees` proves it answers like the original on every text that
does not mention parking.
