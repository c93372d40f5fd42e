/**
  What the authority registry guarantees (backend/app/authorities.py): lookups
  by id, the level filter, where every routing answer points, and the shape of
  the escalation forest.
 */
module AuthorityFacts {
  import opened Wrappers
  import opened Strings
  import opened Authorities

  // ----- Lookup by id -----

  /** No two authorities share an id. */
  lemma IdsUnique()
    ensures forall i, j :: 0 <= i < j < |AuthoritiesDb| ==> AuthoritiesDb[i].id != AuthoritiesDb[j].id
  {
  }

  /** In a table with unique ids, looking up an entry's id finds that entry. */
  lemma FindByOwnId(db: seq<Authority>, i: nat)
    requires forall j, k :: 0 <= j < k < |db| ==> db[j].id != db[k].id
    requires i < |db|
    ensures FindIn(db, db[i].id) == Some(db[i])
  {
    var r := FindIn(db, db[i].id);
    var k :| 0 <= k < |db| && db[k] == r.value && r.value.id == db[i].id
             && forall j :: 0 <= j < k ==> db[j].id != db[i].id;
  }

  /** `get_authority_by_id` returns the authority with the given id, and `None`
      exactly when no authority has it. */
  lemma GetAuthorityByIdSpec(authId: string)
    ensures GetAuthorityById(authId).None? <==> forall i :: 0 <= i < |AuthoritiesDb| ==> AuthoritiesDb[i].id != authId
    ensures forall i :: 0 <= i < |AuthoritiesDb| && AuthoritiesDb[i].id == authId ==>
              GetAuthorityById(authId) == Some(AuthoritiesDb[i])
  {
    IdsUnique();
    forall i | 0 <= i < |AuthoritiesDb| && AuthoritiesDb[i].id == authId
      ensures GetAuthorityById(authId) == Some(AuthoritiesDb[i])
    {
      FindByOwnId(AuthoritiesDb, i);
    }
  }

  // ----- Filter by level -----

  /** Filtering distributes over concatenation, so it keeps table order. */
  lemma {:induction false} FilterLevelAppend(a: seq<Authority>, b: seq<Authority>, level: AuthorityLevel)
    ensures FilterLevel(a + b, level) == FilterLevel(a, level) + FilterLevel(b, level)
  {
    if a == [] {
      assert a + b == b;
    } else {
      assert (a + b)[1..] == a[1..] + b;
      FilterLevelAppend(a[1..], b, level);
    }
  }

  // ----- Where routing points -----

  /** The ids of the ten authorities that routing can answer: all but the apex. */
  function RoutableIds(): (r: set<string>)
    ensures forall i :: 0 <= i < 10 ==> AuthoritiesDb[i].id in r
  {
    set i | 0 <= i < 10 :: AuthoritiesDb[i].id
  }

  /** Every value of the label map is a routable id. */
  lemma MapTargetsRoutable()
    ensures forall l :: l in ClassifierToAuthority ==> ClassifierToAuthority[l] in RoutableIds()
  {
    var db := AuthoritiesDb;
    forall l | l in ClassifierToAuthority ensures ClassifierToAuthority[l] in RoutableIds() {
      assert ClassifierToAuthority[l] in {db[0].id, db[1].id, db[2].id, db[3].id, db[4].id,
                                         db[5].id, db[6].id, db[7].id, db[8].id, db[9].id};
    }
  }

  /** Every routable id names an authority with a parent. */
  lemma RoutableResolve(authId: string)
    requires authId in RoutableIds()
    ensures GetAuthorityById(authId).Some? && GetAuthorityById(authId).value.parentId.Some?
  {
    var i :| 0 <= i < 10 && AuthoritiesDb[i].id == authId;
    IdsUnique();
    FindByOwnId(AuthoritiesDb, i);
    RoutableHaveParents();
  }

  /** Every authority but the apex has a parent. */
  lemma RoutableHaveParents()
    ensures forall i :: 0 <= i < 10 ==> AuthoritiesDb[i].parentId.Some?
  {
  }

  /** Every rung of the keyword ladder names a routable id. */
  lemma LadderTargetsRoutable()
    ensures forall k :: 0 <= k < |KeywordLadder| ==> KeywordLadder[k].1 in RoutableIds()
    ensures "POLICE_TRAFFIC" in RoutableIds() && "POLICE_LOCAL" in RoutableIds()
  {
    var db := AuthoritiesDb;
    assert "POLICE_TRAFFIC" == db[9].id && "POLICE_LOCAL" == db[8].id;
    forall k | 0 <= k < |KeywordLadder| ensures KeywordLadder[k].1 in RoutableIds() {
      assert KeywordLadder[k].1 in {db[0].id, db[1].id, db[2].id, db[3].id, db[4].id,
                                    db[5].id, db[6].id, db[7].id};
    }
  }

  /** Every value of the label map is the id of an authority with a parent. */
  lemma MapTargetsExist()
    ensures forall l :: l in ClassifierToAuthority ==>
              GetAuthorityById(ClassifierToAuthority[l]).Some?
              && GetAuthorityById(ClassifierToAuthority[l]).value.parentId.Some?
  {
    MapTargetsRoutable();
    forall l | l in ClassifierToAuthority
      ensures GetAuthorityById(ClassifierToAuthority[l]).Some?
              && GetAuthorityById(ClassifierToAuthority[l]).value.parentId.Some?
    {
      RoutableResolve(ClassifierToAuthority[l]);
    }
  }

  /** The keyword ladder only ever answers a routable id. */
  lemma KeywordTargetsRoutable(ds: string)
    ensures KeywordAuthority(ds).Some? ==> KeywordAuthority(ds).value in RoutableIds()
  {
    LadderTargetsRoutable();
  }

  /** The empty string is not an id. */
  lemma RoutableNonEmpty()
    ensures "" !in RoutableIds()
  {
  }

  /** `get_authority_id_from_dept_string` only ever answers a routable id. */
  lemma ResolvedRoutable(deptString: string)
    ensures AuthorityIdFromDept(deptString).Some? ==> AuthorityIdFromDept(deptString).value in RoutableIds()
  {
    MapTargetsRoutable();
    KeywordTargetsRoutable(Lower(deptString));
  }

  /** The ladder is first-match: the first group with a keyword in the text decides. */
  lemma {:induction false} FirstGroupAt(ds: string, ladder: seq<(seq<string>, string)>, k: nat)
    requires k < |ladder| && ContainsAny(ds, ladder[k].0)
    requires forall j :: 0 <= j < k ==> !ContainsAny(ds, ladder[j].0)
    ensures FirstGroup(ds, ladder) == Some(ladder[k].1)
  {
    if k > 0 {
      assert ladder[1..][k - 1] == ladder[k];
      assert forall j :: 0 <= j < k - 1 ==> ladder[1..][j] == ladder[j + 1];
      FirstGroupAt(ds, ladder[1..], k - 1);
    }
  }

  // ----- route_authority -----

  /** A key of the map is routed to its value, as an exact match with confidence
      0.95 and that authority's parent. */
  lemma RouteExact(deptString: string)
    requires deptString in ClassifierToAuthority
    ensures var authId := ClassifierToAuthority[deptString];
            RouteAuthority(deptString)
              == Routing(Some(authId), 0.95, ExactMatch, ParentOf(authId))
  {
  }

  /** Any other label the keyword ladder resolves is a keyword match with confidence
      0.75 and the resolved authority's parent. */
  lemma RouteKeyword(deptString: string)
    requires deptString !in ClassifierToAuthority
    requires KeywordAuthority(Lower(deptString)).Some?
    ensures var authId := KeywordAuthority(Lower(deptString)).value;
            RouteAuthority(deptString)
              == Routing(Some(authId), 0.75, KeywordMatch, ParentOf(authId))
  {
  }

  /** A label neither stage resolves is unmapped: no id, confidence 0.2, no parent. */
  lemma RouteUnmapped(deptString: string)
    requires deptString !in ClassifierToAuthority
    requires KeywordAuthority(Lower(deptString)).None?
    ensures RouteAuthority(deptString) == Routing(None, 0.2, Unmapped, None)
  {
  }

  /** Whenever routing names an authority it names one that exists, and reports
      that authority's parent, which is never missing. */
  lemma RouteParent(deptString: string)
    ensures var r := RouteAuthority(deptString);
            r.authorityId.Some? ==>
              && GetAuthorityById(r.authorityId.value).Some?
              && r.escalationParentId == GetAuthorityById(r.authorityId.value).value.parentId
              && r.escalationParentId.Some?
  {
    var r := RouteAuthority(deptString);
    if r.authorityId.Some? {
      ResolvedRoutable(deptString);
      RoutableResolve(r.authorityId.value);
    }
  }

  // ----- Worked examples -----

  /** A keyword group none of whose keywords can occur in the text: each keyword
      has two adjacent characters that never occur adjacently in it. */
  lemma GroupSilent(ds: string, kws: seq<string>, idx: seq<nat>)
    requires |idx| == |kws|
    requires forall k :: 0 <= k < |idx| ==> idx[k] + 1 < |kws[k]|
    requires forall k, i :: 0 <= k < |idx| && 0 <= i < |ds| - 1 ==>
               !(ds[i] == kws[k][idx[k]] && ds[i + 1] == kws[k][idx[k] + 1])
    ensures !ContainsAny(ds, kws)
  {
    forall k | 0 <= k < |kws| ensures !Contains(ds, kws[k]) {
      NotContainsMissingPair(ds, kws[k], idx[k]);
    }
  }

  lemma TrafficLightQuiet(ds: string, k: nat)
    requires ds == "traffic light" && k < 2
    ensures !ContainsAny(ds, KeywordLadder[k].0)
  {
    if k == 0 {
      GroupSilent(ds, KeywordLadder[0].0, [1, 3, 0, 0, 2]);
    } else {
      GroupSilent(ds, KeywordLadder[1].0, [0, 0, 0, 0, 1]);
    }
  }

  /** Lowering a string without upper-case letters changes nothing. */
  lemma LowerNoUpper(s: string)
    requires forall i :: 0 <= i < |s| ==> !IsAsciiUpper(s[i])
    ensures Lower(s) == s
  {
  }

  /** The parent reported for the authority at index `i`. */
  lemma ParentAt(i: nat, authId: string)
    requires i < |AuthoritiesDb| && authId == AuthoritiesDb[i].id
    ensures ParentOf(authId) == AuthoritiesDb[i].parentId
  {
    IdsUnique();
    FindByOwnId(AuthoritiesDb, i);
  }

  lemma TrafficLightNotKey(deptString: string)
    requires deptString == "traffic light"
    ensures deptString !in ClassifierToAuthority && Lower(deptString) == deptString
  {
    LowerNoUpper(deptString);
  }

  lemma TrafficLightKeyword(ds: string)
    requires ds == "traffic light"
    ensures KeywordAuthority(ds) == Some("MUNI_LIGHTING")
  {
    TrafficLightQuiet(ds, 0);
    TrafficLightQuiet(ds, 1);
    ContainsWitness(ds, KeywordLadder[2].0[0], 8);
    FirstGroupAt(ds, KeywordLadder, 2);
  }

  /** "traffic light" mentions no sanitation or road keyword, so the lighting rung
      wins before the police rung is reached. */
  lemma RouteTrafficLight(deptString: string)
    requires deptString == "traffic light"
    ensures RouteAuthority(deptString) == Routing(Some("MUNI_LIGHTING"), 0.75, KeywordMatch, Some("UTIL_DISCOM"))
  {
    TrafficLightNotKey(deptString);
    TrafficLightKeyword(deptString);
    RouteKeyword(deptString);
    ParentAt(3, "MUNI_LIGHTING");
  }

  lemma UncategorizedQuiet(ds: string, k: nat)
    requires ds == "uncategorized" && k < |KeywordLadder|
    ensures !ContainsAny(ds, KeywordLadder[k].0)
  {
    var g := KeywordLadder[k].0;
    if k == 4 {
      GroupSilent(ds, g, [0, 1, 0, 0, 0]);
    } else if k == 0 || k == 1 || k == 3 {
      GroupSilent(ds, g, [0, 0, 0, 0, 0]);
    } else if k == 7 {
      GroupSilent(ds, g, [0, 0, 0, 0]);
    } else {
      GroupSilent(ds, g, [0, 0, 0]);
    }
  }

  lemma UncategorizedKeyword(ds: string)
    requires ds == "uncategorized"
    ensures KeywordAuthority(ds).None?
  {
    forall k | 0 <= k < |KeywordLadder| ensures !ContainsAny(ds, KeywordLadder[k].0) {
      UncategorizedQuiet(ds, k);
    }
    GroupSilent(ds, PoliceKeywords, [0, 0, 0, 0, 0]);
  }

  lemma UncategorizedNotKey(deptString: string)
    requires deptString == "Uncategorized"
    ensures deptString !in ClassifierToAuthority && Lower(deptString) == "uncategorized"
  {
  }

  /** The sentinel category has no authority: it is unmapped. */
  lemma RouteUncategorized(deptString: string)
    requires deptString == "Uncategorized"
    ensures RouteAuthority(deptString) == Routing(None, 0.2, Unmapped, None)
  {
    UncategorizedNotKey(deptString);
    UncategorizedKeyword(Lower(deptString));
    RouteUnmapped(deptString);
  }

  /** A canonical label is routed by the exact map. */
  lemma RouteSanitationExact(deptString: string)
    requires deptString == "Municipal - Sanitation"
    ensures RouteAuthority(deptString) == Routing(Some("MUNI_SANITATION"), 0.95, ExactMatch, Some("STATE_CMO"))
  {
    assert ClassifierToAuthority[deptString] == "MUNI_SANITATION";
    RouteExact(deptString);
    ParentAt(1, "MUNI_SANITATION");
  }

  lemma SanitationLowerNotKey(deptString: string)
    requires deptString == "municipal - sanitation"
    ensures deptString !in ClassifierToAuthority && Lower(deptString) == deptString
  {
    LowerNoUpper(deptString);
  }

  lemma SanitationKeyword(ds: string)
    requires ds == "municipal - sanitation"
    ensures KeywordAuthority(ds) == Some("MUNI_SANITATION")
  {
    ContainsWitness(ds, KeywordLadder[0].0[3], 12);
    FirstGroupAt(ds, KeywordLadder, 0);
  }

  /** The map is case-sensitive: the lower-cased label misses it and is caught by
      the sanitation rung instead, with the lower keyword confidence. */
  lemma RouteSanitationKeyword(deptString: string)
    requires deptString == "municipal - sanitation"
    ensures RouteAuthority(deptString) == Routing(Some("MUNI_SANITATION"), 0.75, KeywordMatch, Some("STATE_CMO"))
  {
    SanitationLowerNotKey(deptString);
    SanitationKeyword(deptString);
    RouteKeyword(deptString);
    ParentAt(1, "MUNI_SANITATION");
  }

  // ----- Parking complaints -----

  /** The ladder on a concatenation: the first part decides when it answers,
      otherwise the second part does. */
  lemma {:induction false} FirstGroupSplit(ds: string, a: seq<(seq<string>, string)>, b: seq<(seq<string>, string)>)
    ensures FirstGroup(ds, a).Some? ==> FirstGroup(ds, a + b) == FirstGroup(ds, a)
    ensures FirstGroup(ds, a).None? ==> FirstGroup(ds, a + b) == FirstGroup(ds, b)
  {
    if a == [] {
      assert a + b == b;
    } else {
      assert (a + b)[0] == a[0];
      assert (a + b)[1..] == a[1..] + b;
      FirstGroupSplit(ds, a[1..], b);
    }
  }

  lemma IllegalParkingQuiet(ds: string, k: nat)
    requires ds == "illegal parking" && k < 5
    ensures !ContainsAny(ds, KeywordLadder[k].0)
  {
    var g := KeywordLadder[k].0;
    if k == 0 {
      GroupSilent(ds, g, [2, 0, 0, 0, 0]);
    } else if k == 1 {
      GroupSilent(ds, g, [0, 0, 1, 0, 0]);
    } else if k == 2 {
      GroupSilent(ds, g, [0, 0, 0]);
    } else if k == 3 {
      GroupSilent(ds, g, [0, 0, 0, 1, 0]);
    } else {
      GroupSilent(ds, g, [0, 0, 0, 0, 0]);
    }
  }

  /** As written, the horticulture rung's `"park"` is tested before the police
      rung's `"parking"`, so an illegal-parking complaint goes to horticulture. */
  lemma IllegalParkingKeyword(ds: string)
    requires ds == "illegal parking"
    ensures KeywordAuthority(ds) == Some("MUNI_HORTICULTURE")
  {
    forall k | 0 <= k < 5 ensures !ContainsAny(ds, KeywordLadder[k].0) {
      IllegalParkingQuiet(ds, k);
    }
    ContainsWitness(ds, KeywordLadder[5].0[1], 8);
    FirstGroupAt(ds, KeywordLadder, 5);
  }

  lemma IllegalParkingNotKey(deptString: string)
    requires deptString == "illegal parking"
    ensures deptString !in ClassifierToAuthority && Lower(deptString) == deptString
  {
    LowerNoUpper(deptString);
  }

  /** Routing "illegal parking" names the horticulture department, not the local
      police whose domain lists illegal parking. */
  lemma RouteIllegalParking(deptString: string)
    requires deptString == "illegal parking"
    ensures RouteAuthority(deptString) == Routing(Some("MUNI_HORTICULTURE"), 0.75, KeywordMatch, Some("STATE_CMO"))
    ensures AuthoritiesDb[8].id == "POLICE_LOCAL" && AuthoritiesDb[8].domain == "Law & Order, Illegal Parking, Nuisance"
  {
    IllegalParkingNotKey(deptString);
    IllegalParkingKeyword(deptString);
    RouteKeyword(deptString);
    ParentAt(2, "MUNI_HORTICULTURE");
  }

  /** The corrected ladder differs from the one as written only on texts that
      mention parking. */
  lemma CorrectedLadderAgrees(ds: string)
    requires !Contains(ds, "parking")
    ensures CorrectedKeywordAuthority(ds) == KeywordAuthority(ds)
  {
    assert KeywordLadder == KeywordLadder[..5] + KeywordLadder[5..];
    FirstGroupSplit(ds, KeywordLadder[..5], KeywordLadder[5..]);
  }

  /** With the correction, "illegal parking" goes to the local police. */
  lemma CorrectedIllegalParking(ds: string)
    requires ds == "illegal parking"
    ensures CorrectedKeywordAuthority(ds) == Some("POLICE_LOCAL")
  {
    assert FirstGroup(ds, KeywordLadder[..5]).None? by {
      forall k | 0 <= k < 5 ensures !ContainsAny(ds, KeywordLadder[..5][k].0) {
        IllegalParkingQuiet(ds, k);
      }
    }
    ContainsWitness(ds, "parking", 8);
    GroupSilent(ds, TrafficKeywords, [0, 0]);
  }

  // ----- The escalation forest -----

  /** As written, both police authorities escalate to an id the table lacks, so a
      routed police complaint reports a parent that cannot be looked up. */
  lemma DanglingParent()
    ensures AuthoritiesDb[8].parentId == Some("STATE_HOME_DEPT")
    ensures AuthoritiesDb[9].parentId == Some("STATE_HOME_DEPT")
    ensures GetAuthorityById("STATE_HOME_DEPT").None?
    ensures !ParentsResolve(AuthoritiesDb)
  {
    var home := "STATE_HOME_DEPT";
    assert forall i :: 0 <= i < |AuthoritiesDb| ==> AuthoritiesDb[i].id != home;
  }

  /** Already as written, the central body is the only authority without a parent. */
  lemma SingleRoot()
    ensures forall i :: 0 <= i < |AuthoritiesDb| ==>
              (AuthoritiesDb[i].parentId.None? <==> AuthoritiesDb[i].id == "CENTRAL_DARPG")
  {
  }

  /** Adding an entry keeps every lookup that already succeeded. */
  lemma {:induction false} FindInAppend(db: seq<Authority>, extra: seq<Authority>, authId: string)
    requires FindIn(db, authId).Some?
    ensures FindIn(db + extra, authId) == FindIn(db, authId)
  {
    if db[0].id != authId {
      assert (db + extra)[1..] == db[1..] + extra;
      FindInAppend(db[1..], extra, authId);
    }
  }

  /** The corrected table keeps every lookup of the original, so routing and the
      parents it reports are the same over either table. */
  lemma CorrectedKeepsLookups(authId: string)
    requires GetAuthorityById(authId).Some?
    ensures FindIn(CorrectedAuthoritiesDb, authId) == GetAuthorityById(authId)
  {
    FindInAppend(AuthoritiesDb, [StateHomeDept], authId);
  }

  lemma CorrectedIdsUnique()
    ensures forall i, j :: 0 <= i < j < |CorrectedAuthoritiesDb| ==>
              CorrectedAuthoritiesDb[i].id != CorrectedAuthoritiesDb[j].id
  {
    IdsUnique();
    var home := StateHomeDept.id;
    assert forall i :: 0 <= i < |AuthoritiesDb| ==> AuthoritiesDb[i].id != home;
  }

  /** One parent link: reaching the root from the parent within `n` steps reaches
      it from the child within `n + 1`. */
  lemma ReachStep(db: seq<Authority>, i: nat, p: nat, root: string, n: nat)
    requires forall j, k :: 0 <= j < k < |db| ==> db[j].id != db[k].id
    requires i < |db| && p < |db| && db[i].parentId == Some(db[p].id)
    requires ReachesWithin(db, db[p].id, root, n)
    ensures ReachesWithin(db, db[i].id, root, n + 1)
  {
    FindByOwnId(db, i);
  }

  /** A bound that suffices suffices when raised. */
  lemma {:induction false} ReachMonotone(db: seq<Authority>, authId: string, root: string, n: nat)
    requires ReachesWithin(db, authId, root, n)
    ensures ReachesWithin(db, authId, root, n + 1)
    decreases n
  {
    if authId != root {
      var a := FindIn(db, authId).value;
      ReachMonotone(db, a.parentId.value, root, n - 1);
    }
  }

  /** In the corrected table every parent link names one of four authorities:
      the power company, the chief minister's office, the central
      body or the home department. */
  lemma CorrectedParentTargets()
    ensures var db := CorrectedAuthoritiesDb;
            forall i :: 0 <= i < |db| && db[i].parentId.Some? ==>
              db[i].parentId.value in {db[5].id, db[10].id, db[11].id, db[12].id}
  {
  }

  /** The corrected table is a forest rooted at the central body: every parent
      resolves ... */
  lemma CorrectedParentsResolve()
    ensures ParentsResolve(CorrectedAuthoritiesDb)
  {
    var db := CorrectedAuthoritiesDb;
    CorrectedParentTargets();
    CorrectedFind(5);
    CorrectedFind(10);
    CorrectedFind(11);
    CorrectedFind(12);
    forall i | 0 <= i < |db| && db[i].parentId.Some? ensures FindIn(db, db[i].parentId.value).Some? {
      var p := db[i].parentId.value;
      assert p == db[5].id || p == db[10].id || p == db[11].id || p == db[12].id;
    }
  }

  lemma CorrectedFind(i: nat)
    requires i < |CorrectedAuthoritiesDb|
    ensures FindIn(CorrectedAuthoritiesDb, CorrectedAuthoritiesDb[i].id) == Some(CorrectedAuthoritiesDb[i])
  {
    CorrectedIdsUnique();
    FindByOwnId(CorrectedAuthoritiesDb, i);
  }

  /** ... the central body is the only authority without a parent ... */
  lemma CorrectedSingleRoot()
    ensures forall i :: 0 <= i < |CorrectedAuthoritiesDb| ==>
              (CorrectedAuthoritiesDb[i].parentId.None? <==> CorrectedAuthoritiesDb[i].id == "CENTRAL_DARPG")
  {
  }

  /** The authorities one link below the root. */
  lemma CorrectedDepthOne(root: string)
    requires root == "CENTRAL_DARPG"
    ensures var db := CorrectedAuthoritiesDb;
            ReachesWithin(db, db[7].id, root, 1) && ReachesWithin(db, db[10].id, root, 1)
            && ReachesWithin(db, db[12].id, root, 1)
  {
    var db := CorrectedAuthoritiesDb;
    CorrectedIdsUnique();
    assert ReachesWithin(db, db[11].id, root, 0);
    ReachStep(db, 7, 11, root, 0);
    ReachStep(db, 10, 11, root, 0);
    ReachStep(db, 12, 11, root, 0);
  }

  /** The authorities two links below the root. */
  lemma CorrectedDepthTwo(root: string, i: nat)
    requires root == "CENTRAL_DARPG"
    requires i in {0, 1, 2, 4, 5, 6, 8, 9}
    ensures ReachesWithin(CorrectedAuthoritiesDb, CorrectedAuthoritiesDb[i].id, root, 2)
  {
    var db := CorrectedAuthoritiesDb;
    CorrectedIdsUnique();
    CorrectedDepthOne(root);
    if i == 8 || i == 9 {
      ReachStep(db, i, 12, root, 1);
    } else {
      ReachStep(db, i, 10, root, 1);
    }
  }

  /** ... and from every authority the parent links reach it in at most three
      steps, so there is no cycle. */
  lemma CorrectedChain(i: nat)
    requires i < |CorrectedAuthoritiesDb|
    ensures ReachesWithin(CorrectedAuthoritiesDb, CorrectedAuthoritiesDb[i].id, "CENTRAL_DARPG", 3)
  {
    var db := CorrectedAuthoritiesDb;
    var root := "CENTRAL_DARPG";
    if i == 3 {
      CorrectedIdsUnique();
      CorrectedDepthTwo(root, 5);
      ReachStep(db, 3, 5, root, 2);
    } else if i == 7 || i == 10 || i == 12 {
      CorrectedDepthOne(root);
      ReachMonotone(db, db[i].id, root, 1);
      ReachMonotone(db, db[i].id, root, 2);
    } else if i == 11 {
      assert db[11].id == root;
    } else {
      CorrectedDepthTwo(root, i);
      ReachMonotone(db, db[i].id, root, 2);
    }
  }

  lemma CorrectedChains()
    ensures forall i :: 0 <= i < |CorrectedAuthoritiesDb| ==>
              ReachesWithin(CorrectedAuthoritiesDb, CorrectedAuthoritiesDb[i].id, "CENTRAL_DARPG", 3)
  {
    forall i | 0 <= i < |CorrectedAuthoritiesDb|
      ensures ReachesWithin(CorrectedAuthoritiesDb, CorrectedAuthoritiesDb[i].id, "CENTRAL_DARPG", 3)
    {
      CorrectedChain(i);
    }
  }
}
