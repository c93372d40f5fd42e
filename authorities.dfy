/**
  The authority registry and the routing of a department label to the authority
  that handles it (backend/app/authorities.py): a fixed table of authorities with
  parent links for escalation, an exact label map, a first-match keyword ladder,
  and `route_authority`.
 */
module Authorities {
  import opened Wrappers
  import opened Strings

  /** `AuthorityLevel`, with its string value. */
  datatype AuthorityLevel = Local | State | Safety | Apex {
    function Value(): string {
      match this
      case Local => "Local Municipal Authority"
      case State => "State/Utility Provider"
      case Safety => "Safety & Law Enforcement"
      case Apex => "Apex & Oversight Body"
    }
  }

  /** The default of `escalation_days`. */
  const DefaultEscalationDays: int := 21

  /** `Authority`, with the model's defaults: 21 escalation days and no parent. */
  datatype Authority = Authority(
    id: string,
    name: string,
    level: AuthorityLevel,
    domain: string,
    escalationDays: int := DefaultEscalationDays,
    parentId: Option<string> := None)

  /** `AUTHORITIES_DB`, in table order. */
  const AuthoritiesDb: seq<Authority> := [
    Authority("MUNI_PWD", "Public Works Department (PWD)", Local,
              "Roads, Bridges, Civil Repairs", 21, Some("STATE_CMO")),
    Authority("MUNI_SANITATION", "Sanitation & Solid Waste Mgmt", Local,
              "Garbage, Public Toilets, Cleaning", 7, Some("STATE_CMO")),
    Authority("MUNI_HORTICULTURE", "Horticulture Department", Local,
              "Parks, Trees, Greenery", 14, Some("STATE_CMO")),
    Authority("MUNI_LIGHTING", "Street Lighting Dept", Local,
              "Street Lights, Electrical Poles", 7, Some("UTIL_DISCOM")),
    Authority("MUNI_WATER", "Water Supply & Sewerage Board", Local,
              "Water Supply, Drainage, Sewerage", 10, Some("STATE_CMO")),
    Authority("UTIL_DISCOM", "Power Distribution Company (DISCOM)", State,
              "High Voltage Power, Transformers, Grid", 3, Some("STATE_CMO")),
    Authority("UTIL_TRANSPORT", "State Transport Corporation", State,
              "Buses, Terminals", 14, Some("STATE_CMO")),
    Authority("UTIL_PCB", "Pollution Control Board", State,
              "Industrial Waste, Smoke, Chemical Pollution", 14, Some("CENTRAL_DARPG")),
    Authority("POLICE_LOCAL", "Local Police Station (SHO)", Safety,
              "Law & Order, Illegal Parking, Nuisance", 3, Some("STATE_HOME_DEPT")),
    Authority("POLICE_TRAFFIC", "Traffic Police", Safety,
              "Traffic Signals, Obstructions", 3, Some("STATE_HOME_DEPT")),
    Authority("STATE_CMO", "Chief Minister's Office (Grievance Cell)", Apex,
              "State Level Oversight", 30, Some("CENTRAL_DARPG")),
    Authority("CENTRAL_DARPG", "DARPG (Central Govt)", Apex,
              "National Oversight", 60)
  ]

  /** The first authority of `db` with the given id: the search with early return
      of `get_authority_by_id`, over any table. */
  function FindIn(db: seq<Authority>, authId: string): (r: Option<Authority>)
    ensures r.None? <==> forall i :: 0 <= i < |db| ==> db[i].id != authId
    ensures r.Some? ==> exists i :: 0 <= i < |db| && db[i] == r.value && r.value.id == authId
                          && forall j :: 0 <= j < i ==> db[j].id != authId
  {
    if db == [] then None
    else if db[0].id == authId then Some(db[0])
    else
      var r := FindIn(db[1..], authId);
      assert r.Some? ==> exists i :: 1 <= i < |db| && db[i] == r.value && r.value.id == authId
                           && forall j :: 0 <= j < i ==> db[j].id != authId by {
        if r.Some? {
          var i :| 0 <= i < |db[1..]| && db[1..][i] == r.value && r.value.id == authId
                   && forall j :: 0 <= j < i ==> db[1..][j].id != authId;
          assert forall j :: 1 <= j < i + 1 ==> db[j].id != authId by {
            forall j | 1 <= j < i + 1 ensures db[j].id != authId {
              assert db[j] == db[1..][j - 1];
            }
          }
        }
      }
      r
  }

  /** `get_authority_by_id`. */
  function GetAuthorityById(authId: string): Option<Authority> {
    FindIn(AuthoritiesDb, authId)
  }

  /** The authorities of `db` at the given level, in table order. */
  function FilterLevel(db: seq<Authority>, level: AuthorityLevel): (r: seq<Authority>)
    ensures |r| <= |db|
    ensures forall a :: a in r <==> a in db && a.level == level
  {
    if db == [] then []
    else
      var rest := FilterLevel(db[1..], level);
      assert forall a :: a in db <==> a == db[0] || a in db[1..];
      if db[0].level == level then [db[0]] + rest else rest
  }

  /** `get_authorities_by_level`. */
  function GetAuthoritiesByLevel(level: AuthorityLevel): seq<Authority> {
    FilterLevel(AuthoritiesDb, level)
  }

  /** `CLASSIFIER_TO_AUTHORITY_MAP`: classifier label -> authority id. */
  const ClassifierToAuthority: map<string, string> := map[
    "Municipal - PWD (Roads)" := "MUNI_PWD",
    "Municipal - PWD (Bridges)" := "MUNI_PWD",
    "Municipal - Sanitation" := "MUNI_SANITATION",
    "Municipal - Horticulture" := "MUNI_HORTICULTURE",
    "Municipal - Street Lighting" := "MUNI_LIGHTING",
    "Municipal - Water & Sewerage" := "MUNI_WATER",
    "Utility - Power (DISCOM)" := "UTIL_DISCOM",
    "State Transport" := "UTIL_TRANSPORT",
    "Pollution Control Board" := "UTIL_PCB",
    "Police - Local Law Enforcement" := "POLICE_LOCAL",
    "Police - Traffic" := "POLICE_TRAFFIC",
    "Civil Engineering Dept" := "MUNI_PWD",
    "Sanitation Dept" := "MUNI_SANITATION",
    "Horticulture Dept" := "MUNI_HORTICULTURE",
    "Electricity Dept" := "MUNI_LIGHTING",
    "Drainage Dept" := "MUNI_WATER",
    "Pollution Control Dept" := "UTIL_PCB",
    "Enforcement Dept" := "POLICE_LOCAL"
  ]

  /** `CLASSIFIER_TO_AUTHORITY_MAP.get(label)` taken only when truthy (a present,
      non-empty id). */
  function ExactAuthority(classifierLabel: string): (r: Option<string>)
    ensures r.Some? <==> classifierLabel in ClassifierToAuthority
    ensures r.Some? ==> r.value == ClassifierToAuthority[classifierLabel]
  {
    if classifierLabel in ClassifierToAuthority && ClassifierToAuthority[classifierLabel] != "" then
      Some(ClassifierToAuthority[classifierLabel])
    else None
  }

  /** The keyword fallback of `get_authority_id_from_dept_string` before the police
      branch: groups of keywords tried in order, each with the id it returns. */
  const KeywordLadder: seq<(seq<string>, string)> := [
    (["garbage", "trash", "toilet", "sanitation", "waste"], "MUNI_SANITATION"),
    (["road", "pothole", "pavement", "bridge", "civil"], "MUNI_PWD"),
    (["light", "lamp", "dark"], "MUNI_LIGHTING"),
    (["water", "drain", "pipe", "leak", "flood"], "MUNI_WATER"),
    (["wire", "cable", "transformer", "electric", "power"], "UTIL_DISCOM"),
    (["tree", "park", "plant"], "MUNI_HORTICULTURE"),
    (["bus", "transport", "shelter"], "UTIL_TRANSPORT"),
    (["smoke", "pollution", "burning", "fire"], "UTIL_PCB")
  ]

  /** The last rung: any of these selects a police authority ... */
  const PoliceKeywords: seq<string> := ["police", "illegal", "encroachment", "parking", "traffic"]

  /** ... the traffic police when one of these occurs too. */
  const TrafficKeywords: seq<string> := ["traffic", "signal"]

  /** The police authority the last rung picks for `ds`. */
  function PoliceAuthority(ds: string): string {
    if ContainsAny(ds, TrafficKeywords) then "POLICE_TRAFFIC" else "POLICE_LOCAL"
  }

  /** The id of the first group with a keyword in `ds`. */
  function FirstGroup(ds: string, ladder: seq<(seq<string>, string)>): (r: Option<string>)
    ensures r.None? <==> forall k :: 0 <= k < |ladder| ==> !ContainsAny(ds, ladder[k].0)
    ensures r.Some? ==> exists k :: 0 <= k < |ladder| && r.value == ladder[k].1
                          && ContainsAny(ds, ladder[k].0)
                          && forall j :: 0 <= j < k ==> !ContainsAny(ds, ladder[j].0)
  {
    if ladder == [] then None
    else if ContainsAny(ds, ladder[0].0) then Some(ladder[0].1)
    else
      var r := FirstGroup(ds, ladder[1..]);
      assert r.Some? ==> exists k :: 1 <= k < |ladder| && r.value == ladder[k].1
                           && ContainsAny(ds, ladder[k].0)
                           && forall j :: 0 <= j < k ==> !ContainsAny(ds, ladder[j].0) by {
        if r.Some? {
          var k :| 0 <= k < |ladder[1..]| && r.value == ladder[1..][k].1
                   && ContainsAny(ds, ladder[1..][k].0)
                   && forall j :: 0 <= j < k ==> !ContainsAny(ds, ladder[1..][j].0);
          assert forall j :: 1 <= j < k + 1 ==> !ContainsAny(ds, ladder[j].0) by {
            forall j | 1 <= j < k + 1 ensures !ContainsAny(ds, ladder[j].0) {
              assert ladder[j] == ladder[1..][j - 1];
            }
          }
        }
      }
      r
  }

  /** The keyword ladder of `get_authority_id_from_dept_string` on the lowered
      label `ds`. */
  function KeywordAuthority(ds: string): (r: Option<string>)
    ensures r.None? <==> FirstGroup(ds, KeywordLadder).None? && !ContainsAny(ds, PoliceKeywords)
    ensures FirstGroup(ds, KeywordLadder).Some? ==> r == FirstGroup(ds, KeywordLadder)
    ensures FirstGroup(ds, KeywordLadder).None? && ContainsAny(ds, PoliceKeywords) ==>
              r == Some(if ContainsAny(ds, TrafficKeywords) then "POLICE_TRAFFIC" else "POLICE_LOCAL")
  {
    match FirstGroup(ds, KeywordLadder)
    case Some(authId) => Some(authId)
    case None =>
      if ContainsAny(ds, PoliceKeywords) then Some(PoliceAuthority(ds)) else None
  }

  /** The keyword fallback with a `"parking"` test put ahead of the horticulture
      rung, whose `"park"` otherwise claims every parking complaint: a text that
      mentions parking is never sent to horticulture. */
  function CorrectedKeywordAuthority(ds: string): (r: Option<string>)
    ensures Contains(ds, "parking") ==> r.Some? && r.value != "MUNI_HORTICULTURE"
  {
    match FirstGroup(ds, KeywordLadder[..5])
    case Some(authId) => Some(authId)
    case None =>
      if Contains(ds, "parking") then Some(PoliceAuthority(ds)) else KeywordAuthority(ds)
  }

  /** `get_authority_id_from_dept_string`: the exact map, else the keyword ladder on
      the lowered label. */
  function AuthorityIdFromDept(deptString: string): (r: Option<string>)
    ensures deptString in ClassifierToAuthority ==> r == Some(ClassifierToAuthority[deptString])
    ensures deptString !in ClassifierToAuthority ==> r == KeywordAuthority(Lower(deptString))
  {
    match ExactAuthority(deptString)
    case Some(authId) => Some(authId)
    case None => KeywordAuthority(Lower(deptString))
  }

  /** The `reason` strings of `route_authority`. */
  datatype Reason = ExactMatch | KeywordMatch | Unmapped {
    function Name(): string {
      match this
      case ExactMatch => "exact_match"
      case KeywordMatch => "keyword_match"
      case Unmapped => "unmapped"
    }
  }

  /** The dictionary `route_authority` returns. */
  datatype Routing = Routing(
    authorityId: Option<string>,
    confidence: real,
    reason: Reason,
    escalationParentId: Option<string>)

  /** `authority.parent_authority_id if authority else None` for the authority
      looked up by id. */
  function ParentOf(authId: string): (r: Option<string>)
    ensures GetAuthorityById(authId).None? ==> r.None?
    ensures GetAuthorityById(authId).Some? ==> r == GetAuthorityById(authId).value.parentId
    ensures r.Some? ==> exists i :: 0 <= i < |AuthoritiesDb| && AuthoritiesDb[i].id == authId
                                    && AuthoritiesDb[i].parentId == r
  {
    match GetAuthorityById(authId)
    case Some(a) => a.parentId
    case None => None
  }

  /** `route_authority`. */
  function RouteAuthority(deptString: string): (r: Routing)
    ensures r.reason == ExactMatch <==> ExactAuthority(deptString).Some?
    ensures r.reason == Unmapped <==> r.authorityId.None?
    ensures r.authorityId == AuthorityIdFromDept(deptString)
    ensures r.authorityId.Some? ==> r.escalationParentId == ParentOf(r.authorityId.value)
    ensures r.authorityId.None? ==> r.escalationParentId.None?
    ensures r.confidence == (match r.reason
                             case ExactMatch => 0.95
                             case KeywordMatch => 0.75
                             case Unmapped => 0.2)
  {
    var exact := ExactAuthority(deptString);
    if exact.Some? then
      Routing(exact, 0.95, ExactMatch, ParentOf(exact.value))
    else
      var resolved := AuthorityIdFromDept(deptString);
      Routing(resolved,
              if resolved.Some? then 0.75 else 0.2,
              if resolved.Some? then KeywordMatch else Unmapped,
              if resolved.Some? then ParentOf(resolved.value) else None)
  }

  // ----- The escalation forest -----

  /** Every parent link of `db` names an authority of `db`. */
  predicate ParentsResolve(db: seq<Authority>) {
    forall i :: 0 <= i < |db| && db[i].parentId.Some? ==> FindIn(db, db[i].parentId.value).Some?
  }

  /** Following parent links from `authId` reaches `root` in at most `n` steps. */
  predicate ReachesWithin(db: seq<Authority>, authId: string, root: string, n: nat)
    decreases n
  {
    authId == root
    || (n > 0 && match FindIn(db, authId)
                 case Some(a) => a.parentId.Some? && ReachesWithin(db, a.parentId.value, root, n - 1)
                 case None => false)
  }

  /** The authority the two police entries escalate to, which the table lacks; its
      name, domain and escalation period are placeholders. */
  const StateHomeDept: Authority :=
    Authority("STATE_HOME_DEPT", "State Home Department", Apex, "Police Oversight", 30, Some("CENTRAL_DARPG"))

  /** The table with the missing parent added. */
  const CorrectedAuthoritiesDb: seq<Authority> := AuthoritiesDb + [StateHomeDept]
}
