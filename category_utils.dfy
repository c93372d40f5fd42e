/**
  The category registry: the closed set of canonical civic categories, the
  alias table that free-text labels are canonicalised against, and the
  folder-name round trip used for dataset directories
  (backend/app/category_utils.py).
 */
module CategoryUtils {
  import opened Wrappers
  import opened Strings

  const Uncategorized: string := "Uncategorized"

  /** The eleven labels the system ever outputs, the sentinel last. */
  const CanonicalCategories: seq<string> := [
    "Municipal - PWD (Roads)",
    "Municipal - Sanitation",
    "Municipal - Horticulture",
    "Municipal - Street Lighting",
    "Municipal - Water & Sewerage",
    "Utility - Power (DISCOM)",
    "State Transport",
    "Pollution Control Board",
    "Police - Local Law Enforcement",
    "Police - Traffic",
    Uncategorized
  ]

  /** Normalised alias -> canonical label, in the dictionary's insertion order
      (the order the substring scan visits them in). */
  const AliasTable: seq<(string, string)> := [
    ("municipal - pwd (roads)", "Municipal - PWD (Roads)"),
    ("municipal - pwd roads", "Municipal - PWD (Roads)"),
    ("municipal - pwd (bridges)", "Municipal - PWD (Roads)"),
    ("municipal - sanitation", "Municipal - Sanitation"),
    ("municipal - horticulture", "Municipal - Horticulture"),
    ("municipal - street lighting", "Municipal - Street Lighting"),
    ("municipal - water & sewerage", "Municipal - Water & Sewerage"),
    ("municipal - water and sewerage", "Municipal - Water & Sewerage"),
    ("utility - power (discom)", "Utility - Power (DISCOM)"),
    ("state transport", "State Transport"),
    ("pollution control board", "Pollution Control Board"),
    ("police - local law enforcement", "Police - Local Law Enforcement"),
    ("police - traffic", "Police - Traffic"),
    ("uncategorized", Uncategorized)
  ]

  /** Dataset folder name -> canonical label. */
  const SafeFolderToCanonical: map<string, string> := map[
    "Municipal_-_PWD_Roads" := "Municipal - PWD (Roads)",
    "Municipal_-_Sanitation" := "Municipal - Sanitation",
    "Municipal_-_Horticulture" := "Municipal - Horticulture",
    "Municipal_-_Street_Lighting" := "Municipal - Street Lighting",
    "Municipal_-_Water_and_Sewerage" := "Municipal - Water & Sewerage",
    "Utility_-_Power_DISCOM" := "Utility - Power (DISCOM)",
    "State_Transport" := "State Transport",
    "Pollution_Control_Board" := "Pollution Control Board",
    "Police_-_Local_Law_Enforcement" := "Police - Local Law Enforcement",
    "Police_-_Traffic" := "Police - Traffic",
    "Uncategorized" := Uncategorized
  ]

  /** `_normalize`: strip, lower-case, underscores to spaces, every whitespace run to
      one space. The result has no underscore, no upper-case letter, no whitespace
      other than single spaces. */
  function Normalize(text: string): (r: string)
    ensures forall i :: 0 <= i < |r| ==> r[i] != '_' && !IsAsciiUpper(r[i])
    ensures forall i :: 0 <= i < |r| && IsSpace(r[i]) ==> r[i] == ' '
    ensures forall i :: 0 <= i < |r| - 1 ==> !(IsSpace(r[i]) && IsSpace(r[i + 1]))
  {
    var lowered := Lower(Strip(text));
    var spaced := ReplaceChar(lowered, '_', " ");
    var r := CollapseSpaces(spaced);
    assert forall i :: 0 <= i < |r| ==> r[i] in r;
    r
  }

  /** `key in _ALIAS_TO_CANONICAL` / `_ALIAS_TO_CANONICAL[key]`. */
  function LookupAlias(key: string, table: seq<(string, string)>): (r: Option<string>)
    ensures r.None? <==> forall k :: 0 <= k < |table| ==> table[k].0 != key
    ensures r.Some? ==> exists k :: 0 <= k < |table| && table[k] == (key, r.value)
  {
    if table == [] then None
    else if table[0].0 == key then Some(table[0].1)
    else
      var r := LookupAlias(key, table[1..]);
      assert r.Some? ==> exists k :: 1 <= k < |table| && table[k] == (key, r.value) by {
        if r.Some? {
          var k :| 0 <= k < |table[1..]| && table[1..][k] == (key, r.value);
          assert table[k + 1] == (key, r.value);
        }
      }
      r
  }

  /** `cleaned in alias or alias in cleaned`. */
  predicate Qualifies(cleaned: string, alias: string) {
    Contains(alias, cleaned) || Contains(cleaned, alias)
  }

  /** The substring scan of `canonicalize_label`: the canonical label of the first
      alias that qualifies, else the sentinel. */
  function ScanAliases(cleaned: string, table: seq<(string, string)>): (r: string)
    ensures r == Uncategorized || exists k :: 0 <= k < |table| && r == table[k].1
  {
    if table == [] then Uncategorized
    else if Qualifies(cleaned, table[0].0) then table[0].1
    else
      var r := ScanAliases(cleaned, table[1..]);
      assert r != Uncategorized ==> exists k :: 1 <= k < |table| && r == table[k].1 by {
        if r != Uncategorized {
          var k :| 0 <= k < |table[1..]| && r == table[1..][k].1;
          assert r == table[k + 1].1;
        }
      }
      r
  }

  /** The two stages of `canonicalize_label` on an already normalised name: the
      exact lookup, then the substring scan. */
  function Resolve(cleaned: string, table: seq<(string, string)>): (r: string)
    ensures r == Uncategorized || exists k :: 0 <= k < |table| && r == table[k].1
  {
    match LookupAlias(cleaned, table)
    case Some(c) => c
    case None => ScanAliases(cleaned, table)
  }

  /** `canonicalize_label`: always one of the canonical categories. */
  function Canonicalize(name: string): (r: string)
    ensures r in CanonicalCategories
  {
    var r := Resolve(Normalize(name), AliasTable);
    ResolveCanonical(Normalize(name));
    r
  }

  /** `labels_match`. */
  predicate LabelsMatch(expected: string, predicted: string) {
    Canonicalize(expected) == Canonicalize(predicted)
  }

  /** `safe_dirname`: spaces to underscores, parentheses dropped, `&` spelled `and`. */
  function SafeDirname(name: string): (r: string)
    ensures ' ' !in r && '(' !in r && ')' !in r && '&' !in r
  {
    ReplaceChar(ReplaceChar(ReplaceChar(ReplaceChar(name, ' ', "_"), '(', ""), ')', ""), '&', "and")
  }

  /** `folder_to_label`: a known folder name, else the canonicalised label with
      underscores read as spaces; always a canonical category. */
  function FolderToLabel(folderName: string): (r: string)
    ensures r in CanonicalCategories
  {
    if folderName in SafeFolderToCanonical then SafeFolderToCanonical[folderName]
    else Canonicalize(ReplaceChar(folderName, '_', " "))
  }

  /** A label with no parenthesis and no `&`. */
  predicate Plain(s: string) {
    forall i | 0 <= i < |s| :: s[i] != '(' && s[i] != ')' && s[i] != '&'
  }

  /** Every space read as an underscore. */
  function SpacesToUnderscores(s: string): string {
    seq(|s|, i requires 0 <= i < |s| => if s[i] == ' ' then '_' else s[i])
  }

  // ----- The tables -----

  /** Every alias maps to a canonical category. */
  lemma AliasValuesCanonical()
    ensures forall k :: 0 <= k < |AliasTable| ==> AliasTable[k].1 in CanonicalCategories
  {
  }

  /** Every folder name maps to a canonical category. */
  lemma FolderTableCanonical()
    ensures forall f :: f in SafeFolderToCanonical ==> SafeFolderToCanonical[f] in CanonicalCategories
  {
  }

  // ----- Canonicalisation -----

  lemma ResolveCanonical(cleaned: string)
    ensures Resolve(cleaned, AliasTable) in CanonicalCategories
  {
    var r := Resolve(cleaned, AliasTable);
    if r != Uncategorized {
      var k :| 0 <= k < |AliasTable| && r == AliasTable[k].1;
      AliasValuesCanonical();
    }
  }
}
