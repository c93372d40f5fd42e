/**
  What canonicalisation and the folder-name round trip guarantee
  (backend/app/category_utils.py).
 */
module CategoryFacts {
  import opened Wrappers
  import opened Strings
  import opened CategoryUtils

  // ----- The tables -----

  /** The alias table is a dictionary (no key twice) whose values are canonical, and
      the sentinel's alias comes last. */
  lemma AliasTableWellFormed()
    ensures forall k :: 0 <= k < |AliasTable| ==> AliasTable[k].1 in CanonicalCategories
    ensures forall j, k :: 0 <= j < k < |AliasTable| ==> AliasTable[j].0 != AliasTable[k].0
    ensures forall k :: 0 <= k < |AliasTable| - 1 ==> AliasTable[k].1 != Uncategorized
    ensures AliasTable[|AliasTable| - 1] == ("uncategorized", Uncategorized)
  {
  }

  // ----- Canonicalisation -----

  lemma {:induction false} LookupAliasAt(key: string, table: seq<(string, string)>, k: nat)
    requires k < |table| && table[k].0 == key
    requires forall j :: 0 <= j < k ==> table[j].0 != key
    ensures LookupAlias(key, table) == Some(table[k].1)
  {
    if k > 0 {
      LookupAliasAt(key, table[1..], k - 1);
    }
  }

  /** The scan returns the canonical label of the first qualifying alias. */
  lemma {:induction false} ScanFirstMatch(cleaned: string, table: seq<(string, string)>, k: nat)
    requires k < |table| && Qualifies(cleaned, table[k].0)
    requires forall j :: 0 <= j < k ==> !Qualifies(cleaned, table[j].0)
    ensures ScanAliases(cleaned, table) == table[k].1
  {
    if k > 0 {
      ScanFirstMatch(cleaned, table[1..], k - 1);
    }
  }

  /** When no alias qualifies the scan falls back to the sentinel. */
  lemma {:induction false} ScanNoMatch(cleaned: string, table: seq<(string, string)>)
    requires forall j :: 0 <= j < |table| ==> !Qualifies(cleaned, table[j].0)
    ensures ScanAliases(cleaned, table) == Uncategorized
  {
    if table != [] {
      ScanNoMatch(cleaned, table[1..]);
    }
  }

  /** Over a table whose only sentinel value is its last entry, the scan yields the
      sentinel exactly when none of the other aliases qualifies. */
  lemma {:induction false} ScanUncategorizedIff(cleaned: string, table: seq<(string, string)>)
    requires |table| > 0 && table[|table| - 1].1 == Uncategorized
    requires forall k :: 0 <= k < |table| - 1 ==> table[k].1 != Uncategorized
    ensures ScanAliases(cleaned, table) == Uncategorized
        <==> forall k :: 0 <= k < |table| - 1 ==> !Qualifies(cleaned, table[k].0)
  {
    if |table| > 1 && !Qualifies(cleaned, table[0].0) {
      ScanUncategorizedIff(cleaned, table[1..]);
      assert forall k :: 1 <= k < |table| - 1 ==> table[1..][k - 1] == table[k];
    }
  }

  lemma ResolveExact(cleaned: string, table: seq<(string, string)>, k: nat)
    requires k < |table| && table[k].0 == cleaned
    requires forall j :: 0 <= j < k ==> table[j].0 != cleaned
    ensures Resolve(cleaned, table) == table[k].1
  {
    LookupAliasAt(cleaned, table, k);
  }

  lemma ResolveScan(cleaned: string, table: seq<(string, string)>)
    requires forall j :: 0 <= j < |table| ==> table[j].0 != cleaned
    ensures Resolve(cleaned, table) == ScanAliases(cleaned, table)
  {
  }

  /** A label whose normalised form is an alias key canonicalises to that alias's
      value, without any substring scan. */
  lemma CanonicalizeExactAlias(name: string, k: nat)
    requires k < |AliasTable| && AliasTable[k].0 == Normalize(name)
    ensures Canonicalize(name) == AliasTable[k].1
  {
    AliasTableWellFormed();
    ResolveExact(Normalize(name), AliasTable, k);
  }

  /** Otherwise the result is the value of the first alias, in table order, that
      contains the normalised label or is contained in it. */
  lemma CanonicalizeFirstQualifying(name: string, k: nat)
    requires forall j :: 0 <= j < |AliasTable| ==> AliasTable[j].0 != Normalize(name)
    requires k < |AliasTable| && Qualifies(Normalize(name), AliasTable[k].0)
    requires forall j :: 0 <= j < k ==> !Qualifies(Normalize(name), AliasTable[j].0)
    ensures Canonicalize(name) == AliasTable[k].1
  {
    ResolveScan(Normalize(name), AliasTable);
    ScanFirstMatch(Normalize(name), AliasTable, k);
  }

  /** An alias key is contained in itself, so it always qualifies. */
  lemma QualifiesSelf(cleaned: string)
    ensures Qualifies(cleaned, cleaned)
  {
    ContainsWitness(cleaned, cleaned, 0);
  }

  /** With no alias qualifying, the result is the sentinel. */
  lemma CanonicalizeNoQualifying(name: string)
    requires forall j :: 0 <= j < |AliasTable| ==> !Qualifies(Normalize(name), AliasTable[j].0)
    ensures Canonicalize(name) == Uncategorized
  {
    QualifiesSelf(Normalize(name));
    ResolveScan(Normalize(name), AliasTable);
    ScanNoMatch(Normalize(name), AliasTable);
  }

  /** A label that is not an alias key canonicalises to the sentinel exactly when no
      alias other than "uncategorized" qualifies. */
  lemma CanonicalizeScanUncategorized(name: string)
    requires forall j :: 0 <= j < |AliasTable| ==> AliasTable[j].0 != Normalize(name)
    ensures Canonicalize(name) == Uncategorized
        <==> forall k :: 0 <= k < |AliasTable| - 1 ==> !Qualifies(Normalize(name), AliasTable[k].0)
  {
    AliasTableWellFormed();
    ResolveScan(Normalize(name), AliasTable);
    ScanUncategorizedIff(Normalize(name), AliasTable);
  }

  /** A name with no whitespace at its ends, no underscore and only single spaces
      normalises to its lower-case form. */
  lemma NormalizeClean(s: string)
    requires s == [] || (!IsSpace(s[0]) && !IsSpace(s[|s| - 1]))
    requires forall i :: 0 <= i < |s| ==> s[i] != '_'
    requires forall i :: 0 <= i < |s| && IsSpace(s[i]) ==> s[i] == ' '
    requires forall i :: 0 <= i < |s| - 1 ==> !(IsSpace(s[i]) && IsSpace(s[i + 1]))
    ensures Normalize(s) == Lower(s)
  {
    assert TrimLeft(s) == s;
    assert TrimRight(s) == s;
    var l := Lower(s);
    assert '_' !in l by {
      forall i | 0 <= i < |l| ensures l[i] != '_' {
        assert l[i] == LowerChar(s[i]);
      }
    }
    ReplaceAbsent(l, '_', " ");
    forall i | 0 <= i < |l| && IsSpace(l[i]) ensures l[i] == ' ' {
      assert l[i] == LowerChar(s[i]);
    }
    CollapseIdentity(l);
  }

  /** Underscores read as spaces and ASCII letters lowered, character by character. */
  function Folded(s: string): (r: string)
    ensures |r| == |s|
  {
    seq(|s|, i requires 0 <= i < |s| => if s[i] == '_' then ' ' else LowerChar(s[i]))
  }

  lemma FoldedLowerFirst(s: string)
    ensures ReplaceChar(Lower(s), '_', " ") == Folded(s)
  {
    ReplaceByChar(Lower(s), '_', ' ');
    forall i | 0 <= i < |s| ensures (Lower(s)[i] == '_') == (s[i] == '_') {
      assert Lower(s)[i] == LowerChar(s[i]);
    }
  }

  lemma FoldedReplaceFirst(s: string)
    ensures Lower(ReplaceChar(s, '_', " ")) == Folded(s)
  {
    ReplaceByChar(s, '_', ' ');
  }

  /** A string of whitespace only has no non-whitespace characters. */
  lemma NonSpaceBlank(s: string)
    requires forall i :: 0 <= i < |s| ==> IsSpace(s[i])
    ensures NonSpace(s) == []
  {
    NonSpaceOfSpaces(s, |s|);
    assert s[|s|..] == [];
  }

  /** Folding maps whitespace to whitespace. */
  lemma FoldedBlank(s: string)
    requires forall i :: 0 <= i < |s| ==> IsSpace(s[i])
    ensures forall i :: 0 <= i < |Folded(s)| ==> IsSpace(Folded(s)[i])
  {
    forall i | 0 <= i < |s| ensures IsSpace(Folded(s)[i]) {
      assert s[i] != '_';
    }
  }

  lemma FoldedAppend(a: string, b: string)
    ensures Folded(a + b) == Folded(a) + Folded(b)
  {
  }

  /** Whitespace padding on either side adds no non-whitespace character. */
  lemma FoldedPadded(pre: string, mid: string, post: string)
    requires forall i :: 0 <= i < |pre| ==> IsSpace(pre[i])
    requires forall i :: 0 <= i < |post| ==> IsSpace(post[i])
    ensures NonSpace(Folded(pre + mid + post)) == NonSpace(Folded(mid))
  {
    FoldedAppend(pre + mid, post);
    FoldedAppend(pre, mid);
    FoldedBlank(pre);
    FoldedBlank(post);
    NonSpaceBlank(Folded(pre));
    NonSpaceBlank(Folded(post));
    NonSpaceAppend(Folded(pre) + Folded(mid), Folded(post));
    NonSpaceAppend(Folded(pre), Folded(mid));
  }

  /** Cutting whitespace from both ends adds or removes no non-whitespace character. */
  lemma FoldedSlice(text: string, lo: nat, hi: nat)
    requires lo <= hi <= |text|
    requires forall i :: 0 <= i < lo ==> IsSpace(text[i])
    requires forall i :: hi <= i < |text| ==> IsSpace(text[i])
    ensures NonSpace(Folded(text)) == NonSpace(Folded(text[lo..hi]))
  {
    var pre, mid, post := text[..lo], text[lo..hi], text[hi..];
    assert text == pre + mid + post;
    assert forall i :: 0 <= i < |post| ==> post[i] == text[hi + i];
    FoldedPadded(pre, mid, post);
  }

  /** A piece of `text` with only whitespace around it has the same
      non-whitespace characters once folded. */
  lemma FoldedTrimmed(text: string, st: string)
    requires exists a: nat :: ContainsAt(text, st, a)
                        && (forall i :: 0 <= i < a ==> IsSpace(text[i]))
                        && (forall i :: a + |st| <= i < |text| ==> IsSpace(text[i]))
    ensures NonSpace(Folded(st)) == NonSpace(Folded(text))
  {
    var a: nat :| ContainsAt(text, st, a)
                  && (forall i :: 0 <= i < a ==> IsSpace(text[i]))
                  && (forall i :: a + |st| <= i < |text| ==> IsSpace(text[i]));
    FoldedSlice(text, a, a + |st|);
  }

  /** Stripping removes only whitespace. */
  lemma FoldedStrip(text: string)
    ensures NonSpace(Folded(Strip(text))) == NonSpace(Folded(text))
  {
    FoldedTrimmed(text, Strip(text));
  }

  /** Normalisation changes only letter case, whitespace and underscores: the
      non-whitespace characters of the normalised text are those of the input,
      lower-cased, once its underscores are read as spaces. */
  lemma NormalizeKeepsText(text: string)
    ensures NonSpace(Normalize(text)) == NonSpace(Lower(ReplaceChar(text, '_', " ")))
  {
    FoldedLowerFirst(Strip(text));
    CollapseKeepsNonSpace(Folded(Strip(text)));
    FoldedStrip(text);
    FoldedReplaceFirst(text);
  }

  /** A clean label whose lower-case form is the alias at position `k`, mapped
      back to the label itself, is a fixed point of canonicalisation. The lemmas
      after it discharge its side conditions one category at a time, the label
      bound through a parameter so that each proof sees one literal only. */
  lemma FixedPointVia(c: string, k: nat)
    requires c != [] && !IsSpace(c[0]) && !IsSpace(c[|c| - 1])
    requires forall i :: 0 <= i < |c| ==> c[i] != '_'
    requires forall i :: 0 <= i < |c| && IsSpace(c[i]) ==> c[i] == ' '
    requires forall i :: 0 <= i < |c| - 1 ==> !(IsSpace(c[i]) && IsSpace(c[i + 1]))
    requires k < |AliasTable| && AliasTable[k] == (Lower(c), c)
    ensures Canonicalize(c) == c
  {
    NormalizeClean(c);
    CanonicalizeExactAlias(c, k);
  }

  lemma FixedPointRoads(c: string)
    requires c == "Municipal - PWD (Roads)"
    ensures Canonicalize(c) == c
  {
    assert Lower(c) == "municipal - pwd (roads)";
    FixedPointVia(c, 0);
  }

  lemma FixedPointSanitation(c: string)
    requires c == "Municipal - Sanitation"
    ensures Canonicalize(c) == c
  {
    assert Lower(c) == "municipal - sanitation";
    FixedPointVia(c, 3);
  }

  lemma FixedPointHorticulture(c: string)
    requires c == "Municipal - Horticulture"
    ensures Canonicalize(c) == c
  {
    assert Lower(c) == "municipal - horticulture";
    FixedPointVia(c, 4);
  }

  lemma FixedPointLighting(c: string)
    requires c == "Municipal - Street Lighting"
    ensures Canonicalize(c) == c
  {
    assert Lower(c) == "municipal - street lighting";
    FixedPointVia(c, 5);
  }

  lemma FixedPointWater(c: string)
    requires c == "Municipal - Water & Sewerage"
    ensures Canonicalize(c) == c
  {
    assert Lower(c) == "municipal - water & sewerage";
    FixedPointVia(c, 6);
  }

  lemma FixedPointPower(c: string)
    requires c == "Utility - Power (DISCOM)"
    ensures Canonicalize(c) == c
  {
    assert Lower(c) == "utility - power (discom)";
    FixedPointVia(c, 8);
  }

  lemma FixedPointTransport(c: string)
    requires c == "State Transport"
    ensures Canonicalize(c) == c
  {
    assert Lower(c) == "state transport";
    FixedPointVia(c, 9);
  }

  lemma FixedPointPollution(c: string)
    requires c == "Pollution Control Board"
    ensures Canonicalize(c) == c
  {
    assert Lower(c) == "pollution control board";
    FixedPointVia(c, 10);
  }

  lemma FixedPointPoliceLocal(c: string)
    requires c == "Police - Local Law Enforcement"
    ensures Canonicalize(c) == c
  {
    assert Lower(c) == "police - local law enforcement";
    FixedPointVia(c, 11);
  }

  lemma FixedPointPoliceTraffic(c: string)
    requires c == "Police - Traffic"
    ensures Canonicalize(c) == c
  {
    assert Lower(c) == "police - traffic";
    FixedPointVia(c, 12);
  }

  lemma FixedPointUncategorized(c: string)
    requires c == "Uncategorized"
    ensures Canonicalize(c) == c
  {
    assert Lower(c) == "uncategorized";
    FixedPointVia(c, 13);
  }

  /** Every canonical category canonicalises to itself: its normalised form is an
      alias key mapped back to it. */
  lemma CanonicalFixedPoint(c: string)
    requires c in CanonicalCategories
    ensures Canonicalize(c) == c
  {
    if c == "Municipal - PWD (Roads)" { FixedPointRoads(c); }
    else if c == "Municipal - Sanitation" { FixedPointSanitation(c); }
    else if c == "Municipal - Horticulture" { FixedPointHorticulture(c); }
    else if c == "Municipal - Street Lighting" { FixedPointLighting(c); }
    else if c == "Municipal - Water & Sewerage" { FixedPointWater(c); }
    else if c == "Utility - Power (DISCOM)" { FixedPointPower(c); }
    else if c == "State Transport" { FixedPointTransport(c); }
    else if c == "Pollution Control Board" { FixedPointPollution(c); }
    else if c == "Police - Local Law Enforcement" { FixedPointPoliceLocal(c); }
    else if c == "Police - Traffic" { FixedPointPoliceTraffic(c); }
    else { FixedPointUncategorized(c); }
  }

  /** Canonicalisation is idempotent. */
  lemma CanonicalizeIdempotent(name: string)
    ensures Canonicalize(Canonicalize(name)) == Canonicalize(name)
  {
    CanonicalFixedPoint(Canonicalize(name));
  }

  /** A label made only of whitespace and underscores normalises to "" or " ". */
  lemma BlankNormalize(name: string)
    requires forall i :: 0 <= i < |name| ==> IsSpace(name[i]) || name[i] == '_'
    ensures Normalize(name) == "" || Normalize(name) == " "
  {
    var lowered := Lower(Strip(name));
    BlankLowered(name);
    var spaced := ReplaceChar(lowered, '_', " ");
    assert forall d :: d in spaced ==> IsSpace(d);
    var cleaned := CollapseSpaces(spaced);
    assert forall d :: d in cleaned ==> d == ' ';
    SpacesShort(cleaned);
  }

  /** Stripping and lowering keep a blank label blank. */
  lemma BlankLowered(name: string)
    requires forall i :: 0 <= i < |name| ==> IsSpace(name[i]) || name[i] == '_'
    ensures forall d :: d in Lower(Strip(name)) ==> IsSpace(d) || d == '_'
  {
    var stripped := Strip(name);
    var a: nat :| ContainsAt(name, stripped, a);
    assert forall i :: 0 <= i < |stripped| ==> stripped[i] == name[a + i];
  }

  /** Without two adjacent whitespace characters, a string of spaces is at most one
      long. */
  lemma SpacesShort(s: string)
    requires forall d :: d in s ==> d == ' '
    requires forall i :: 0 <= i < |s| - 1 ==> !(IsSpace(s[i]) && IsSpace(s[i + 1]))
    ensures |s| <= 1
  {
    if |s| > 1 {
      FirstTwo(s);
      assert false;
    }
  }

  lemma FirstTwo(s: string)
    requires |s| > 1
    ensures s[0] in s && s[1] in s
  {
  }

  /** "" and " " are contained in the first alias, which no shorter key equals. */
  lemma BlankResolves(cleaned: string)
    requires cleaned == "" || cleaned == " "
    ensures Resolve(cleaned, AliasTable) == AliasTable[0].1
  {
    var first := AliasTable[0].0;
    if cleaned == [] {
      ContainsEmpty(first);
    } else {
      assert ContainsAt(first, cleaned, 9);
    }
    assert forall j :: 0 <= j < |AliasTable| ==> |AliasTable[j].0| > 1;
    ResolveScan(cleaned, AliasTable);
    ScanFirstMatch(cleaned, AliasTable, 0);
  }

  /** A label made only of whitespace and underscores (the empty label included)
      normalises to "" or " ", which the first alias contains, so that alias wins. */
  lemma BlankLabel(name: string)
    requires forall i :: 0 <= i < |name| ==> IsSpace(name[i]) || name[i] == '_'
    ensures Canonicalize(name) == "Municipal - PWD (Roads)"
  {
    BlankNormalize(name);
    BlankResolves(Normalize(name));
  }

  /** `labels_match` is an equivalence relation, and a label matches its own
      canonical form. */
  lemma LabelsMatchEquivalence(a: string, b: string, c: string)
    ensures LabelsMatch(a, a)
    ensures LabelsMatch(a, b) <==> LabelsMatch(b, a)
    ensures LabelsMatch(a, b) && LabelsMatch(b, c) ==> LabelsMatch(a, c)
    ensures LabelsMatch(a, Canonicalize(a))
  {
    CanonicalizeIdempotent(a);
  }

  // ----- Folder names -----

  /** On a label without parentheses or `&`, `safe_dirname` only turns spaces into
      underscores. */
  lemma SafeDirnamePlain(s: string)
    requires Plain(s)
    ensures SafeDirname(s) == SpacesToUnderscores(s)
  {
    ReplaceByChar(s, ' ', '_');
    var r1 := ReplaceChar(s, ' ', "_");
    assert Plain(r1);
    ReplaceAbsent(r1, '(', "");
    ReplaceAbsent(r1, ')', "");
    ReplaceAbsent(r1, '&', "and");
  }

  /** `safe_dirname` works character by character. */
  lemma {:induction false} SafeDirnameAppend(a: string, b: string)
    ensures SafeDirname(a + b) == SafeDirname(a) + SafeDirname(b)
  {
    ReplaceAppend(a, b, ' ', "_");
    var a1, b1 := ReplaceChar(a, ' ', "_"), ReplaceChar(b, ' ', "_");
    ReplaceAppend(a1, b1, '(', "");
    var a2, b2 := ReplaceChar(a1, '(', ""), ReplaceChar(b1, '(', "");
    ReplaceAppend(a2, b2, ')', "");
    var a3, b3 := ReplaceChar(a2, ')', ""), ReplaceChar(b2, ')', "");
    ReplaceAppend(a3, b3, '&', "and");
  }

  lemma SafeDirnameOpen()
    ensures SafeDirname(['(']) == []
  {
  }

  lemma SafeDirnameClose()
    ensures SafeDirname([')']) == []
  {
  }

  lemma SafeDirnameAnd()
    ensures SafeDirname(['&']) == "and"
  {
  }

  lemma SafeDirnameSplitParens(a: string, b: string)
    ensures SafeDirname(a + ['('] + b + [')']) == SafeDirname(a) + SafeDirname(b)
  {
    SafeDirnameAppend(a + ['('] + b, [')']);
    SafeDirnameAppend(a + ['('], b);
    SafeDirnameAppend(a, ['(']);
    SafeDirnameOpen();
    SafeDirnameClose();
  }

  lemma SafeDirnameSplitAmpersand(a: string, b: string)
    ensures SafeDirname(a + ['&'] + b) == SafeDirname(a) + "and" + SafeDirname(b)
  {
    SafeDirnameAppend(a + ['&'], b);
    SafeDirnameAppend(a, ['&']);
    SafeDirnameAnd();
  }

  /** Parentheses are dropped. */
  lemma SafeDirnameParens(a: string, b: string)
    requires Plain(a) && Plain(b)
    ensures SafeDirname(a + ['('] + b + [')']) == SpacesToUnderscores(a) + SpacesToUnderscores(b)
  {
    SafeDirnameSplitParens(a, b);
    SafeDirnamePlain(a);
    SafeDirnamePlain(b);
  }

  /** `&` is spelled out. */
  lemma SafeDirnameAmpersand(a: string, b: string)
    requires Plain(a) && Plain(b)
    ensures SafeDirname(a + ['&'] + b) == SpacesToUnderscores(a) + "and" + SpacesToUnderscores(b)
  {
    SafeDirnameSplitAmpersand(a, b);
    SafeDirnamePlain(a);
    SafeDirnamePlain(b);
  }

  lemma DirnameRoads(c: string, f: string)
    requires c == "Municipal - PWD (Roads)" && f == "Municipal_-_PWD_Roads"
    ensures SafeDirname(c) == f
  {
    var a, b := "Municipal - PWD ", "Roads";
    assert c == a + ['('] + b + [')'];
    assert Plain(a) && Plain(b);
    assert SpacesToUnderscores(a) + SpacesToUnderscores(b) == f;
    SafeDirnameParens(a, b);
  }

  lemma DirnameSanitation(c: string, f: string)
    requires c == "Municipal - Sanitation" && f == "Municipal_-_Sanitation"
    ensures SafeDirname(c) == f
  {
    assert Plain(c);
    assert SpacesToUnderscores(c) == f;
    SafeDirnamePlain(c);
  }

  lemma DirnameHorticulture(c: string, f: string)
    requires c == "Municipal - Horticulture" && f == "Municipal_-_Horticulture"
    ensures SafeDirname(c) == f
  {
    assert Plain(c);
    assert SpacesToUnderscores(c) == f;
    SafeDirnamePlain(c);
  }

  lemma DirnameLighting(c: string, f: string)
    requires c == "Municipal - Street Lighting" && f == "Municipal_-_Street_Lighting"
    ensures SafeDirname(c) == f
  {
    assert Plain(c);
    assert SpacesToUnderscores(c) == f;
    SafeDirnamePlain(c);
  }

  lemma DirnameWater(c: string, f: string)
    requires c == "Municipal - Water & Sewerage" && f == "Municipal_-_Water_and_Sewerage"
    ensures SafeDirname(c) == f
  {
    var a, b := "Municipal - Water ", " Sewerage";
    assert c == a + ['&'] + b;
    assert Plain(a) && Plain(b);
    assert SpacesToUnderscores(a) + "and" + SpacesToUnderscores(b) == f;
    SafeDirnameAmpersand(a, b);
  }

  lemma DirnamePower(c: string, f: string)
    requires c == "Utility - Power (DISCOM)" && f == "Utility_-_Power_DISCOM"
    ensures SafeDirname(c) == f
  {
    var a, b := "Utility - Power ", "DISCOM";
    assert c == a + ['('] + b + [')'];
    assert Plain(a) && Plain(b);
    assert SpacesToUnderscores(a) + SpacesToUnderscores(b) == f;
    SafeDirnameParens(a, b);
  }

  lemma DirnameTransport(c: string, f: string)
    requires c == "State Transport" && f == "State_Transport"
    ensures SafeDirname(c) == f
  {
    assert Plain(c);
    assert SpacesToUnderscores(c) == f;
    SafeDirnamePlain(c);
  }

  lemma DirnamePollution(c: string, f: string)
    requires c == "Pollution Control Board" && f == "Pollution_Control_Board"
    ensures SafeDirname(c) == f
  {
    assert Plain(c);
    assert SpacesToUnderscores(c) == f;
    SafeDirnamePlain(c);
  }

  lemma DirnamePoliceLocal(c: string, f: string)
    requires c == "Police - Local Law Enforcement" && f == "Police_-_Local_Law_Enforcement"
    ensures SafeDirname(c) == f
  {
    assert Plain(c);
    assert SpacesToUnderscores(c) == f;
    SafeDirnamePlain(c);
  }

  lemma DirnamePoliceTraffic(c: string, f: string)
    requires c == "Police - Traffic" && f == "Police_-_Traffic"
    ensures SafeDirname(c) == f
  {
    assert Plain(c);
    assert SpacesToUnderscores(c) == f;
    SafeDirnamePlain(c);
  }

  lemma DirnameUncategorized(c: string, f: string)
    requires c == "Uncategorized" && f == "Uncategorized"
    ensures SafeDirname(c) == f
  {
    assert Plain(c);
    assert SpacesToUnderscores(c) == f;
    SafeDirnamePlain(c);
  }

  lemma FolderKeyRoads(c: string, f: string)
    requires c == "Municipal - PWD (Roads)" && f == "Municipal_-_PWD_Roads"
    ensures f in SafeFolderToCanonical && SafeFolderToCanonical[f] == c
  {
  }

  lemma FolderKeySanitation(c: string, f: string)
    requires c == "Municipal - Sanitation" && f == "Municipal_-_Sanitation"
    ensures f in SafeFolderToCanonical && SafeFolderToCanonical[f] == c
  {
  }

  lemma FolderKeyHorticulture(c: string, f: string)
    requires c == "Municipal - Horticulture" && f == "Municipal_-_Horticulture"
    ensures f in SafeFolderToCanonical && SafeFolderToCanonical[f] == c
  {
  }

  lemma FolderKeyLighting(c: string, f: string)
    requires c == "Municipal - Street Lighting" && f == "Municipal_-_Street_Lighting"
    ensures f in SafeFolderToCanonical && SafeFolderToCanonical[f] == c
  {
  }

  lemma FolderKeyWater(c: string, f: string)
    requires c == "Municipal - Water & Sewerage" && f == "Municipal_-_Water_and_Sewerage"
    ensures f in SafeFolderToCanonical && SafeFolderToCanonical[f] == c
  {
  }

  lemma FolderKeyPower(c: string, f: string)
    requires c == "Utility - Power (DISCOM)" && f == "Utility_-_Power_DISCOM"
    ensures f in SafeFolderToCanonical && SafeFolderToCanonical[f] == c
  {
  }

  lemma FolderKeyTransport(c: string, f: string)
    requires c == "State Transport" && f == "State_Transport"
    ensures f in SafeFolderToCanonical && SafeFolderToCanonical[f] == c
  {
  }

  lemma FolderKeyPollution(c: string, f: string)
    requires c == "Pollution Control Board" && f == "Pollution_Control_Board"
    ensures f in SafeFolderToCanonical && SafeFolderToCanonical[f] == c
  {
  }

  lemma FolderKeyPoliceLocal(c: string, f: string)
    requires c == "Police - Local Law Enforcement" && f == "Police_-_Local_Law_Enforcement"
    ensures f in SafeFolderToCanonical && SafeFolderToCanonical[f] == c
  {
  }

  lemma FolderKeyPoliceTraffic(c: string, f: string)
    requires c == "Police - Traffic" && f == "Police_-_Traffic"
    ensures f in SafeFolderToCanonical && SafeFolderToCanonical[f] == c
  {
  }

  lemma FolderKeyUncategorized(c: string, f: string)
    requires c == "Uncategorized" && f == "Uncategorized"
    ensures f in SafeFolderToCanonical && SafeFolderToCanonical[f] == c
  {
  }

  lemma FolderVia(c: string, f: string)
    requires SafeDirname(c) == f && f in SafeFolderToCanonical && SafeFolderToCanonical[f] == c
    ensures SafeDirname(c) in SafeFolderToCanonical && FolderToLabel(SafeDirname(c)) == c
  {
  }

  /** The folder name of every canonical category leads back to it. */
  lemma SafeDirnameRoundTrip(c: string)
    requires c in CanonicalCategories
    ensures SafeDirname(c) in SafeFolderToCanonical
    ensures FolderToLabel(SafeDirname(c)) == c
  {
    var f: string;
    if c == "Municipal - PWD (Roads)" {
      f := "Municipal_-_PWD_Roads";
      DirnameRoads(c, f);
      FolderKeyRoads(c, f);
    } else if c == "Municipal - Sanitation" {
      f := "Municipal_-_Sanitation";
      DirnameSanitation(c, f);
      FolderKeySanitation(c, f);
    } else if c == "Municipal - Horticulture" {
      f := "Municipal_-_Horticulture";
      DirnameHorticulture(c, f);
      FolderKeyHorticulture(c, f);
    } else if c == "Municipal - Street Lighting" {
      f := "Municipal_-_Street_Lighting";
      DirnameLighting(c, f);
      FolderKeyLighting(c, f);
    } else if c == "Municipal - Water & Sewerage" {
      f := "Municipal_-_Water_and_Sewerage";
      DirnameWater(c, f);
      FolderKeyWater(c, f);
    } else if c == "Utility - Power (DISCOM)" {
      f := "Utility_-_Power_DISCOM";
      DirnamePower(c, f);
      FolderKeyPower(c, f);
    } else if c == "State Transport" {
      f := "State_Transport";
      DirnameTransport(c, f);
      FolderKeyTransport(c, f);
    } else if c == "Pollution Control Board" {
      f := "Pollution_Control_Board";
      DirnamePollution(c, f);
      FolderKeyPollution(c, f);
    } else if c == "Police - Local Law Enforcement" {
      f := "Police_-_Local_Law_Enforcement";
      DirnamePoliceLocal(c, f);
      FolderKeyPoliceLocal(c, f);
    } else if c == "Police - Traffic" {
      f := "Police_-_Traffic";
      DirnamePoliceTraffic(c, f);
      FolderKeyPoliceTraffic(c, f);
    } else {
      f := "Uncategorized";
      DirnameUncategorized(c, f);
      FolderKeyUncategorized(c, f);
    }
    FolderVia(c, f);
  }
}
