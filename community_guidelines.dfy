/** The community guideline sections cited for a set of moderation categories, and the mute
    reason text built from them. */
module CommunityGuidelines {
  import opened Common

  /** `category_mapping` of `get_guidelines_for_violations`. */
  const CategorySections: map<string, seq<string>> := map[
    "harassment" := ["2.1", "4.1"],
    "hate_speech" := ["2.2", "4.1"],
    "graphic_content" := ["2.3", "3.5"],
    "privacy" := ["2.4"],
    "spam" := ["2.5"],
    "harmful" := ["2.6"],
    "illegal" := ["2.7"],
    "malware" := ["2.8"],
    "inappropriate" := ["3.1", "3.2", "3.4"],
    "copyright" := ["3.3"],
    "unsafe_links" := ["2.8", "3.6"]]

  /** Every section the table can cite, in string order. */
  const AllSections: seq<string> :=
    ["2.1", "2.2", "2.3", "2.4", "2.5", "2.6", "2.7", "2.8", "3.1", "3.2", "3.3", "3.4", "3.5", "3.6", "4.1"]

  /** Python's `<` on strings: lexicographic by character. */
  predicate StrLess(a: string, b: string)
    decreases |a|
  {
    if a == [] then b != []
    else if b == [] then false
    else a[0] < b[0] || (a[0] == b[0] && StrLess(a[1..], b[1..]))
  }

  lemma {:induction false} StrLessIrreflexive(a: string)
    ensures !StrLess(a, a)
    decreases |a|
  {
    if a != [] {
      StrLessIrreflexive(a[1..]);
    }
  }

  predicate StrictlySorted(s: seq<string>) {
    forall i, j :: 0 <= i < j < |s| ==> StrLess(s[i], s[j])
  }

  lemma {:induction false} StrLessTransitive(a: string, b: string, c: string)
    requires StrLess(a, b) && StrLess(b, c)
    ensures StrLess(a, c)
    decreases |a|
  {
    if a != [] && a[0] == b[0] && b[0] == c[0] {
      StrLessTransitive(a[1..], b[1..], c[1..]);
    }
  }

  /** Neighbours in order are enough for the whole sequence to be in order. */
  lemma {:induction false} NeighboursSorted(s: seq<string>)
    requires forall i :: 0 <= i < |s| - 1 ==> StrLess(s[i], s[i + 1])
    ensures StrictlySorted(s)
    decreases |s|
  {
    if |s| > 1 {
      NeighboursSorted(s[1..]);
      forall j | 1 < j < |s| ensures StrLess(s[0], s[j]) {
        assert s[1..][0] == s[1] && s[1..][j - 1] == s[j];
        StrLessTransitive(s[0], s[1], s[j]);
      }
      forall i, j | 0 <= i < j < |s| ensures StrLess(s[i], s[j]) {
        if i > 0 {
          assert s[1..][i - 1] == s[i] && s[1..][j - 1] == s[j];
        }
      }
    }
  }

  /** Two sections "d.d" compare by their major digit, then by their minor digit. */
  lemma SectionLess(a: string, b: string)
    requires |a| == 3 && |b| == 3 && a[1] == '.' && b[1] == '.'
    requires a[0] < b[0] || (a[0] == b[0] && a[2] < b[2])
    ensures StrLess(a, b)
  {
    assert a[1..][1..] == [a[2]] && b[1..][1..] == [b[2]];
  }

  lemma AllSectionsSorted()
    ensures StrictlySorted(AllSections)
  {
    forall i | 0 <= i < |AllSections| - 1 ensures StrLess(AllSections[i], AllSections[i + 1]) {
      SectionLess(AllSections[i], AllSections[i + 1]);
    }
    NeighboursSorted(AllSections);
  }

  lemma TableCitesKnownSection(c: string, x: string)
    requires c in CategorySections && x in CategorySections[c]
    ensures x in AllSections
  {
  }

  /** The union of the sections of the known categories among `categories`. */
  ghost function SectionSet(categories: seq<string>): set<string> {
    set c, x | c in categories && c in CategorySections && x in CategorySections[c] :: x
  }

  predicate Cited(categories: seq<string>, x: string) {
    exists c :: c in categories && c in CategorySections && x in CategorySections[c]
  }

  /** `get_guidelines_for_violations`: `sorted(set(...))`, written as the sections of the sorted
      list of all sections that some known category cites. */
  function GuidelinesFor(categories: seq<string>): (r: seq<string>)
  {
    Filter(AllSections, CitedBy(categories))
  }

  function CitedBy(categories: seq<string>): string -> bool {
    (x: string) => Cited(categories, x)
  }

  lemma {:induction false} FilterKeepsSorted(s: seq<string>, p: string -> bool)
    requires StrictlySorted(s)
    ensures StrictlySorted(Filter(s, p))
    decreases |s|
  {
    if s != [] {
      SortedTail(s);
      FilterKeepsSorted(s[1..], p);
      var rest := Filter(s[1..], p);
      forall k | 0 <= k < |rest|
        ensures StrLess(s[0], rest[k])
      {
        var m :| 0 <= m < |s[1..]| && s[1..][m] == rest[k];
        assert s[m + 1] == rest[k];
      }
      if p(s[0]) {
        SortedCons(s[0], rest);
        assert Filter(s, p) == [s[0]] + rest;
      } else {
        assert Filter(s, p) == rest;
      }
    }
  }

  lemma SortedTail(s: seq<string>)
    requires s != [] && StrictlySorted(s)
    ensures StrictlySorted(s[1..])
  {
    forall i, j | 0 <= i < j < |s[1..]| ensures StrLess(s[1..][i], s[1..][j]) {
      assert s[1..][i] == s[i + 1] && s[1..][j] == s[j + 1];
    }
  }

  lemma SortedCons(x: string, s: seq<string>)
    requires StrictlySorted(s) && forall k :: 0 <= k < |s| ==> StrLess(x, s[k])
    ensures StrictlySorted([x] + s)
  {
    var t := [x] + s;
    forall i, j | 0 <= i < j < |t| ensures StrLess(t[i], t[j]) {
      assert t[j] == s[j - 1];
      if i > 0 {
        assert t[i] == s[i - 1];
      }
    }
  }

  /** The result is strictly sorted, so it holds no section twice. */
  lemma GuidelinesForSorted(categories: seq<string>)
    ensures StrictlySorted(GuidelinesFor(categories))
    ensures NoDuplicates(GuidelinesFor(categories))
  {
    AllSectionsSorted();
    FilterKeepsSorted(AllSections, CitedBy(categories));
    var r := GuidelinesFor(categories);
    forall i, j | 0 <= i < j < |r| ensures r[i] != r[j] {
      StrLessIrreflexive(r[i]);
    }
  }

  /** The result holds exactly the sections cited by the known categories. */
  lemma GuidelinesForMembers(categories: seq<string>)
    ensures forall x :: x in GuidelinesFor(categories) <==> x in SectionSet(categories)
  {
    forall x ensures x in GuidelinesFor(categories) <==> x in SectionSet(categories) {
      CitedMember(categories, x);
    }
  }

  lemma CitedMember(categories: seq<string>, x: string)
    ensures x in GuidelinesFor(categories) <==> x in SectionSet(categories)
  {
    if x in SectionSet(categories) {
      SectionCited(categories, x);
    }
    if x in GuidelinesFor(categories) {
      CitedSection(categories, x);
    }
  }

  lemma SectionCited(categories: seq<string>, x: string)
    requires x in SectionSet(categories)
    ensures x in GuidelinesFor(categories)
  {
    var c :| c in categories && c in CategorySections && x in CategorySections[c];
    TableCitesKnownSection(c, x);
    FilterKeeps(AllSections, CitedBy(categories), x);
  }

  lemma CitedSection(categories: seq<string>, x: string)
    requires x in GuidelinesFor(categories)
    ensures x in SectionSet(categories)
  {
    FilterOnly(AllSections, CitedBy(categories), x);
    assert CitedBy(categories)(x);
    assert Cited(categories, x);
    var c :| c in categories && c in CategorySections && x in CategorySections[c];
  }

  /** Unknown categories cite nothing, so a list without a known category gives []. */
  lemma GuidelinesForUnknown(categories: seq<string>)
    requires forall c :: c in categories ==> c !in CategorySections
    ensures GuidelinesFor(categories) == []
  {
    GuidelinesForMembers(categories);
    if GuidelinesFor(categories) != [] {
      assert false;
    }
  }

  const RuleText: string := "違反社群規則"

  /** `guidelines_text`: the rule text, followed by the cited sections when there are any. */
  function GuidelinesText(categories: seq<string>): (t: string)
  {
    var g := GuidelinesFor(categories);
    if g == [] then RuleText else RuleText + " " + Join(g, ", ")
  }

  /** Without a cited section the text is the bare rule text; with one it carries them. */
  lemma GuidelinesTextShape(categories: seq<string>)
    ensures GuidelinesText(categories) == RuleText <==> GuidelinesFor(categories) == []
    ensures GuidelinesFor(categories) != [] ==> StartsWith(GuidelinesText(categories), RuleText + " ")
  {
    var g := GuidelinesFor(categories);
    if g != [] {
      assert |GuidelinesText(categories)| > |RuleText|;
      assert (RuleText + " " + Join(g, ", "))[..|RuleText + " "|] == RuleText + " ";
    }
  }

  /** `ordinal_map.get(count, f"第{count}次")`. */
  function Ordinal(count: int): (o: string)
  {
    if count == 1 then "第一次"
    else if count == 2 then "第二次"
    else if count == 3 then "第三次"
    else if count == 4 then "第四次"
    else if count == 5 then "第五次"
    else "第" + IntToString(count) + "次"
  }

  /** Outside the five named ordinals, the count can be read back from between "第" and "次". */
  lemma OrdinalReadsBack(count: int)
    requires !(1 <= count <= 5)
    ensures var o := Ordinal(count);
      |o| >= 2 && o[0] == '第' && o[|o| - 1] == '次' && ParseInt(o[1..|o| - 1]) == Some(count)
  {
    var o := Ordinal(count);
    assert o[1..|o| - 1] == IntToString(count);
    ParseIntToString(count);
  }

  /** The text between "第" and "次" reads as a number exactly outside the five named ordinals. */
  lemma OrdinalMiddle(count: int)
    ensures |Ordinal(count)| >= 3
    ensures ParseInt(Ordinal(count)[1..|Ordinal(count)| - 1]).Some? <==> !(1 <= count <= 5)
  {
    var o := Ordinal(count);
    if !(1 <= count <= 5) {
      OrdinalReadsBack(count);
      assert |IntToString(count)| >= 1;
    } else {
      assert |o| == 3 && o[1..|o| - 1] == [o[1]] && !IsDigit(o[1]) && o[1] != '-';
    }
  }

  /** The five named ordinals are not of the numbered form, so every count has its own text. */
  lemma OrdinalInjective(a: int, b: int)
    requires Ordinal(a) == Ordinal(b)
    ensures a == b
  {
    OrdinalMiddle(a);
    OrdinalMiddle(b);
    if !(1 <= a <= 5) {
      OrdinalReadsBack(a);
      OrdinalReadsBack(b);
    }
  }

  /** `format_mute_reason`. */
  function FormatMuteReason(count: int, categories: seq<string>): (r: string)
  {
    Ordinal(count) + ReasonBody(categories)
  }

  /** What follows the ordinal in a mute reason. */
  function ReasonBody(categories: seq<string>): string {
    "違規 - " + GuidelinesText(categories) + "。請遵守社群規範，營造良好討論環境。"
  }

  /** The reason starts with the ordinal and then carries the guideline text. */
  lemma FormatMuteReasonShape(count: int, categories: seq<string>)
    ensures StartsWith(FormatMuteReason(count, categories), Ordinal(count) + "違規 - " + GuidelinesText(categories))
  {
    var o, x, g := Ordinal(count), "違規 - ", GuidelinesText(categories);
    var tail := "。請遵守社群規範，營造良好討論環境。";
    assert ReasonBody(categories) == x + g + tail;
    Regroup(o, x, g, tail);
    assert ((o + x + g) + tail)[..|o + x + g|] == o + x + g;
  }

  lemma Regroup(a: string, b: string, c: string, d: string)
    ensures a + (b + c + d) == a + b + c + d
  {
  }

  /** The ordinal ends at the first "次" of any text it starts. */
  lemma OrdinalEndsAtFirstMark(count: int, rest: string)
    ensures var o := Ordinal(count);
      '次' in o + rest && IndexOfChar(o + rest, '次') == |o| - 1
  {
    var o := Ordinal(count);
    var s := o + rest;
    if !(1 <= count <= 5) {
      IntToStringNoSep(count, '次');
      assert o[..|o| - 1] == "第" + IntToString(count);
    }
    assert s[|o| - 1] == '次' && s[..|o| - 1] == o[..|o| - 1];
    var k := IndexOfChar(s, '次');
    assert k == |o| - 1;
  }

  /** Texts that start with an ordinal agree on it only for the same count. */
  lemma OrdinalPrefixNamesCount(a: int, b: int, ra: string, rb: string)
    requires Ordinal(a) + ra == Ordinal(b) + rb
    ensures a == b
  {
    var r := Ordinal(a) + ra;
    OrdinalEndsAtFirstMark(a, ra);
    OrdinalEndsAtFirstMark(b, rb);
    assert Ordinal(a) == r[..|Ordinal(a)|];
    assert Ordinal(b) == r[..|Ordinal(b)|];
    OrdinalInjective(a, b);
  }

  /** Two mute reasons that read the same were given for the same violation count. */
  lemma MuteReasonNamesCount(a: int, b: int, ca: seq<string>, cb: seq<string>)
    requires FormatMuteReason(a, ca) == FormatMuteReason(b, cb)
    ensures a == b
  {
    OrdinalPrefixNamesCount(a, b, ReasonBody(ca), ReasonBody(cb));
  }
}
