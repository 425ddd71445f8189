/** The category tables of the moderation module: the Chinese label, the severity (1 to 5) and
    the description of each moderation category, and the summaries built from them. */
module ViolationMapping {
  import opened Common

  /** `VIOLATION_CATEGORY_MAPPING`. */
  const CategoryLabels: map<string, string> := map[
    "harassment" := "😡 騷擾內容",
    "harassment_threatening" := "🔪 威脅性騷擾",
    "hate" := "💢 仇恨言論",
    "hate_threatening" := "⚠️ 威脅性仇恨言論",
    "self_harm" := "💔 自我傷害相關內容",
    "self_harm_intent" := "🆘 自我傷害意圖",
    "self_harm_instructions" := "⛔ 自我傷害指導",
    "sexual" := "🔞 性相關內容",
    "sexual_minors" := "🚫 未成年相關性內容",
    "violence" := "👊 暴力內容",
    "violence_graphic" := "🩸 圖像化暴力內容",
    "illicit" := "🚫 不法行為",
    "illicit_violent" := "💣 暴力不法行為",
    "harassment/threatening" := "🔪 威脅性騷擾",
    "hate/threatening" := "⚠️ 威脅性仇恨言論",
    "self-harm" := "💔 自我傷害相關內容",
    "self-harm/intent" := "🆘 自我傷害意圖",
    "self-harm/instructions" := "⛔ 自我傷害指導",
    "sexual/minors" := "🚫 未成年相關性內容",
    "violence/graphic" := "🩸 圖像化暴力內容",
    "illicit/violent" := "💣 暴力不法行為",
    "phishing" := "🎣 釣魚網站",
    "malware" := "🦠 惡意軟體",
    "scam" := "💸 詐騙內容",
    "suspicious" := "❓ 可疑內容",
    "spam" := "📧 垃圾訊息",
    "fraud" := "💰 詐騙內容",
    "url_safety" := "🔗 不安全連結",
    "blacklisted_domain" := "🚫 黑名單網域",
    "other" := "❌ 其他違規",
    "unknown" := "❓ 未知違規類型"]

  /** `VIOLATION_SEVERITY_MAPPING`. */
  const SeverityTable: map<string, int> := map[
    "sexual/minors" := 5, "hate/threatening" := 5, "violence/graphic" := 5,
    "harassment/threatening" := 5, "harassment_threatening" := 5, "self-harm/intent" := 5,
    "self_harm/intent" := 5, "self_harm_intent" := 5, "illicit/violent" := 5,
    "sexual" := 4, "hate" := 4, "violence" := 4, "self-harm" := 4, "self_harm" := 4, "illicit" := 4,
    "harassment" := 3, "self-harm/instructions" := 3, "self_harm/instructions" := 3,
    "self_harm_instructions" := 3,
    "spam" := 2, "fraud" := 2, "url_safety" := 2,
    "other" := 1, "unknown" := 1]

  /** `VIOLATION_DESCRIPTION_MAPPING`. */
  const Descriptions: map<string, string> := map[
    "sexual" := "包含性相關內容，如性活動描述或性服務推廣（性教育和健康除外）",
    "hate" := "基於種族、性別、種族、宗教、國籍、性取向、殘疾狀況或種姓表達、煽動或促進仇恨的內容",
    "violence" := "促進或美化暴力或慶祝他人痛苦或羞辱的內容",
    "harassment" := "可能在現實生活中用於折磨或騷擾個人，或使騷擾更容易發生的內容",
    "self-harm" := "促進、鼓勵或描述自我傷害行為的內容，如自殺、割傷和飲食失調",
    "self_harm" := "促進、鼓勵或描述自我傷害行為的內容，如自殺、割傷和飲食失調",
    "sexual/minors" := "涉及18歲以下個人的性內容",
    "hate/threatening" := "包含針對目標群體的暴力或嚴重傷害的仇恨內容",
    "violence/graphic" := "以極其血腥細節描述死亡、暴力或嚴重身體傷害的暴力內容",
    "harassment/threatening" := "包含威脅成分的騷擾內容",
    "harassment_threatening" := "包含威脅成分的騷擾內容",
    "self-harm/intent" := "表達自我傷害意圖的內容",
    "self_harm/intent" := "表達自我傷害意圖的內容",
    "self_harm_intent" := "表達自我傷害意圖的內容",
    "self-harm/instructions" := "提供自我傷害指導的內容",
    "self_harm/instructions" := "提供自我傷害指導的內容",
    "self_harm_instructions" := "提供自我傷害指導的內容",
    "illicit" := "涉及非法活動的內容",
    "illicit/violent" := "涉及暴力非法活動的內容",
    "url_safety" := "包含不安全或惡意連結",
    "spam" := "垃圾訊息或重複發送的內容",
    "fraud" := "詐騙或欺騙性內容",
    "other" := "其他類型的違規內容",
    "unknown" := "無法分類的違規內容"]

  const UnknownDescription: string := "未知的違規類型"

  /** `get_chinese_category`: the mapped label, or the category itself when unmapped. */
  function ChineseCategory(c: string): (name: string)
  {
    if c in CategoryLabels then CategoryLabels[c] else c
  }

  /** A category is shown as itself exactly when it has no label; every label differs from
      its key. */
  lemma ChineseCategoryDefault(c: string)
    ensures ChineseCategory(c) == c <==> c !in CategoryLabels
  {
    assert forall k | k in CategoryLabels :: CategoryLabels[k] != k;
  }

  /** `get_violation_severity`: the mapped severity, 1 for an unmapped category. */
  function Severity(c: string): (s: int)
  {
    if c in SeverityTable then SeverityTable[c] else 1
  }

  /** Every severity, mapped or default, lies between 1 and 5; unmapped categories get 1. */
  lemma SeverityRange(c: string)
    ensures 1 <= Severity(c) <= 5
    ensures c !in SeverityTable ==> Severity(c) == 1
  {
    assert forall k | k in SeverityTable :: 1 <= SeverityTable[k] <= 5;
  }

  /** `get_violation_description`: the mapped text, or the fixed unknown text. */
  function Description(c: string): (d: string)
  {
    if c in Descriptions then Descriptions[c] else UnknownDescription
  }

  /** `get_chinese_description`, an alias of `get_violation_description`. */
  function ChineseDescription(c: string): (d: string)
  {
    Description(c)
  }

  /** Every mapped description differs from the unknown text, so the unknown text is returned
      exactly for unmapped categories. */
  lemma DescriptionDefault(c: string)
    ensures ChineseDescription(c) == Description(c)
    ensures ChineseDescription(c) == UnknownDescription <==> c !in Descriptions
  {
    assert forall k | k in Descriptions :: Descriptions[k] != UnknownDescription;
  }

  function Labels(categories: seq<string>): (r: seq<string>)
    ensures |r| == |categories|
    ensures forall i :: 0 <= i < |r| ==> r[i] == ChineseCategory(categories[i])
  {
    seq(|categories|, i requires 0 <= i < |categories| => ChineseCategory(categories[i]))
  }

  const NoneText: string := "無"

  /** `format_violation_categories`. */
  function FormatCategories(categories: seq<string>): (r: string)
  {
    if categories == [] then NoneText else Join(Labels(categories), "、")
  }

  /** The formatted text is "無" for no categories, and otherwise splits on "、" back into the
      labels in input order (as long as no label holds that separator). */
  lemma FormatCategoriesReadsBack(categories: seq<string>)
    ensures categories == [] ==> FormatCategories(categories) == NoneText
    ensures categories != [] && (forall i :: 0 <= i < |categories| ==> '、' !in ChineseCategory(categories[i]))
            ==> Split(FormatCategories(categories), '、') == Labels(categories)
  {
    if categories != [] && (forall i :: 0 <= i < |categories| ==> '、' !in ChineseCategory(categories[i])) {
      assert "、" == ['、'];
      JoinSplit(Labels(categories), '、');
    }
  }

  function Severities(categories: seq<string>): (r: seq<int>)
    ensures |r| == |categories|
    ensures forall i :: 0 <= i < |r| ==> r[i] == Severity(categories[i])
  {
    seq(|categories|, i requires 0 <= i < |categories| => Severity(categories[i]))
  }

  /** What `get_violation_summary` returns. */
  datatype Summary = Summary(
    chineseCategories: seq<string>, formatted: string, maxSeverity: int,
    totalCount: nat, highSeverityCount: nat)

  /** `get_violation_summary`. */
  function ViolationSummary(categories: seq<string>): (s: Summary)
  {
    if categories == [] then Summary([], NoneText, 0, 0, 0)
    else
      var sev := Severities(categories);
      Summary(Labels(categories), Join(Labels(categories), "、"), MaxOr(sev, 0), |categories|,
              CountWhere(sev, (x: int) => x >= 4))
  }

  /** The summary agrees with the formatter and the severity table: the total is the number of
      categories, the maximum is the largest severity (so 1 to 5), and the high-severity count
      is the number of categories of severity 4 or more; everything is zero for no categories. */
  lemma SummaryFacts(categories: seq<string>)
    ensures ViolationSummary(categories).formatted == FormatCategories(categories)
    ensures ViolationSummary(categories).chineseCategories == Labels(categories)
    ensures ViolationSummary(categories).totalCount == |categories|
    ensures ViolationSummary(categories).highSeverityCount <= |categories|
    ensures ViolationSummary(categories).highSeverityCount == CountWhere(Severities(categories), (x: int) => x >= 4)
    ensures categories == [] ==> ViolationSummary(categories) == Summary([], NoneText, 0, 0, 0)
    ensures categories != [] ==>
      && (forall i :: 0 <= i < |categories| ==> Severity(categories[i]) <= ViolationSummary(categories).maxSeverity)
      && (exists i :: 0 <= i < |categories| && Severity(categories[i]) == ViolationSummary(categories).maxSeverity)
      && 1 <= ViolationSummary(categories).maxSeverity <= 5
  {
    if categories != [] {
      var sev := Severities(categories);
      var m := MaxOr(sev, 0);
      var k :| 0 <= k < |sev| && sev[k] == m;
      SeverityRange(categories[k]);
      assert Severity(categories[k]) == m;
    }
  }
}
