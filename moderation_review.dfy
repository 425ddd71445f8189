/** The second opinion on flagged content: the agent's reply is cleaned of wrapping quotes and
    read as a verdict (false positive or violation), with the rule numbers it cites. */
module ModerationReview {
  import opened Common

  /** What `process_response` and `review_flagged_content` return. */
  datatype Verdict = Verdict(isViolation: bool, reason: string, originalResponse: string, rules: seq<string>)

  // ---------------------------------------------------------------------------
  // Rule citations: the pattern 規則\s*(\d+\.\d+(-\d+\.\d+)?)

  const RuleWord: string := "規則"

  /** The number of digits starting at j. */
  function DigitRun(s: string, j: nat): (n: nat)
    requires j <= |s|
    ensures j + n <= |s|
    ensures forall k :: j <= k < j + n ==> IsDigit(s[k])
    ensures j + n == |s| || !IsDigit(s[j + n])
    decreases |s| - j
  {
    if j < |s| && IsDigit(s[j]) then 1 + DigitRun(s, j + 1) else 0
  }

  /** The length of a match of \d+\.\d+ at j, or 0. */
  function DottedNumber(s: string, j: nat): (n: nat)
    requires j <= |s|
    ensures j + n <= |s|
    ensures n > 0 ==> n >= 3 && IsDigit(s[j]) && IsDigit(s[j + n - 1])
    ensures forall k :: j <= k < j + n ==> IsDigit(s[k]) || s[k] == '.'
  {
    var a := DigitRun(s, j);
    if a > 0 && j + a < |s| && s[j + a] == '.' then
      var b := DigitRun(s, j + a + 1);
      if b > 0 then a + 1 + b else 0
    else 0
  }

  /** The length of a match of \d+\.\d+(-\d+\.\d+)? at j, or 0; the optional range is taken
      whenever it is there. */
  function RuleNumber(s: string, j: nat): (n: nat)
    requires j <= |s|
    ensures j + n <= |s|
    ensures n > 0 ==> n >= 3 && IsDigit(s[j]) && IsDigit(s[j + n - 1])
    ensures forall k :: j <= k < j + n ==> IsDigit(s[k]) || s[k] == '.' || s[k] == '-'
  {
    var m := DottedNumber(s, j);
    if m > 0 && j + m < |s| && s[j + m] == '-' && DottedNumber(s, j + m + 1) > 0 then
      m + 1 + DottedNumber(s, j + m + 1)
    else m
  }

  function SkipSpaces(s: string, j: nat): (k: nat)
    requires j <= |s|
    ensures j <= k <= |s|
    ensures forall i :: j <= i < k ==> IsSpace(s[i])
    decreases |s| - j
  {
    if j < |s| && IsSpace(s[j]) then SkipSpaces(s, j + 1) else j
  }

  /** A rule number as the pattern captures it. */
  predicate RuleShaped(r: string) {
    |r| >= 3 && IsDigit(r[0]) && IsDigit(r[|r| - 1]) && forall c :: c in r ==> IsDigit(c) || c == '.' || c == '-'
  }

  /** `re.findall` of the pattern from index i: the captured rule numbers, left to right, each
      following a 規則 of the text. */
  function RulesFrom(s: string, i: nat): (rules: seq<string>)
    requires i <= |s|
    ensures forall k :: 0 <= k < |rules| ==> RuleShaped(rules[k])
    ensures rules != [] ==> Contains(s, RuleWord)
    decreases |s| - i
  {
    if i + |RuleWord| > |s| then []
    else if s[i..i + |RuleWord|] == RuleWord then
      ContainsAt(s, RuleWord, i);
      var j := SkipSpaces(s, i + |RuleWord|);
      var m := RuleNumber(s, j);
      if m > 0 then
        var rest := RulesFrom(s, j + m);
        RuleNumberShaped(s, j);
        AllShapedCons(s[j..j + m], rest);
        [s[j..j + m]] + rest
      else RulesFrom(s, i + 1)
    else RulesFrom(s, i + 1)
  }

  /** A match of the rule-number pattern is shaped as a rule number. */
  lemma RuleNumberShaped(s: string, j: nat)
    requires j <= |s| && RuleNumber(s, j) > 0
    ensures RuleShaped(s[j..j + RuleNumber(s, j)])
  {
    var r := s[j..j + RuleNumber(s, j)];
    forall c | c in r ensures IsDigit(c) || c == '.' || c == '-' {
      var k :| 0 <= k < |r| && r[k] == c;
      assert r[k] == s[j + k];
    }
  }

  lemma AllShapedCons(r: string, rest: seq<string>)
    requires RuleShaped(r) && forall k :: 0 <= k < |rest| ==> RuleShaped(rest[k])
    ensures forall k :: 0 <= k < |[r] + rest| ==> RuleShaped(([r] + rest)[k])
  {
    forall k | 0 <= k < |[r] + rest| ensures RuleShaped(([r] + rest)[k]) {
      if k > 0 {
        assert ([r] + rest)[k] == rest[k - 1];
      }
    }
  }

  function RulesCited(s: string): (rules: seq<string>)
  {
    RulesFrom(s, 0)
  }

  lemma RangeNumberExample(s: string)
    requires s == "規則 2.1-2.8"
    ensures SkipSpaces(s, 2) == 3 && RuleNumber(s, 3) == 7 && s[3..10] == "2.1-2.8"
  {
    assert DigitRun(s, 4) == 0 && DigitRun(s, 6) == 0 && DigitRun(s, 8) == 0 && DigitRun(s, 10) == 0;
    assert DigitRun(s, 3) == 1 && DigitRun(s, 5) == 1 && DigitRun(s, 7) == 1 && DigitRun(s, 9) == 1;
    assert DottedNumber(s, 3) == 3 && DottedNumber(s, 7) == 3;
  }

  /** A cited rule is read whole, range included. */
  lemma RuleCitationExample()
    ensures RulesCited("規則 2.1-2.8") == ["2.1-2.8"]
  {
    var s := "規則 2.1-2.8";
    RangeNumberExample(s);
    assert s[0..2] == RuleWord;
    assert RulesFrom(s, 10) == [];
  }

  // ---------------------------------------------------------------------------
  // Cleaning the agent's text

  /** Removes one `open … close` pair around t (a lone quote character becomes ""). */
  function StripPair(t: string, open: char, close: char): (r: string)
    ensures !(|t| >= 1 && t[0] == open && t[|t| - 1] == close) ==> r == t
    ensures |t| >= 2 && t[0] == open && t[|t| - 1] == close ==> t == [open] + r + [close]
    ensures |t| == 1 && t[0] == open && t[0] == close ==> r == []
  {
    if |t| >= 1 && t[0] == open && t[|t| - 1] == close then
      if |t| >= 2 then t[1..|t| - 1] else []
    else t
  }

  lemma StripPairUnwraps(x: string, open: char, close: char)
    ensures StripPair([open] + x + [close], open, close) == x
  {
    var t := [open] + x + [close];
    assert t[1..|t| - 1] == x;
  }

  /** `try_review_with_agent`'s handling of the text: trim, take off "…", '…' and 「…」 in that
      order, and give "" for a blank reply. */
  function CleanReply(raw: string): (t: string)
  {
    var s := Strip(raw);
    var t := StripPair(StripPair(StripPair(s, '"', '"'), '\'', '\''), '「', '」');
    if t == [] || Strip(t) == [] then [] else t
  }

  /** The cleaned text is the trimmed reply, less at most one pair of each kind of quote. */
  lemma CleanReplyUnquoted(raw: string)
    ensures var s := Strip(raw);
      && |CleanReply(raw)| <= |s|
      && (s != [] && s[0] != '"' && s[0] != '\'' && s[0] != '「' ==> CleanReply(raw) == s)
  {
    var s := Strip(raw);
    var a := StripPair(s, '"', '"');
    var b := StripPair(a, '\'', '\'');
    PairShorter(s, '"', '"');
    PairShorter(a, '\'', '\'');
    PairShorter(b, '「', '」');
    if s != [] && s[0] != '"' && s[0] != '\'' && s[0] != '「' {
      assert a == s && b == s && StripPair(b, '「', '」') == s;
      StripIdempotent(raw);
    }
  }

  lemma PairShorter(t: string, open: char, close: char)
    ensures |StripPair(t, open, close)| <= |t|
  {
  }

  /** A reply wrapped in full-width quotes is read without them. */
  lemma CleanReplyFullWidth(x: string)
    requires x != [] && !IsSpace(x[0]) && !IsSpace(x[|x| - 1])
    requires x[0] != '"' && x[0] != '\''
    ensures CleanReply("「" + x + "」") == x
  {
    var t := "「" + x + "」";
    assert !IsSpace(t[0]) && !IsSpace(t[|t| - 1]);
    StripFixed(t);
    assert StripPair(t, '"', '"') == t;
    assert StripPair(t, '\'', '\'') == t;
    StripPairUnwraps(x, '「', '」');
    StripFixed(x);
  }

  // ---------------------------------------------------------------------------
  // Reading the verdict

  const Keywords: seq<string> := ["誤判", "誤報", "歌曲", "遊樂", "誤解", "文化", "遊戲", "沒有違規"]
  const ViolationRules: seq<string> := ["2.1-2.8"]
  const LenientRules: seq<string> := ["3.4", "4.2"]
  const FalsePositiveMark: string := "false_positive"
  const FalsePositivePrefix: string := "false_positive:"
  const ViolationPrefix: string := "violation:"

  const EmptyVerdict: Verdict :=
    Verdict(true, "內容經AI評估但未能確定結果，基於安全考慮判定為違規。", "EMPTY_RESPONSE", ViolationRules)

  /** The Discord field limit: longer reasons keep 997 characters and get "...". */
  function CapReason(r: string): (c: string)
    ensures |c| <= 1000
    ensures |r| <= 1000 ==> c == r
    ensures |r| > 1000 ==> |c| == 1000 && c[..997] == r[..997]
  {
    if |r| > 1000 then r[..997] + "..." else r
  }

  /** The text after the first (case-insensitive) `prefix`, trimmed. */
  function After(text: string, prefix: string): (r: string)
    requires Contains(Lower(text), prefix)
  {
    Strip(text[Find(Lower(text), prefix) + |prefix|..])
  }

  /** `process_response`. */
  function ProcessResponse(text: string): (v: Verdict)
  {
    if text == [] then EmptyVerdict
    else
      var lower := Lower(text);
      var cited := RulesCited(text);
      if Contains(lower, FalsePositiveMark) then
        var reason := if Contains(lower, FalsePositivePrefix) then After(text, FalsePositivePrefix) else "這是一個誤判。" + text;
        Verdict(false, CapReason(reason), Take(text, 300), if cited == [] then LenientRules else cited)
      else if Contains(lower, ViolationPrefix) then
        Verdict(true, CapReason(After(text, ViolationPrefix)), Take(text, 300), if cited == [] then ViolationRules else cited)
      else if ContainsAny(text, Keywords) then
        Verdict(false, CapReason("內容可能是誤判。" + Take(text, 200)), Take(text, 300), if cited == [] then LenientRules else cited)
      else
        Verdict(true, CapReason("無法確定是否為誤判，為安全起見視為違規。" + Take(text, 200)), Take(text, 300),
                if cited == [] then ViolationRules else cited)
  }

  /** The verdict is a violation exactly when the reply has no false-positive mark and either
      says "violation:" or has none of the leniency words; cited rules are kept, and otherwise
      the defaults follow the verdict; the reason and the stored reply are bounded. */
  lemma ProcessResponseSpec(text: string)
    ensures var v := ProcessResponse(text);
      && (text == [] ==> v == EmptyVerdict)
      && (text != [] ==>
            (v.isViolation <==> !Contains(Lower(text), FalsePositiveMark)
                                && (Contains(Lower(text), ViolationPrefix) || !ContainsAny(text, Keywords))))
      && |v.reason| <= 1000 && |v.originalResponse| <= 300
      && (text != [] ==> v.originalResponse <= text)
      && (text != [] && RulesCited(text) != [] ==> v.rules == RulesCited(text))
      && (text != [] && RulesCited(text) == [] ==> v.rules == (if v.isViolation then ViolationRules else LenientRules))
  {
  }

  /** With the prefix present, the reason is what follows the first "false_positive:" (which a
      later "violation:" cannot override), trimmed. */
  lemma FalsePositiveReason(text: string)
    requires Contains(Lower(text), FalsePositivePrefix)
    ensures !ProcessResponse(text).isViolation
    ensures ProcessResponse(text).reason == CapReason(After(text, FalsePositivePrefix))
    ensures Contains(text[Find(Lower(text), FalsePositivePrefix) + |FalsePositivePrefix|..], After(text, FalsePositivePrefix))
  {
    var k := Find(Lower(text), FalsePositivePrefix);
    assert Lower(text)[k..k + |FalsePositiveMark|] == FalsePositivePrefix[..|FalsePositiveMark|] == FalsePositiveMark;
    ContainsAt(Lower(text), FalsePositiveMark, k);
    assert text != [];
  }

  // ---------------------------------------------------------------------------
  // Primary and backup agents

  /** What one `try_review_with_agent` call produced. */
  datatype AgentReply = Raised | Replied(raw: string)

  function ReplyText(a: AgentReply): string {
    match a
    case Raised => []
    case Replied(raw) => CleanReply(raw)
  }

  const AllFailedVerdict: Verdict :=
    Verdict(true, "內容可能違反規則2.1-2.8", "ERROR: All AI services failed to evaluate", ViolationRules)

  /** `review_flagged_content`: the primary agent's text when it has one, else the backup's, else
      the conservative violation. */
  function ReviewFlaggedContent(primary: AgentReply, backup: Option<AgentReply>): (v: Verdict)
  {
    var p := ReplyText(primary);
    if p != [] then ProcessResponse(p)
    else if backup.Some? && ReplyText(backup.value) != [] then ProcessResponse(ReplyText(backup.value))
    else AllFailedVerdict
  }

  /** The backup is consulted only when the primary gives no text, and without any text the
      content is treated as a violation. */
  lemma ReviewFallback(primary: AgentReply, backup: Option<AgentReply>)
    ensures ReplyText(primary) != [] ==> ReviewFlaggedContent(primary, backup) == ProcessResponse(ReplyText(primary))
    ensures ReplyText(primary) == [] && (backup.None? || ReplyText(backup.value) == []) ==>
      ReviewFlaggedContent(primary, backup).isViolation && ReviewFlaggedContent(primary, backup).rules == ViolationRules
    ensures ReviewFlaggedContent(primary, None) == ReviewFlaggedContent(primary, Some(Raised))
  {
  }
}
