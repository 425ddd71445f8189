// The FAQ helper module: it reads a FAQ page into question/answer pairs, answers forum
// questions from them, and lets staff or the asker mark a thread done through a button
// whose custom id carries the thread, message and role ids.

module FaqHelper {
  import opened Common

  type Pair = (string, string)

  // ---------------------------------------------------------------------------
  // From HTML to lines

  /** An HTML tag starts at i: a '<', at least one character that is not '>', then a '>'. */
  predicate TagAt(s: string, i: int) {
    0 <= i && i + 1 < |s| && s[i] == '<' && s[i + 1] != '>' && '>' in s[i + 1..]
  }

  predicate NoTag(s: string) {
    forall i :: 0 <= i < |s| ==> !TagAt(s, i)
  }

  /** Every tag `<[^>]+>` becomes a line break, scanning left to right. */
  function TagsToBreaks(s: string): (r: string)
    ensures '<' !in s ==> r == s
    ensures '>' in r ==> '>' in s
    ensures |r| <= |s|
    decreases |s|
  {
    if s == [] then []
    else if TagAt(s, 0) then
      var t := s[1..];
      var k := IndexOfChar(t, '>');
      "\n" + TagsToBreaks(t[k + 1..])
    else [s[0]] + TagsToBreaks(s[1..])
  }

  /** No tag survives the substitution. */
  lemma {:induction false} TagsToBreaksNoTag(s: string)
    ensures NoTag(TagsToBreaks(s))
    decreases |s|
  {
    if s != [] {
      var r := TagsToBreaks(s);
      if TagAt(s, 0) {
        var t := s[1..];
        var k := IndexOfChar(t, '>');
        TagsToBreaksNoTag(t[k + 1..]);
        var rest := TagsToBreaks(t[k + 1..]);
        assert r == "\n" + rest;
        forall i | 0 <= i < |r| ensures !TagAt(r, i) {
          if i > 0 {
            assert r[i..] == rest[i - 1..];
            assert !TagAt(rest, i - 1);
          }
        }
      } else {
        TagsToBreaksNoTag(s[1..]);
        var rest := TagsToBreaks(s[1..]);
        assert r == [s[0]] + rest;
        forall i | 0 <= i < |r| ensures !TagAt(r, i) {
          if i > 0 {
            assert r[i..] == rest[i - 1..];
            assert !TagAt(rest, i - 1);
          } else if s[0] == '<' && |s| > 1 {
            if s[1] == '>' {
              assert rest == TagsToBreaks(s[1..][1..]) || rest[0] == '>';
              TagsHead(s[1..]);
            } else {
              assert '>' !in s[1..];
              assert '>' !in rest;
              assert '>' !in r[1..];
            }
          }
        }
      }
    }
  }

  /** A text starting with '>' still starts with it after the substitution. */
  lemma TagsHead(s: string)
    requires s != [] && s[0] == '>'
    ensures TagsToBreaks(s) != [] && TagsToBreaks(s)[0] == '>'
  {
  }

  /** The stripped pieces that are not blank, in order. */
  function NonBlank(pieces: seq<string>): (r: seq<string>)
    ensures |r| <= |pieces|
  {
    if pieces == [] then []
    else
      var rest := NonBlank(pieces[1..]);
      if Strip(pieces[0]) == "" then rest else [Strip(pieces[0])] + rest
  }

  /** A line as the parser sees it: not blank, no surrounding whitespace. */
  predicate IsLine(s: string) {
    s != "" && Strip(s) == s
  }

  lemma {:induction false} NonBlankLines(pieces: seq<string>)
    ensures forall i :: 0 <= i < |NonBlank(pieces)| ==> IsLine(NonBlank(pieces)[i])
    decreases |pieces|
  {
    if pieces != [] {
      var rest := NonBlank(pieces[1..]);
      NonBlankLines(pieces[1..]);
      var t := Strip(pieces[0]);
      if t != "" {
        StripIdempotent(pieces[0]);
        assert IsLine(t);
        forall k | 0 <= k < |[t] + rest| ensures IsLine(([t] + rest)[k]) {
          if k > 0 {
            assert ([t] + rest)[k] == rest[k - 1];
          }
        }
      }
    }
  }

  /** The lines of a FAQ page: tags become breaks, then every non-blank stripped line. */
  function PageLines(html: string): (r: seq<string>)
  {
    NonBlank(Split(BreaksToNewlines(TagsToBreaks(html)), '\n'))
  }

  // ---------------------------------------------------------------------------
  // Question and answer lines

  /** Length of a `q:`/`q：`/`問題:`/`問題：` prefix of the lower-cased line, or 0. */
  function QuestionPrefix(low: string): (k: nat)
    ensures k <= |low|
  {
    if StartsWith(low, "q:") || StartsWith(low, "q：") then 2
    else if StartsWith(low, "問題:") || StartsWith(low, "問題：") then 3
    else 0
  }

  /** Length of an `a:`/`答案:`/`回答:` prefix (either colon) of the lower-cased line, or 0. */
  function AnswerPrefix(low: string): (k: nat)
    ensures k <= |low|
  {
    if StartsWith(low, "a:") || StartsWith(low, "a：") then 2
    else if StartsWith(low, "答案:") || StartsWith(low, "答案：") then 3
    else if StartsWith(low, "回答:") || StartsWith(low, "回答：") then 3
    else 0
  }

  predicate IsQuestionLine(ln: string) {
    QuestionPrefix(Lower(ln)) > 0
  }

  /** The question on a question line: the prefix and the whitespace after it removed. */
  function QuestionText(ln: string): (q: string)
    requires IsQuestionLine(ln)
    ensures |q| < |ln|
  {
    StripLeft(ln[QuestionPrefix(Lower(ln))..])
  }

  /** The answer text on an answer line. */
  function AnswerText(ln: string): (a: string)
    requires !IsQuestionLine(ln) && AnswerPrefix(Lower(ln)) > 0
    ensures |a| < |ln|
  {
    StripLeft(ln[AnswerPrefix(Lower(ln))..])
  }

  /** The parser's loop variables: pairs so far, the open question, its answer lines. */
  datatype ParseState = ParseState(pairs: seq<Pair>, question: Option<string>, parts: seq<string>)

  const Start := ParseState([], None, [])

  /** The open question closed with its answer: the parts joined by newlines, stripped. */
  function Flushed(st: ParseState): (pairs: seq<Pair>)
    ensures |pairs| == |st.pairs| + (if st.question.Some? then 1 else 0)
  {
    if st.question.Some? then st.pairs + [(st.question.value, Strip(Join(st.parts, "\n")))]
    else st.pairs
  }

  /** One line of the loop as written: a question line keeps the answer parts when no
      question was open yet. */
  function StepAsWritten(st: ParseState, ln: string): (r: ParseState)
  {
    if IsQuestionLine(ln) then
      ParseState(Flushed(st), Some(QuestionText(ln)), if st.question.Some? then [] else st.parts)
    else if AnswerPrefix(Lower(ln)) > 0 then st.(parts := st.parts + [AnswerText(ln)])
    else if st.question.Some? then st.(parts := st.parts + [ln])
    else st
  }

  /** One line, as evidently meant: every question line starts a fresh answer. */
  function Step(st: ParseState, ln: string): (r: ParseState)
    ensures IsQuestionLine(ln) ==> r.question == Some(QuestionText(ln)) && r.parts == []
    ensures !IsQuestionLine(ln) ==> r.pairs == st.pairs && r.question == st.question
  {
    if IsQuestionLine(ln) then ParseState(Flushed(st), Some(QuestionText(ln)), [])
    else if AnswerPrefix(Lower(ln)) > 0 then st.(parts := st.parts + [AnswerText(ln)])
    else if st.question.Some? then st.(parts := st.parts + [ln])
    else st
  }

  function RunAsWritten(st: ParseState, lines: seq<string>): ParseState
    decreases |lines|
  {
    if lines == [] then st
    else StepAsWritten(RunAsWritten(st, lines[..|lines| - 1]), lines[|lines| - 1])
  }

  function Run(st: ParseState, lines: seq<string>): ParseState
    decreases |lines|
  {
    if lines == [] then st else Step(Run(st, lines[..|lines| - 1]), lines[|lines| - 1])
  }

  /** `_parse_text_pairs` on the page's lines, before deduplication, as written: the same
      questions as meant, and the same answers but possibly the first. */
  function PairsAsWritten(lines: seq<string>): (r: seq<Pair>)
    ensures DifferInFirstAnswerOnly(r, Pairs(lines))
  {
    RunShadows(lines);
    Flushed(RunAsWritten(Start, lines))
  }

  /** Two pair lists with the same questions and the same answers except the first. */
  predicate DifferInFirstAnswerOnly(a: seq<Pair>, b: seq<Pair>) {
    |a| == |b| && (a != [] ==> a[0].0 == b[0].0 && a[1..] == b[1..])
  }

  /** The parser as written (`w`) next to the parser as meant (`m`): the same open question,
      pairs that differ in the first answer only, no pairs before the first question, and the
      same answer parts except while the first question is open. */
  predicate Shadows(w: ParseState, m: ParseState) {
    && w.question == m.question
    && DifferInFirstAnswerOnly(w.pairs, m.pairs)
    && (w.question.None? ==> w.pairs == [])
    && (w.question.None? || w.pairs != [] ==> w.parts == m.parts)
  }

  lemma FlushedShadows(w: ParseState, m: ParseState)
    requires Shadows(w, m)
    ensures DifferInFirstAnswerOnly(Flushed(w), Flushed(m))
  {
    if w.question.Some? {
      var x := (w.question.value, Strip(Join(w.parts, "\n")));
      var y := (m.question.value, Strip(Join(m.parts, "\n")));
      if w.pairs == [] {
        assert Flushed(w) == [x] && Flushed(m) == [y];
      } else {
        assert x == y;
        SameTailAppend(w.pairs, m.pairs, x);
      }
    }
  }

  lemma SameTailAppend(a: seq<Pair>, b: seq<Pair>, x: Pair)
    requires DifferInFirstAnswerOnly(a, b) && a != []
    ensures DifferInFirstAnswerOnly(a + [x], b + [x])
  {
    assert (a + [x])[1..] == a[1..] + [x];
    assert (b + [x])[1..] == b[1..] + [x];
  }

  lemma StepShadows(w: ParseState, m: ParseState, ln: string)
    requires Shadows(w, m)
    ensures Shadows(StepAsWritten(w, ln), Step(m, ln))
  {
    if IsQuestionLine(ln) {
      FlushedShadows(w, m);
    }
  }

  lemma {:induction false} RunShadows(lines: seq<string>)
    ensures Shadows(RunAsWritten(Start, lines), Run(Start, lines))
    ensures DifferInFirstAnswerOnly(Flushed(RunAsWritten(Start, lines)), Flushed(Run(Start, lines)))
    decreases |lines|
  {
    if lines != [] {
      RunShadows(lines[..|lines| - 1]);
      StepShadows(RunAsWritten(Start, lines[..|lines| - 1]), Run(Start, lines[..|lines| - 1]), lines[|lines| - 1]);
    }
    FlushedShadows(RunAsWritten(Start, lines), Run(Start, lines));
  }

  /** `_parse_text_pairs` on the page's lines, before deduplication, as evidently meant. */
  function Pairs(lines: seq<string>): seq<Pair> {
    Flushed(Run(Start, lines))
  }

  lemma AnswerLine(a: string)
    requires |a| == 4 && a[0] == 'A' && a[1] == ':' && a[2] == ' ' && !IsSpace(a[3])
    ensures !IsQuestionLine(a) && AnswerPrefix(Lower(a)) == 2
    ensures AnswerText(a) == a[3..]
  {
    var low := Lower(a);
    assert low[0] == 'a' && low[1] == ':';
    assert QuestionPrefix(low) == 0;
    assert low[..2] == "a:";
    assert a[2..][1..] == a[3..];
  }

  lemma QuestionLine(q: string)
    requires |q| == 4 && q[0] == 'Q' && q[1] == ':' && q[2] == ' ' && !IsSpace(q[3])
    ensures IsQuestionLine(q) && QuestionText(q) == q[3..]
  {
    var low := Lower(q);
    assert low[0] == 'q' && low[1] == ':';
    assert low[..2] == "q:";
    assert q[2..][1..] == q[3..];
  }

  /** Both loops append the text of an answer line to the open answer. */
  lemma AnswerSteps(st: ParseState, a: string)
    requires |a| == 4 && a[0] == 'A' && a[1] == ':' && a[2] == ' ' && !IsSpace(a[3])
    ensures StepAsWritten(st, a) == st.(parts := st.parts + [a[3..]])
    ensures Step(st, a) == st.(parts := st.parts + [a[3..]])
  {
    AnswerLine(a);
  }

  /** Both loops close the open question on a question line; only the corrected one
      always starts an empty answer. */
  lemma QuestionSteps(st: ParseState, q: string)
    requires |q| == 4 && q[0] == 'Q' && q[1] == ':' && q[2] == ' ' && !IsSpace(q[3])
    ensures StepAsWritten(st, q)
      == ParseState(Flushed(st), Some(q[3..]), if st.question.Some? then [] else st.parts)
    ensures Step(st, q) == ParseState(Flushed(st), Some(q[3..]), [])
  {
    QuestionLine(q);
  }

  /** An answer line before the first question is glued onto the first question's answer. */
  lemma LeadingAnswerKept(x: char, y: char)
    requires !IsSpace(x) && !IsSpace(y)
    ensures PairsAsWritten(["A: " + [x], "Q: " + [y]]) == [([y], [x])]
    ensures Pairs(["A: " + [x], "Q: " + [y]]) == [([y], "")]
  {
    LeadingAnswerGlued(x, y);
    LeadingAnswerDropped(x, y);
  }

  lemma LeadingAnswerGlued(x: char, y: char)
    requires !IsSpace(x) && !IsSpace(y)
    ensures PairsAsWritten(["A: " + [x], "Q: " + [y]]) == [([y], [x])]
  {
    var a := "A: " + [x];
    var q := "Q: " + [y];
    assert a[3..] == [x] && q[3..] == [y];
    GluedLines(a, q);
  }

  lemma LeadingAnswerDropped(x: char, y: char)
    requires !IsSpace(x) && !IsSpace(y)
    ensures Pairs(["A: " + [x], "Q: " + [y]]) == [([y], "")]
  {
    var a := "A: " + [x];
    var q := "Q: " + [y];
    assert a[3..] == [x] && q[3..] == [y];
    DroppedLines(a, q);
  }

  /** As written, the answer line `a` before the question line `q` becomes q's answer. */
  lemma GluedLines(a: string, q: string)
    requires |a| == 4 && a[0] == 'A' && a[1] == ':' && a[2] == ' ' && !IsSpace(a[3])
    requires |q| == 4 && q[0] == 'Q' && q[1] == ':' && q[2] == ' ' && !IsSpace(q[3])
    ensures PairsAsWritten([a, q]) == [(q[3..], a[3..])]
  {
    GluedState(a, q);
    assert Join([a[3..]], "\n") == a[3..];
    StripFixed(a[3..]);
  }

  lemma GluedState(a: string, q: string)
    requires |a| == 4 && a[0] == 'A' && a[1] == ':' && a[2] == ' ' && !IsSpace(a[3])
    requires |q| == 4 && q[0] == 'Q' && q[1] == ':' && q[2] == ' ' && !IsSpace(q[3])
    ensures RunAsWritten(Start, [a, q]) == ParseState([], Some(q[3..]), [a[3..]])
  {
    var s1 := ParseState([], None, [a[3..]]);
    AnswerSteps(Start, a);
    assert [a][..0] == [];
    assert RunAsWritten(Start, [a]) == s1;
    QuestionSteps(s1, q);
    assert [a, q][..1] == [a];
  }

  /** As evidently meant, the answer line `a` before the question line `q` is dropped. */
  lemma DroppedLines(a: string, q: string)
    requires |a| == 4 && a[0] == 'A' && a[1] == ':' && a[2] == ' ' && !IsSpace(a[3])
    requires |q| == 4 && q[0] == 'Q' && q[1] == ':' && q[2] == ' ' && !IsSpace(q[3])
    ensures Pairs([a, q]) == [(q[3..], "")]
  {
    var s1 := ParseState([], None, [a[3..]]);
    AnswerSteps(Start, a);
    assert [a][..0] == [];
    assert Run(Start, [a]) == s1;
    QuestionSteps(s1, q);
    assert [a, q][..1] == [a];
    assert Run(Start, [a, q]) == ParseState([], Some(q[3..]), []);
    assert Join([], "\n") == [];
    StripFixed([]);
  }

  /** Running over a concatenation runs over the second part from where the first ended. */
  lemma {:induction false} RunAppend(st: ParseState, a: seq<string>, b: seq<string>)
    ensures Run(st, a + b) == Run(Run(st, a), b)
    decreases |b|
  {
    if b != [] {
      assert (a + b)[..|a + b| - 1] == a + b[..|b| - 1];
      assert (a + b)[|a + b| - 1] == b[|b| - 1];
      RunAppend(st, a, b[..|b| - 1]);
    } else {
      assert a + b == a;
    }
  }

  /** Two states that will produce the same pairs: answer parts matter only under a question. */
  predicate Alike(s1: ParseState, s2: ParseState) {
    s1.pairs == s2.pairs && s1.question == s2.question
    && (s1.question.Some? ==> s1.parts == s2.parts)
  }

  lemma {:induction false} RunAlike(s1: ParseState, s2: ParseState, lines: seq<string>)
    requires Alike(s1, s2)
    ensures Alike(Run(s1, lines), Run(s2, lines))
    decreases |lines|
  {
    if lines != [] {
      RunAlike(s1, s2, lines[..|lines| - 1]);
    }
  }

  /** Lines before the first question line change nothing (evidently meant version). */
  lemma {:induction false} QuestionlessRunIsStart(lines: seq<string>)
    requires forall i :: 0 <= i < |lines| ==> !IsQuestionLine(lines[i])
    ensures Alike(Run(Start, lines), Start)
    decreases |lines|
  {
    if lines != [] {
      QuestionlessRunIsStart(lines[..|lines| - 1]);
    }
  }

  /** Text before the first question is ignored. */
  lemma PreambleIgnored(pre: seq<string>, rest: seq<string>)
    requires forall i :: 0 <= i < |pre| ==> !IsQuestionLine(pre[i])
    ensures Pairs(pre + rest) == Pairs(rest)
  {
    RunAppend(Start, pre, rest);
    QuestionlessRunIsStart(pre);
    RunAlike(Run(Start, pre), Start, rest);
  }

  function QuestionCount(lines: seq<string>): nat {
    CountWhere(lines, IsQuestionLine)
  }

  /** Every question line opens exactly one pair. */
  lemma {:induction false} RunCountsQuestions(lines: seq<string>)
    ensures |Flushed(Run(Start, lines))| == QuestionCount(lines)
    decreases |lines|
  {
    if lines != [] {
      var front := lines[..|lines| - 1];
      RunCountsQuestions(front);
      CountWhereLast(lines, IsQuestionLine);
      StepCount(Run(Start, front), lines[|lines| - 1]);
    }
  }

  /** A question line adds one pair to what would be flushed; any other line none. */
  lemma StepCount(st: ParseState, ln: string)
    ensures |Flushed(Step(st, ln))| == |Flushed(st)| + (if IsQuestionLine(ln) then 1 else 0)
  {
  }

  lemma PairsCountQuestions(lines: seq<string>)
    ensures |Pairs(lines)| == QuestionCount(lines)
  {
    RunCountsQuestions(lines);
  }

  /** Every pair's question is the text of some question line. */
  predicate FromQuestionLine(lines: seq<string>, q: string) {
    exists i :: 0 <= i < |lines| && IsQuestionLine(lines[i]) && QuestionText(lines[i]) == q
  }

  predicate QuestionsFrom(st: ParseState, lines: seq<string>) {
    (forall p :: p in st.pairs ==> FromQuestionLine(lines, p.0))
    && (st.question.Some? ==> FromQuestionLine(lines, st.question.value))
  }

  lemma {:induction false} RunQuestionsFrom(lines: seq<string>)
    ensures QuestionsFrom(Run(Start, lines), lines)
    decreases |lines|
  {
    if lines != [] {
      RunQuestionsFrom(lines[..|lines| - 1]);
      StepQuestionsFrom(Run(Start, lines[..|lines| - 1]), lines);
    }
  }

  /** One more line keeps every question traced to a question line. */
  lemma StepQuestionsFrom(st: ParseState, lines: seq<string>)
    requires lines != [] && QuestionsFrom(st, lines[..|lines| - 1])
    ensures QuestionsFrom(Step(st, lines[|lines| - 1]), lines)
  {
    var n := |lines| - 1;
    var r := Step(st, lines[n]);
    var traced := st.pairs + (if st.question.Some? then [(st.question.value, "")] else []);
    assert forall p :: p in r.pairs ==> exists p' :: p' in traced && p'.0 == p.0;
    forall p | p in r.pairs ensures FromQuestionLine(lines, p.0) {
      var p' :| p' in traced && p'.0 == p.0;
      FromQuestionLineGrows(lines, p.0);
    }
    if r.question.Some? {
      if IsQuestionLine(lines[n]) {
        assert FromQuestionLine(lines, QuestionText(lines[n]));
      } else {
        FromQuestionLineGrows(lines, r.question.value);
      }
    }
  }

  lemma FromQuestionLineGrows(lines: seq<string>, q: string)
    requires lines != [] && FromQuestionLine(lines[..|lines| - 1], q)
    ensures FromQuestionLine(lines, q)
  {
    var i :| 0 <= i < |lines| - 1 && IsQuestionLine(lines[..|lines| - 1][i])
      && QuestionText(lines[..|lines| - 1][i]) == q;
    assert lines[i] == lines[..|lines| - 1][i];
  }

  lemma PairsFromQuestionLines(lines: seq<string>)
    ensures forall p :: p in Pairs(lines) ==> FromQuestionLine(lines, p.0)
  {
    RunQuestionsFrom(lines);
  }

  // ---------------------------------------------------------------------------
  // Deduplication

  function StripPair(p: Pair): Pair {
    (Strip(p.0), Strip(p.1))
  }

  function StripPairs(pairs: seq<Pair>): (r: seq<Pair>)
    ensures |r| == |pairs|
    ensures forall i :: 0 <= i < |pairs| ==> r[i] == StripPair(pairs[i])
  {
    if pairs == [] then [] else [StripPair(pairs[0])] + StripPairs(pairs[1..])
  }

  /** `_dedupe_pairs`: each stripped pair once, where it first occurs. */
  function Deduped(pairs: seq<Pair>): (r: seq<Pair>)
    ensures NoDuplicates(r)
    ensures forall p :: p in r <==> p in StripPairs(pairs)
  {
    Dedupe(StripPairs(pairs))
  }

  predicate AllStripped(pairs: seq<Pair>) {
    forall i :: 0 <= i < |pairs| ==> StripPair(pairs[i]) == pairs[i]
  }

  lemma DedupedStripped(pairs: seq<Pair>)
    ensures AllStripped(Deduped(pairs))
  {
    var r := Deduped(pairs);
    forall i | 0 <= i < |r| ensures StripPair(r[i]) == r[i] {
      assert r[i] in StripPairs(pairs);
      var j :| 0 <= j < |pairs| && StripPairs(pairs)[j] == r[i];
      StripIdempotent(pairs[j].0);
      StripIdempotent(pairs[j].1);
    }
  }

  /** Deduplicating twice is deduplicating once. */
  lemma DedupedIdempotent(pairs: seq<Pair>)
    ensures Deduped(Deduped(pairs)) == Deduped(pairs)
  {
    var r := Deduped(pairs);
    DedupedStripped(pairs);
    assert StripPairs(r) == r;
    DedupeIdempotent(StripPairs(pairs));
  }

  lemma StripPairsSnoc(pairs: seq<Pair>, i: nat)
    requires i < |pairs|
    ensures StripPairs(pairs[..i + 1]) == StripPairs(pairs[..i]) + [StripPair(pairs[i])]
  {
  }

  /** The `seen`-set loop of `_dedupe_pairs`. */
  method DedupePairs(pairs: seq<Pair>) returns (unique: seq<Pair>)
    ensures unique == Deduped(pairs)
  {
    var seen: set<Pair> := {};
    unique := [];
    for i := 0 to |pairs|
      invariant unique == Dedupe(StripPairs(pairs[..i]))
      invariant forall p :: p in seen <==> p in unique
    {
      var key := StripPair(pairs[i]);
      StripPairsSnoc(pairs, i);
      DedupeSnoc(StripPairs(pairs[..i]), key);
      if key !in seen {
        seen := seen + {key};
        unique := unique + [key];
      }
    }
    assert pairs[..|pairs|] == pairs;
  }

  lemma RunSnoc(lines: seq<string>, i: nat)
    requires i < |lines|
    ensures Run(Start, lines[..i + 1]) == Step(Run(Start, lines[..i]), lines[i])
  {
    assert lines[..i + 1][..i] == lines[..i];
  }

  /** `_parse_text_pairs`: the page's pairs, deduplicated. */
  method ParseTextPairs(html: string) returns (pairs: seq<Pair>)
    ensures pairs == Deduped(Pairs(PageLines(html)))
  {
    var lines := PageLines(html);
    var found: seq<Pair> := [];
    var question: Option<string> := None;
    var parts: seq<string> := [];
    for i := 0 to |lines|
      invariant ParseState(found, question, parts) == Run(Start, lines[..i])
    {
      var ln := lines[i];
      RunSnoc(lines, i);
      if IsQuestionLine(ln) {
        if question.Some? {
          found := found + [(question.value, Strip(Join(parts, "\n")))];
        }
        parts := [];
        question := Some(QuestionText(ln));
      } else if AnswerPrefix(Lower(ln)) > 0 {
        parts := parts + [AnswerText(ln)];
      } else if question.Some? {
        parts := parts + [ln];
      }
    }
    assert lines[..|lines|] == lines;
    if question.Some? {
      found := found + [(question.value, Strip(Join(parts, "\n")))];
    }
    pairs := DedupePairs(found);
  }

  // ---------------------------------------------------------------------------
  // Matching a question without the AI

  /** The fallback test: the question occurs in the user's text (when non-empty) or the
      user's text occurs in the question, ignoring case. */
  predicate Matches(userQuestion: string, q: string) {
    (q != "" && Contains(Lower(userQuestion), Lower(q))) || Contains(Lower(q), Lower(userQuestion))
  }

  /** A pick of question and answer; `(None, None)` is no match. */
  datatype Pick = Pick(q: Option<string>, a: Option<string>)

  const NoPick := Pick(None, None)

  /** Index of the first pair whose question matches, or |pairs|. */
  function FirstMatch(userQuestion: string, pairs: seq<Pair>): (k: nat)
    ensures k <= |pairs|
    ensures k < |pairs| ==> Matches(userQuestion, pairs[k].0)
    ensures forall j :: 0 <= j < k ==> !Matches(userQuestion, pairs[j].0)
  {
    if pairs == [] then 0
    else if Matches(userQuestion, pairs[0].0) then 0
    else 1 + FirstMatch(userQuestion, pairs[1..])
  }

  /** `_fallback_contains`: the first matching pair. */
  function FallbackContains(userQuestion: string, pairs: seq<Pair>): (r: Pick)
    ensures r == NoPick <==> forall i :: 0 <= i < |pairs| ==> !Matches(userQuestion, pairs[i].0)
    ensures r != NoPick ==>
      exists i :: (0 <= i < |pairs| && Matches(userQuestion, pairs[i].0)
        && r == Pick(Some(pairs[i].0), Some(pairs[i].1))
        && forall j :: 0 <= j < i ==> !Matches(userQuestion, pairs[j].0))
  {
    var k := FirstMatch(userQuestion, pairs);
    if k == |pairs| then NoPick else Pick(Some(pairs[k].0), Some(pairs[k].1))
  }

  /** Asking a FAQ question verbatim, in any letter case, finds it. */
  lemma VerbatimQuestionFound(pairs: seq<Pair>, i: nat)
    requires i < |pairs| && pairs[i].0 != ""
    ensures FallbackContains(Lower(pairs[i].0), pairs) != NoPick
  {
    LowerIdempotent(pairs[i].0);
    ContainsSelf(Lower(pairs[i].0));
    assert Matches(Lower(pairs[i].0), pairs[i].0);
  }

  // ---------------------------------------------------------------------------
  // Matching a question with the AI

  /** What reaches the AI: at most 50 pairs, questions cut to 300 and answers to 600
      characters. */
  function AiItems(pairs: seq<Pair>): (items: seq<Pair>)
    ensures |items| == Min(|pairs|, 50)
    ensures forall i :: 0 <= i < |items| ==>
      |items[i].0| <= 300 && |items[i].1| <= 600
      && items[i].0 <= pairs[i].0 && items[i].1 <= pairs[i].1
  {
    Capped(Take(pairs, 50))
  }

  function Capped(pairs: seq<Pair>): (items: seq<Pair>)
    ensures |items| == |pairs|
    ensures forall i :: 0 <= i < |items| ==>
      items[i] == (Take(pairs[i].0, 300), Take(pairs[i].1, 600))
  {
    if pairs == [] then [] else [(Take(pairs[0].0, 300), Take(pairs[0].1, 600))] + Capped(pairs[1..])
  }

  /** The parsed reply object: the truth of its "match" field and its "q" and "a" fields. */
  datatype Reply = Reply(matched: bool, q: Option<string>, a: Option<string>)

  /** The position of the '}' that `\{.*\}$` must end on: the last character, or the one
      before a final newline; -1 when there is none. */
  function ClosingBrace(text: string): (j: int)
    ensures -1 <= j < |text| && (j >= 0 ==> text[j] == '}')
  {
    if |text| > 0 && text[|text| - 1] == '}' then |text| - 1
    else if |text| > 1 && text[|text| - 1] == '\n' && text[|text| - 2] == '}' then |text| - 2
    else -1
  }

  /** `re.search(r"\{.*\}$", text, re.S)`: from the first '{' to the closing '}'. */
  function JsonBlock(text: string): (r: Option<string>)
    ensures r.Some? ==>
      (|r.value| >= 2 && r.value[0] == '{' && r.value[|r.value| - 1] == '}'
       && Contains(text, r.value))
  {
    var j := ClosingBrace(text);
    if j < 0 || '{' !in text[..j] then None
    else
      var i := IndexOfChar(text[..j], '{');
      assert OccursAt(text, text[i..j + 1], i);
      Some(text[i..j + 1])
  }

  /** A block is found exactly when the text ends in '}' (or "}\n") with a '{' before it. */
  lemma JsonBlockFound(text: string)
    ensures JsonBlock(text).Some? <==> ClosingBrace(text) >= 0 && '{' in text[..ClosingBrace(text)]
  {
  }

  /** `_semantic_pick`: without an AI agent, the fallback; otherwise the AI reply's pick, or
      no pick when the call failed, no JSON block is found, it does not parse, or its
      "match" is false. */
  function SemanticPick(userQuestion: string, pairs: seq<Pair>, hasAgent: bool,
                        aiReply: Option<string>, parse: string -> Option<Reply>): (r: Pick)
  {
    if !hasAgent then FallbackContains(userQuestion, pairs)
    else if aiReply.None? then NoPick
    else
      var block := JsonBlock(aiReply.value);
      if block.None? then NoPick
      else
        var obj := parse(block.value);
        if obj.None? || !obj.value.matched then NoPick
        else Pick(obj.value.q, obj.value.a)
  }

  /** With an agent, a pick comes only from a parsed reply whose "match" is true, and is its
      "q" and "a". */
  lemma SemanticPickNeedsMatch(userQuestion: string, pairs: seq<Pair>, aiReply: Option<string>,
                               parse: string -> Option<Reply>)
    ensures SemanticPick(userQuestion, pairs, true, aiReply, parse) != NoPick ==>
      aiReply.Some? && JsonBlock(aiReply.value).Some?
      && parse(JsonBlock(aiReply.value).value).Some?
      && parse(JsonBlock(aiReply.value).value).value.matched
      && SemanticPick(userQuestion, pairs, true, aiReply, parse)
         == Pick(parse(JsonBlock(aiReply.value).value).value.q,
                 parse(JsonBlock(aiReply.value).value).value.a)
  {
  }

  // ---------------------------------------------------------------------------
  // The mark-done button

  const DonePrefix := "faq_done:"

  /** The button's custom id `faq_done:{thread}:{origin message}:{staff role}`. */
  function EncodeDoneId(thread: int, origin: int, role: int): (cid: string)
    ensures StartsWith(cid, DonePrefix)
  {
    DonePrefix + IntToString(thread) + ":" + IntToString(origin) + ":" + IntToString(role)
  }

  datatype DoneId = NotDoneId | MissingParts | BadNumber | DoneId(thread: int, origin: int, role: int)

  /** Reading the ids back: the prefix, then exactly four ':'-fields, then three integers. */
  function DecodeDoneId(cid: string): (r: DoneId)
    ensures r == NotDoneId <==> !StartsWith(cid, DonePrefix)
    ensures r == MissingParts <==> StartsWith(cid, DonePrefix) && |Split(cid, ':')| != 4
  {
    if !StartsWith(cid, DonePrefix) then NotDoneId
    else
      var parts := Split(cid, ':');
      if |parts| != 4 then MissingParts
      else
        match (ParseInt(parts[1]), ParseInt(parts[2]), ParseInt(parts[3]))
        case (Some(t), Some(o), Some(ro)) => DoneId(t, o, ro)
        case _ => BadNumber
  }

  /** Decoding an encoded id gives back the three ids. */
  lemma DoneIdRoundTrip(thread: int, origin: int, role: int)
    ensures DecodeDoneId(EncodeDoneId(thread, origin, role)) == DoneId(thread, origin, role)
  {
    DoneIdFields(thread, origin, role);
    ParseIntToString(thread);
    ParseIntToString(origin);
    ParseIntToString(role);
  }

  /** An encoded id splits on ':' into the prefix word and the three printed ids. */
  lemma DoneIdFields(thread: int, origin: int, role: int)
    ensures Split(EncodeDoneId(thread, origin, role), ':')
      == ["faq_done", IntToString(thread), IntToString(origin), IntToString(role)]
  {
    var parts := ["faq_done", IntToString(thread), IntToString(origin), IntToString(role)];
    IntToStringNoSep(thread, ':');
    IntToStringNoSep(origin, ':');
    IntToStringNoSep(role, ':');
    assert forall i :: 0 <= i < |parts| ==> ':' !in parts[i];
    DoneIdJoin(parts);
    assert DonePrefix == parts[0] + ":";
    assert Join(parts, ":") == EncodeDoneId(thread, origin, role);
    JoinSplit(parts, ':');
  }

  /** Four fields joined by ':' are the encoded id's shape. */
  lemma DoneIdJoin(parts: seq<string>)
    requires |parts| == 4
    ensures Join(parts, ":") == parts[0] + ":" + parts[1] + ":" + parts[2] + ":" + parts[3]
  {
    var tail2 := parts[2..];
    var tail1 := parts[1..];
    assert tail2 == [parts[2]] + parts[3..] && |parts[3..]| == 1;
    JoinCons(parts[2], parts[3..], ":");
    assert tail1 == [parts[1]] + tail2;
    JoinCons(parts[1], tail2, ":");
    assert parts == [parts[0]] + tail1;
    JoinCons(parts[0], tail1, ":");
  }

  /** `has_staff or is_author`. */
  predicate MayMarkDone(roles: seq<int>, memberId: int, staffRole: int, originAuthor: Option<int>) {
    staffRole in roles || (originAuthor.Some? && originAuthor.value == memberId)
  }

  datatype DoneOutcome =
    | BadButton | MissingArgs | BrokenArgs | Unverified | NotInThread | NoParent | NotAllowed
    | MarkedDone(thread: int)

  /** The button handler's checks in order; `originAuthor` is None when the original
      message could not be fetched. */
  function MarkDone(cid: string, memberKnown: bool, roles: seq<int>, memberId: int,
                    inThread: bool, hasParent: bool, originAuthor: Option<int>): (r: DoneOutcome)
  {
    match DecodeDoneId(cid)
    case NotDoneId => BadButton
    case MissingParts => MissingArgs
    case BadNumber => BrokenArgs
    case DoneId(thread, _, role) =>
      if !memberKnown then Unverified
      else if !inThread then NotInThread
      else if !hasParent then NoParent
      else if !MayMarkDone(roles, memberId, role, originAuthor) then NotAllowed
      else MarkedDone(thread)
  }

  /** A thread is marked done exactly when the button carries its ids, the clicker is known,
      it happens in a thread with a parent, and the clicker holds the staff role or asked
      the question. */
  lemma MarkDoneExactly(thread: int, origin: int, role: int, memberKnown: bool, roles: seq<int>,
                        memberId: int, inThread: bool, hasParent: bool, originAuthor: Option<int>)
    ensures MarkDone(EncodeDoneId(thread, origin, role), memberKnown, roles, memberId,
                     inThread, hasParent, originAuthor) == MarkedDone(thread)
      <==> memberKnown && inThread && hasParent && MayMarkDone(roles, memberId, role, originAuthor)
  {
    DoneIdRoundTrip(thread, origin, role);
  }

  /** Nobody else can mark a thread done, whatever the button says. */
  lemma MarkDoneNeedsStaffOrAuthor(cid: string, memberKnown: bool, roles: seq<int>, memberId: int,
                                   inThread: bool, hasParent: bool, originAuthor: Option<int>)
    ensures MarkDone(cid, memberKnown, roles, memberId, inThread, hasParent, originAuthor).MarkedDone?
      ==> DecodeDoneId(cid).DoneId?
          && MayMarkDone(roles, memberId, DecodeDoneId(cid).role, originAuthor)
  {
  }
}
