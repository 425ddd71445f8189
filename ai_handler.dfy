/** The AI module's message handler: the per-user sliding-window rate limit, the clean-up of
    streamed text, the splitting of long replies into Discord-sized parts, and the bounded
    retries of the streaming call. The agents, the classifier and the search service are
    outside the model; what one streaming attempt produced is a parameter. */
module AiHandler {
  import opened Common

  /** `RATE_LIMIT_WINDOW`: messages are counted over the last 60 seconds. */
  const RateLimitWindow: int := 60
  /** `RATE_LIMIT_MAX_MESSAGES`. */
  const RateLimitMaxMessages: int := 10
  /** `AI_MAX_RETRIES`. */
  const AiMaxRetries: nat := 3
  /** The part size `_send_response` asks for, under Discord's 2000-character limit. */
  const SendLimit: nat := 1900

  // ---------------------------------------------------------------------------
  // Rate limit

  /** The timestamps strictly after the cutoff `now - RATE_LIMIT_WINDOW`, in order. */
  function InWindow(times: seq<int>, now: int): (r: seq<int>)
    ensures |r| <= |times|
    ensures forall t :: t in r <==> t in times && t > now - RateLimitWindow
  {
    if times == [] then []
    else (if times[0] > now - RateLimitWindow then [times[0]] else []) + InWindow(times[1..], now)
  }

  /** `_check_rate_limit` on one user's list: whether the user is limited, and the list after. */
  function RateCheck(times: seq<int>, now: int): (bool, seq<int>)
  {
    var kept := InWindow(times, now);
    if |kept| >= RateLimitMaxMessages then (true, kept) else (false, kept + [now])
  }

  /** The user is limited exactly when the limit's worth of messages fall in the window; a
      limited message is not recorded, an admitted one is recorded last; everything kept is
      inside the window, and a list within the limit stays within it. */
  lemma RateCheckSpec(times: seq<int>, now: int)
    ensures var (limited, after) := RateCheck(times, now);
      && (limited <==> |InWindow(times, now)| >= RateLimitMaxMessages)
      && (limited ==> now !in after || now in times)
      && (!limited ==> after != [] && after[|after| - 1] == now && after[..|after| - 1] == InWindow(times, now))
      && (forall t :: t in after ==> t > now - RateLimitWindow)
      && (|times| <= RateLimitMaxMessages ==> |after| <= RateLimitMaxMessages)
  {
    var after := RateCheck(times, now).1;
    if !RateCheck(times, now).0 {
      assert after[..|after| - 1] == InWindow(times, now);
    }
  }

  /** A user whose earlier messages are all older than the window is never limited. */
  lemma {:induction false} QuietUserAdmitted(times: seq<int>, now: int)
    requires forall i :: 0 <= i < |times| ==> times[i] <= now - RateLimitWindow
    ensures InWindow(times, now) == []
    ensures !RateCheck(times, now).0
    ensures RateCheck(times, now).1 == [now]
  {
    if times != [] {
      QuietUserAdmitted(times[1..], now);
    }
  }

  // ---------------------------------------------------------------------------
  // Cleaning streamed text

  /** The number of leading `c`s. */
  function RunOf(s: string, c: char): (n: nat)
    ensures n <= |s|
    ensures forall i :: 0 <= i < n ==> s[i] == c
    ensures n < |s| ==> s[n] != c
  {
    if s != [] && s[0] == c then 1 + RunOf(s[1..], c) else 0
  }

  /** `re.sub(c{3,}, cc, s)`: every run of three or more `c`s becomes two; the first and
      the last character are kept. */
  function Collapse(s: string, c: char): (r: string)
    ensures |r| <= |s|
    ensures s == [] <==> r == []
    ensures s != [] ==> r[0] == s[0] && r[|r| - 1] == s[|s| - 1]
    decreases |s|
  {
    if s == [] then []
    else
      var n := RunOf(s, c);
      if n >= 3 then [c, c] + Collapse(s[n..], c)
      else if n > 0 then s[..n] + Collapse(s[n..], c)
      else [s[0]] + Collapse(s[1..], c)
  }

  /** Three `c`s in a row start at index i. */
  predicate TripleAt(s: string, c: char, i: int)
    requires 0 <= i < |s| - 2
  {
    s[i] == c && s[i + 1] == c && s[i + 2] == c
  }

  /** No three `c`s in a row. */
  predicate NoTriple(s: string, c: char) {
    forall i :: 0 <= i < |s| - 2 ==> !TripleAt(s, c, i)
  }

  /** `s` without its `c`s. */
  function Erase(s: string, c: char): (r: string)
    ensures c !in r
  {
    if s == [] then [] else (if s[0] == c then [] else [s[0]]) + Erase(s[1..], c)
  }

  lemma {:induction false} EraseAppend(a: string, b: string, c: char)
    ensures Erase(a + b, c) == Erase(a, c) + Erase(b, c)
  {
    if a != [] {
      assert (a + b)[1..] == a[1..] + b;
      EraseAppend(a[1..], b, c);
    } else {
      assert a + b == b;
    }
  }

  lemma {:induction false} EraseRun(s: string, c: char, n: nat)
    requires n <= |s| && forall i :: 0 <= i < n ==> s[i] == c
    ensures Erase(s[..n], c) == []
    decreases n
  {
    if n > 0 {
      assert s[..n][1..] == s[1..][..n - 1];
      EraseRun(s[1..], c, n - 1);
    }
  }

  /** Collapsing removes only `c`s: every other character is kept, in order. */
  lemma {:induction false} CollapseKeepsOthers(s: string, c: char)
    ensures Erase(Collapse(s, c), c) == Erase(s, c)
    decreases |s|
  {
    if s != [] {
      var n := RunOf(s, c);
      if n > 0 {
        CollapseKeepsOthers(s[n..], c);
        RunKeepsOthers(s, c, n);
      } else {
        CollapseKeepsOthers(s[1..], c);
      }
    }
  }

  /** A leading run of `c`s leaves nothing after erasing, collapsed or not. */
  lemma RunKeepsOthers(s: string, c: char, n: nat)
    requires s != [] && n == RunOf(s, c) && n > 0
    requires Erase(Collapse(s[n..], c), c) == Erase(s[n..], c)
    ensures Erase(Collapse(s, c), c) == Erase(s, c)
  {
    assert s == s[..n] + s[n..];
    EraseAppend(s[..n], s[n..], c);
    EraseRun(s, c, n);
    if n >= 3 {
      var front := [c, c];
      assert Collapse(s, c) == front + Collapse(s[n..], c);
      EraseAppend(front, Collapse(s[n..], c), c);
      EraseRun(front, c, 2);
      assert front[..2] == front;
    } else {
      assert Collapse(s, c) == s[..n] + Collapse(s[n..], c);
      EraseAppend(s[..n], Collapse(s[n..], c), c);
    }
  }

  lemma NoTripleSuffix(s: string, c: char, k: nat)
    requires NoTriple(s, c) && k <= |s|
    ensures NoTriple(s[k..], c)
  {
    forall i | 0 <= i < |s[k..]| - 2
      ensures !TripleAt(s[k..], c, i)
    {
      assert !TripleAt(s, c, k + i);
      assert s[k..][i] == s[k + i] && s[k..][i + 1] == s[k + i + 1] && s[k..][i + 2] == s[k + i + 2];
    }
  }

  /** A short front whose last character is not `c` adds no triple. */
  lemma NoTripleAfterBreak(front: string, rest: string, c: char)
    requires 0 < |front| <= 2 && front[|front| - 1] != c && NoTriple(rest, c)
    ensures NoTriple(front + rest, c)
  {
    var s := front + rest;
    forall i | 0 <= i < |s| - 2 ensures !TripleAt(s, c, i) {
      if i >= |front| {
        assert !TripleAt(rest, c, i - |front|);
        assert s[i] == rest[i - |front|] && s[i + 1] == rest[i - |front| + 1] && s[i + 2] == rest[i - |front| + 2];
      } else if i == |front| - 1 {
        assert s[i] == front[|front| - 1];
      } else {
        assert s[i + 1] == front[|front| - 1];
      }
    }
  }

  /** A run of at most two `c`s followed by something not starting with `c` adds no triple. */
  lemma NoTripleBeforeBreak(front: string, rest: string, c: char)
    requires 0 < |front| <= 2 && (rest == [] || rest[0] != c) && NoTriple(rest, c)
    ensures NoTriple(front + rest, c)
  {
    var s := front + rest;
    forall i | 0 <= i < |s| - 2 ensures !TripleAt(s, c, i) {
      if i >= |front| {
        assert !TripleAt(rest, c, i - |front|);
        assert s[i] == rest[i - |front|] && s[i + 1] == rest[i - |front| + 1] && s[i + 2] == rest[i - |front| + 2];
      } else if i == |front| - 1 {
        assert s[i + 1] == rest[0];
      } else {
        assert s[i + 2] == rest[0];
      }
    }
  }

  /** After collapsing, no three `c`s remain in a row. */
  lemma {:induction false} CollapseNoTriple(s: string, c: char)
    ensures NoTriple(Collapse(s, c), c)
    decreases |s|
  {
    if s != [] {
      var n := RunOf(s, c);
      if n > 0 {
        CollapseNoTriple(s[n..], c);
        var front := if n >= 3 then [c, c] else s[..n];
        assert Collapse(s, c) == front + Collapse(s[n..], c);
        NoTripleBeforeBreak(front, Collapse(s[n..], c), c);
      } else {
        CollapseNoTriple(s[1..], c);
        NoTripleAfterBreak([s[0]], Collapse(s[1..], c), c);
      }
    }
  }

  /** Collapsing one character never creates a triple of another. */
  lemma {:induction false} CollapseKeepsNoTriple(s: string, c: char, d: char)
    requires c != d && NoTriple(s, d)
    ensures NoTriple(Collapse(s, c), d)
    decreases |s|
  {
    if s != [] {
      var n := RunOf(s, c);
      if n > 0 {
        NoTripleSuffix(s, d, n);
        CollapseKeepsNoTriple(s[n..], c, d);
        var front := if n >= 3 then [c, c] else s[..n];
        assert Collapse(s, c) == front + Collapse(s[n..], c);
        NoTripleAfterBreak(front, Collapse(s[n..], c), d);
      } else {
        NoTripleSuffix(s, d, 1);
        CollapseKeepsNoTriple(s[1..], c, d);
        var rest := Collapse(s[1..], c);
        var r := [s[0]] + rest;
        forall i | 0 <= i < |r| - 2 ensures !TripleAt(r, d, i) {
          if i > 0 {
            assert !TripleAt(rest, d, i - 1);
            assert r[i] == rest[i - 1] && r[i + 1] == rest[i] && r[i + 2] == rest[i + 1];
          } else if s[1] == d {
            assert RunOf(s[1..], c) == 0;
            assert rest == [s[1]] + Collapse(s[2..], c);
            assert !TripleAt(s, d, 0);
            assert r[1] == s[1] && r[2] == s[2];
          } else {
            assert r[1] == s[1];
          }
        }
      }
    }
  }

  /** Text without a triple is left as it is. */
  lemma {:induction false} CollapseFixed(s: string, c: char)
    requires NoTriple(s, c)
    ensures Collapse(s, c) == s
    decreases |s|
  {
    if s != [] {
      var n := RunOf(s, c);
      if n >= 3 {
        assert TripleAt(s, c, 0);
        assert false;
      }
      var k := if n > 0 then n else 1;
      assert s[..k] == (if n > 0 then s[..n] else [s[0]]);
      NoTripleSuffix(s, c, k);
      CollapseFixed(s[k..], c);
      assert s == s[..k] + s[k..];
    }
  }

  /** `_clean_response`: trimmed, then runs of 3+ `*` and of 3+ `_` shortened to two. */
  function CleanResponse(response: string): string {
    Collapse(Collapse(Strip(response), '*'), '_')
  }

  /** The cleaned text has no excessive bold or underline. */
  lemma CleanResponseNoTriple(response: string)
    ensures NoTriple(CleanResponse(response), '*') && NoTriple(CleanResponse(response), '_')
  {
    var a := Collapse(Strip(response), '*');
    CollapseNoTriple(Strip(response), '*');
    CollapseKeepsNoTriple(a, '_', '*');
    CollapseNoTriple(a, '_');
  }

  /** Cleaning loses nothing of the trimmed text but `*` and `_` characters. */
  lemma CleanResponseKeepsText(response: string)
    ensures Erase(Erase(CleanResponse(response), '*'), '_') == Erase(Erase(Strip(response), '*'), '_')
  {
    var s := Strip(response);
    var a := Collapse(s, '*');
    var r := Collapse(a, '_');
    CollapseKeepsOthers(s, '*');
    CollapseKeepsOthers(a, '_');
    EraseCommutes(a, '*', '_');
    EraseCommutes(r, '*', '_');
  }

  /** Cleaning a cleaned text changes nothing. */
  lemma CleanResponseIdempotent(response: string)
    ensures CleanResponse(CleanResponse(response)) == CleanResponse(response)
  {
    var r := CleanResponse(response);
    CleanResponseNoTriple(response);
    CleanResponseTrimmed(response);
    StripFixed(r);
    CollapseFixed(r, '*');
    CollapseFixed(r, '_');
  }

  /** The first and last characters survive both collapses, so the cleaned text is trimmed. */
  lemma CleanResponseTrimmed(response: string)
    ensures var r := CleanResponse(response); r == [] || (!IsSpace(r[0]) && !IsSpace(r[|r| - 1]))
  {
    var t := Strip(response);
    var a := Collapse(t, '*');
    assert CleanResponse(response) == Collapse(a, '_');
  }

  lemma {:induction false} EraseCommutes(s: string, c: char, d: char)
    ensures Erase(Erase(s, c), d) == Erase(Erase(s, d), c)
    decreases |s|
  {
    if s != [] {
      EraseCommutes(s[1..], c, d);
      var x := if s[0] == c then [] else [s[0]];
      var y := if s[0] == d then [] else [s[0]];
      EraseAppend(x, Erase(s[1..], c), d);
      EraseAppend(y, Erase(s[1..], d), c);
    }
  }

  // ---------------------------------------------------------------------------
  // Splitting long replies

  /** The length of the leading run of non-whitespace. */
  function WordLength(s: string): (n: nat)
    ensures n <= |s|
    ensures s != [] && !IsSpace(s[0]) ==> n > 0
  {
    if s != [] && !IsSpace(s[0]) then 1 + WordLength(s[1..]) else 0
  }

  /** Python's `s.split()`: the maximal runs of non-whitespace, in order. */
  function Words(s: string): (ws: seq<string>)
    decreases |s|
  {
    var t := StripLeft(s);
    if t == [] then [] else [t[..WordLength(t)]] + Words(t[WordLength(t)..])
  }

  /** The parts emitted so far and the buffer `current`. */
  datatype Packing = Packing(parts: seq<string>, current: string)

  /** One word of an over-long sentence, as written: a word that does not fit an empty buffer
      is cut at `maxLength`, and its tail, however long, becomes the buffer. */
  function WordStep(p: Packing, word: string, maxLength: nat): Packing {
    if |p.current + word + " "| <= maxLength then Packing(p.parts, p.current + word + " ")
    else if p.current != "" then Packing(p.parts + [Strip(p.current)], word + " ")
    else Packing(p.parts + [Take(word, maxLength)], word[Min(maxLength, |word|)..] + " ")
  }

  function PackWords(p: Packing, words: seq<string>, maxLength: nat): Packing
    decreases |words|
  {
    if words == [] then p else WordStep(PackWords(p, words[..|words| - 1], maxLength), words[|words| - 1], maxLength)
  }

  /** One '。'-separated piece, as written: empty pieces are skipped; a sentence that does not
      fit after a non-empty buffer becomes the buffer whatever its length; only a sentence that
      does not fit an empty buffer is split by words. */
  function SentenceStep(p: Packing, piece: string, maxLength: nat): Packing {
    if piece == "" then p
    else
      var sentence := piece + "。";
      if |p.current + sentence| <= maxLength then Packing(p.parts, p.current + sentence)
      else if p.current != "" then Packing(p.parts + [Strip(p.current)], sentence)
      else PackWords(p, Words(sentence), maxLength)
  }

  function PackSentences(p: Packing, pieces: seq<string>, maxLength: nat): Packing
    decreases |pieces|
  {
    if pieces == [] then p
    else SentenceStep(PackSentences(p, pieces[..|pieces| - 1], maxLength), pieces[|pieces| - 1], maxLength)
  }

  /** `_split_message` as written. */
  function SplitParts(text: string, maxLength: nat): seq<string> {
    if |text| <= maxLength then [text]
    else
      var p := PackSentences(Packing([], ""), Split(text, '。'), maxLength);
      if p.current != "" then p.parts + [Strip(p.current)] else p.parts
  }

  /** `_split_message`: sentences are packed into the buffer, over-long ones word by word. */
  method SplitMessage(text: string, maxLength: nat) returns (parts: seq<string>)
    ensures parts == SplitParts(text, maxLength)
  {
    if |text| <= maxLength {
      return [text];
    }
    parts := [];
    var current := "";
    var sentences := Split(text, '。');
    var i := 0;
    while i < |sentences|
      invariant i <= |sentences|
      invariant Packing(parts, current) == PackSentences(Packing([], ""), sentences[..i], maxLength)
    {
      assert sentences[..i + 1][..i] == sentences[..i];
      var sentence := sentences[i];
      if sentence != "" {
        sentence := sentence + "。";
        if |current + sentence| <= maxLength {
          current := current + sentence;
        } else if current != "" {
          parts := parts + [Strip(current)];
          current := sentence;
        } else {
          parts, current := PackWordsInto(parts, current, Words(sentence), maxLength);
        }
      }
      i := i + 1;
    }
    assert sentences[..i] == sentences;
    if current != "" {
      parts := parts + [Strip(current)];
    }
  }

  /** The word loop of `_split_message`, for a sentence too long for an empty buffer. */
  method PackWordsInto(parts0: seq<string>, current0: string, words: seq<string>, maxLength: nat)
    returns (parts: seq<string>, current: string)
    ensures Packing(parts, current) == PackWords(Packing(parts0, current0), words, maxLength)
  {
    parts, current := parts0, current0;
    var j := 0;
    while j < |words|
      invariant j <= |words|
      invariant Packing(parts, current) == PackWords(Packing(parts0, current0), words[..j], maxLength)
    {
      assert words[..j + 1][..j] == words[..j];
      var word := words[j];
      if |current + word + " "| <= maxLength {
        current := current + word + " ";
      } else if current != "" {
        parts := parts + [Strip(current)];
        current := word + " ";
      } else {
        parts := parts + [Take(word, maxLength)];
        current := word[Min(maxLength, |word|)..] + " ";
      }
      j := j + 1;
    }
    assert words[..j] == words;
  }

  /** Every part and the buffer fit. */
  predicate Fits(p: Packing, maxLength: nat) {
    |p.current| <= maxLength && forall k :: 0 <= k < |p.parts| ==> |p.parts[k]| <= maxLength
  }

  /** As written, the parts are bounded whenever every sentence fits on its own. */
  lemma {:induction false} PackSentencesFit(p: Packing, pieces: seq<string>, maxLength: nat)
    requires Fits(p, maxLength)
    requires forall k :: 0 <= k < |pieces| ==> |pieces[k]| + 1 <= maxLength
    ensures Fits(PackSentences(p, pieces, maxLength), maxLength)
    decreases |pieces|
  {
    if pieces != [] {
      var front := pieces[..|pieces| - 1];
      PackSentencesFit(p, front, maxLength);
      SentenceStepFits(PackSentences(p, front, maxLength), pieces[|pieces| - 1], maxLength);
    }
  }

  /** One sentence that fits on its own keeps every part within the limit. */
  lemma SentenceStepFits(q: Packing, piece: string, maxLength: nat)
    requires Fits(q, maxLength) && |piece| + 1 <= maxLength
    ensures Fits(SentenceStep(q, piece, maxLength), maxLength)
  {
    var sentence := piece + "。";
    if piece != "" && |q.current + sentence| > maxLength && q.current != "" {
      assert SentenceStep(q, piece, maxLength) == Packing(q.parts + [Strip(q.current)], sentence);
      assert |Strip(q.current)| <= maxLength;
    }
  }

  /** A short reply is sent whole; a longer one made of sentences that each fit is sent in
      parts that all fit. */
  lemma SplitPartsFit(text: string, maxLength: nat)
    requires forall k :: 0 <= k < |Split(text, '。')| ==> |Split(text, '。')[k]| + 1 <= maxLength
    ensures |text| <= maxLength ==> SplitParts(text, maxLength) == [text]
    ensures forall k :: 0 <= k < |SplitParts(text, maxLength)| ==> |SplitParts(text, maxLength)[k]| <= maxLength
  {
    if |text| > maxLength {
      PackSentencesFit(Packing([], ""), Split(text, '。'), maxLength);
    }
  }

  /** As written, a sentence that overflows a non-empty buffer becomes the next part however
      long it is: with a limit of 2, "a。bbb。" is split into "a。" and the 4-character
      "bbb。" (for any non-space letters a and b). */
  lemma SplitOverflowExample(a: char, b: char)
    requires a != '。' && b != '。' && !IsSpace(a) && !IsSpace(b)
    ensures SplitParts([a, '。', b, b, b, '。'], 2) == [[a, '。'], [b, b, b, '。']]
  {
    var p := Packing([[a, '。']], [b, b, b, '。']);
    SplitExamplePacked(a, b);
    SplitPartsLong([a, '。', b, b, b, '。'], 2, p);
    StripFixed(p.current);
  }

  lemma SplitExamplePacked(a: char, b: char)
    requires a != '。' && b != '。' && !IsSpace(a)
    ensures PackSentences(Packing([], ""), Split([a, '。', b, b, b, '。'], '。'), 2)
      == Packing([[a, '。']], [b, b, b, '。'])
  {
    SplitExamplePieces(a, b);
    SplitExamplePacking(a, b);
  }

  /** A long text ends with the stripped buffer left over after packing, when there is one. */
  lemma SplitPartsLong(text: string, maxLength: nat, p: Packing)
    requires |text| > maxLength && p.current != ""
    requires PackSentences(Packing([], ""), Split(text, '。'), maxLength) == p
    ensures SplitParts(text, maxLength) == p.parts + [Strip(p.current)]
  {
  }

  lemma SplitExamplePacking(a: char, b: char)
    requires !IsSpace(a)
    ensures PackSentences(Packing([], ""), [[a], [b, b, b], []], 2) == Packing([[a, '。']], [b, b, b, '。'])
  {
    var pieces: seq<string> := [[a], [b, b, b], []];
    assert pieces[..2] == [[a], [b, b, b]] && pieces[..2][..1] == [[a]] && pieces[..2][..1][..0] == [];
    assert PackSentences(Packing([], ""), [[a]], 2) == Packing([], [a, '。']);
    StripFixed([a, '。']);
    assert SentenceStep(Packing([], [a, '。']), [b, b, b], 2) == Packing([[a, '。']], [b, b, b, '。']);
  }

  lemma SplitExamplePieces(a: char, b: char)
    requires a != '。' && b != '。'
    ensures Split([a, '。', b, b, b, '。'], '。') == [[a], [b, b, b], []]
  {
    var text := [a, '。', b, b, b, '。'];
    var rest := [b, b, b, '。'];
    assert IndexOfChar(text, '。') == 1;
    assert text[..1] == [a] && text[2..] == rest;
    assert IndexOfChar(rest, '。') == 3;
    assert rest[..3] == [b, b, b] && rest[4..] == [];
    assert Split([], '。') == [[]];
    assert Split(rest, '。') == [[b, b, b], []];
  }

  // The intended splitter: a sentence or word that cannot fit is never left in the buffer.

  /** `word` in pieces of at most `maxLength` characters. */
  function Chunks(word: string, maxLength: nat): (r: seq<string>)
    requires maxLength > 0
    ensures forall k :: 0 <= k < |r| ==> |r[k]| <= maxLength
    decreases |word|
  {
    if |word| <= maxLength then [word] else [word[..maxLength]] + Chunks(word[maxLength..], maxLength)
  }

  function Flushed(p: Packing): seq<string> {
    if p.current != "" then p.parts + [Strip(p.current)] else p.parts
  }

  function WordStepBounded(p: Packing, word: string, maxLength: nat): Packing
    requires maxLength > 0
  {
    if |p.current + word + " "| <= maxLength then Packing(p.parts, p.current + word + " ")
    else if |word + " "| <= maxLength then Packing(Flushed(p), word + " ")
    else Packing(Flushed(p) + Chunks(word, maxLength), "")
  }

  function PackWordsBounded(p: Packing, words: seq<string>, maxLength: nat): Packing
    requires maxLength > 0
    decreases |words|
  {
    if words == [] then p
    else WordStepBounded(PackWordsBounded(p, words[..|words| - 1], maxLength), words[|words| - 1], maxLength)
  }

  function SentenceStepBounded(p: Packing, piece: string, maxLength: nat): Packing
    requires maxLength > 0
  {
    if piece == "" then p
    else
      var sentence := piece + "。";
      if |p.current + sentence| <= maxLength then Packing(p.parts, p.current + sentence)
      else if |sentence| <= maxLength then Packing(Flushed(p), sentence)
      else PackWordsBounded(Packing(Flushed(p), ""), Words(sentence), maxLength)
  }

  function PackSentencesBounded(p: Packing, pieces: seq<string>, maxLength: nat): Packing
    requires maxLength > 0
    decreases |pieces|
  {
    if pieces == [] then p
    else SentenceStepBounded(PackSentencesBounded(p, pieces[..|pieces| - 1], maxLength), pieces[|pieces| - 1], maxLength)
  }

  /** The splitter as intended: the same packing, but an overflowing sentence or word is
      broken up instead of becoming the buffer. */
  function SplitPartsBounded(text: string, maxLength: nat): seq<string>
    requires maxLength > 0
  {
    if |text| <= maxLength then [text]
    else Flushed(PackSentencesBounded(Packing([], ""), Split(text, '。'), maxLength))
  }

  lemma FlushedFits(p: Packing, maxLength: nat)
    requires Fits(p, maxLength)
    ensures forall k :: 0 <= k < |Flushed(p)| ==> |Flushed(p)[k]| <= maxLength
  {
  }

  lemma WordStepBoundedFits(p: Packing, word: string, maxLength: nat)
    requires maxLength > 0 && Fits(p, maxLength)
    ensures Fits(WordStepBounded(p, word, maxLength), maxLength)
  {
    FlushedFits(p, maxLength);
    if |p.current + word + " "| > maxLength && |word + " "| > maxLength {
      var r := Flushed(p) + Chunks(word, maxLength);
      forall k | 0 <= k < |r| ensures |r[k]| <= maxLength {
        if k >= |Flushed(p)| {
          assert r[k] == Chunks(word, maxLength)[k - |Flushed(p)|];
        }
      }
    }
  }

  lemma {:induction false} PackWordsBoundedFits(p: Packing, words: seq<string>, maxLength: nat)
    requires maxLength > 0 && Fits(p, maxLength)
    ensures Fits(PackWordsBounded(p, words, maxLength), maxLength)
    decreases |words|
  {
    if words != [] {
      PackWordsBoundedFits(p, words[..|words| - 1], maxLength);
      WordStepBoundedFits(PackWordsBounded(p, words[..|words| - 1], maxLength), words[|words| - 1], maxLength);
    }
  }

  lemma {:induction false} PackSentencesBoundedFits(p: Packing, pieces: seq<string>, maxLength: nat)
    requires maxLength > 0 && Fits(p, maxLength)
    ensures Fits(PackSentencesBounded(p, pieces, maxLength), maxLength)
    decreases |pieces|
  {
    if pieces != [] {
      var q := PackSentencesBounded(p, pieces[..|pieces| - 1], maxLength);
      PackSentencesBoundedFits(p, pieces[..|pieces| - 1], maxLength);
      FlushedFits(q, maxLength);
      var piece := pieces[|pieces| - 1];
      if piece != "" && |q.current + piece + "。"| > maxLength && |piece + "。"| > maxLength {
        PackWordsBoundedFits(Packing(Flushed(q), ""), Words(piece + "。"), maxLength);
      }
    }
  }

  /** Every part of the intended splitter fits, and a short reply is sent whole. */
  lemma SplitPartsBoundedFit(text: string, maxLength: nat)
    requires maxLength > 0
    ensures |text| <= maxLength ==> SplitPartsBounded(text, maxLength) == [text]
    ensures forall k :: 0 <= k < |SplitPartsBounded(text, maxLength)| ==> |SplitPartsBounded(text, maxLength)[k]| <= maxLength
  {
    if |text| > maxLength {
      var p := PackSentencesBounded(Packing([], ""), Split(text, '。'), maxLength);
      PackSentencesBoundedFits(Packing([], ""), Split(text, '。'), maxLength);
      FlushedFits(p, maxLength);
    }
  }

  /** `_send_response`: one message when it fits 1900 characters, otherwise the split parts. */
  function PartsToSend(response: string): (parts: seq<string>)
    ensures |response| <= SendLimit ==> parts == [response]
  {
    if |response| <= SendLimit then [response] else SplitParts(response, SendLimit)
  }

  // ---------------------------------------------------------------------------
  // Retries of the streaming call

  /** What one `run_stream` attempt produced: the chunks streamed before it finished or raised. */
  datatype Attempt = Attempt(chunks: seq<string>, raised: bool)

  const Apology: string := "抱歉，AI 服務暫時無法回應，請稍後再試。"

  /** The k-th attempt; attempts beyond those given raise without output. */
  function AttemptAt(attempts: seq<Attempt>, k: nat): Attempt {
    if k < |attempts| then attempts[k] else Attempt([], true)
  }

  /** The chunks yielded for one attempt: each chunk cleaned, empty ones dropped. */
  function Yielded(chunks: seq<string>): (r: seq<string>)
    ensures forall k :: 0 <= k < |r| ==> r[k] != ""
  {
    if chunks == [] then []
    else (if CleanResponse(chunks[0]) != "" then [CleanResponse(chunks[0])] else []) + Yielded(chunks[1..])
  }

  /** The index of the first attempt that did not raise, within the retry budget. */
  function FirstSuccess(attempts: seq<Attempt>, k: nat): (r: Option<nat>)
    ensures r.Some? ==> k <= r.value < AiMaxRetries && !AttemptAt(attempts, r.value).raised
    ensures r.Some? ==> forall j :: k <= j < r.value ==> AttemptAt(attempts, j).raised
    ensures r.None? ==> forall j :: k <= j < AiMaxRetries ==> AttemptAt(attempts, j).raised
    decreases AiMaxRetries - k
  {
    if k >= AiMaxRetries then None
    else if !AttemptAt(attempts, k).raised then Some(k)
    else FirstSuccess(attempts, k + 1)
  }

  /** Everything yielded from attempt k on: each attempt's chunks, up to the first one that
      finishes; the apology after the last allowed attempt fails. */
  function StreamFrom(attempts: seq<Attempt>, k: nat): seq<string>
    decreases AiMaxRetries - k
  {
    if k >= AiMaxRetries then []
    else
      var a := AttemptAt(attempts, k);
      Yielded(a.chunks) + (if !a.raised then [] else if k == AiMaxRetries - 1 then [Apology] else StreamFrom(attempts, k + 1))
  }

  /** What follows attempt k's own chunks in the stream from k. */
  function StreamStep(attempts: seq<Attempt>, k: nat): (rest: seq<string>)
    requires k < AiMaxRetries
    ensures StreamFrom(attempts, k) == Yielded(AttemptAt(attempts, k).chunks) + rest
  {
    var a := AttemptAt(attempts, k);
    if !a.raised then [] else if k == AiMaxRetries - 1 then [Apology] else StreamFrom(attempts, k + 1)
  }

  /** Everything the attempts before `n` yielded. */
  function YieldedBefore(attempts: seq<Attempt>, n: nat): seq<string>
  {
    if n == 0 then [] else YieldedBefore(attempts, n - 1) + Yielded(AttemptAt(attempts, n - 1).chunks)
  }

  /** The retry loop of `get_streaming_response`: at most `AI_MAX_RETRIES` attempts, stopping
      at the first that finishes, and the apology once the last one fails. */
  method StreamWithRetries(attempts: seq<Attempt>) returns (made: nat, out: seq<string>)
    ensures out == StreamFrom(attempts, 0)
    ensures made == match FirstSuccess(attempts, 0) case Some(k) => k + 1 case None => AiMaxRetries
  {
    out := [];
    var attempt := 0;
    while attempt < AiMaxRetries
      invariant attempt <= AiMaxRetries
      invariant FirstSuccess(attempts, 0) == FirstSuccess(attempts, attempt)
      invariant out + StreamFrom(attempts, attempt) == StreamFrom(attempts, 0)
    {
      var a := AttemptAt(attempts, attempt);
      ghost var rest := StreamStep(attempts, attempt);
      ghost var before := out;
      out := out + Yielded(a.chunks);
      AppendAssoc(before, Yielded(a.chunks), rest);
      if !a.raised {
        return attempt + 1, out;
      }
      if attempt == AiMaxRetries - 1 {
        out := out + [Apology];
        return attempt + 1, out;
      }
      attempt := attempt + 1;
    }
    made := attempt;
  }

  lemma Reassociate<T>(a: seq<T>, b: seq<T>, c: seq<T>, d: seq<T>)
    ensures a + (b + (c + d)) == a + b + c + d
  {
  }

  /** The apology closes the stream exactly when every allowed attempt raised, and then only
      after all three attempts' chunks; otherwise the stream is the chunks of the attempts up
      to and including the first that finished. */
  lemma RetryBound(attempts: seq<Attempt>)
    ensures FirstSuccess(attempts, 0).None? ==> StreamFrom(attempts, 0) == YieldedBefore(attempts, AiMaxRetries) + [Apology]
    ensures FirstSuccess(attempts, 0).Some? ==> StreamFrom(attempts, 0) == YieldedBefore(attempts, FirstSuccess(attempts, 0).value + 1)
  {
    var y0, y1, y2 := Yielded(AttemptAt(attempts, 0).chunks), Yielded(AttemptAt(attempts, 1).chunks), Yielded(AttemptAt(attempts, 2).chunks);
    assert YieldedBefore(attempts, 1) == y0;
    assert YieldedBefore(attempts, 2) == y0 + y1;
    assert YieldedBefore(attempts, 3) == y0 + y1 + y2;
    if !AttemptAt(attempts, 0).raised {
      assert StreamFrom(attempts, 0) == y0;
    } else if !AttemptAt(attempts, 1).raised {
      assert StreamFrom(attempts, 1) == y1;
      assert StreamFrom(attempts, 0) == y0 + y1;
    } else {
      var tail := if AttemptAt(attempts, 2).raised then [Apology] else [];
      assert StreamFrom(attempts, 2) == y2 + tail;
      assert StreamFrom(attempts, 1) == y1 + (y2 + tail);
      assert StreamFrom(attempts, 0) == y0 + (y1 + (y2 + tail));
      Reassociate(y0, y1, y2, tail);
    }
  }
}
