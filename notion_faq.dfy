// The Notion FAQ service: reads an event's FAQ database into question/answer items and
// asks the AI for the number of the item that answers a user's question.

module NotionFaq {
  import opened Common

  /** A page property. Each text part is its "content", or None when the part lacks one
      (reading it raises, and the whole property reads as ""). A missing property is
      `Other`. */
  datatype Prop = Title(parts: seq<Option<string>>) | RichText(parts: seq<Option<string>>) | Other

  type Page = map<string, Prop>

  datatype FaqItem = FaqItem(question: string, answer: string, category: Option<string>)

  predicate Readable(parts: seq<Option<string>>) {
    forall i :: 0 <= i < |parts| ==> parts[i].Some?
  }

  function Contents(parts: seq<Option<string>>): (r: seq<string>)
    requires Readable(parts)
    ensures |r| == |parts|
    ensures forall i :: 0 <= i < |parts| ==> r[i] == parts[i].value
  {
    if parts == [] then [] else [parts[0].value] + Contents(parts[1..])
  }

  /** `_get_text`: the parts of a title or rich-text property joined by spaces; "" for any
      other property or an unreadable part. */
  function GetText(prop: Prop): (text: string)
    ensures text != "" ==> (prop.Title? || prop.RichText?) && Readable(prop.parts)
  {
    match prop
    case Other => ""
    case Title(parts) => if Readable(parts) then Join(Contents(parts), " ") else ""
    case RichText(parts) => if Readable(parts) then Join(Contents(parts), " ") else ""
  }

  /** A readable one-part property reads as that part; two parts read with one space. */
  lemma GetTextParts(a: string, b: string)
    ensures GetText(Title([Some(a)])) == a && GetText(RichText([Some(a)])) == a
    ensures GetText(Title([Some(a), Some(b)])) == a + " " + b
  {
    var two := [Some(a), Some(b)];
    assert Contents(two) == [a, b];
    assert [a, b][1..] == [b];
  }

  function PropOf(page: Page, name: string): Prop {
    if name in page then page[name] else Other
  }

  /** The first non-empty reading of the English name, then the Chinese one. */
  function Field(page: Page, english: string, chinese: string): (text: string)
    ensures GetText(PropOf(page, english)) != "" ==> text == GetText(PropOf(page, english))
    ensures GetText(PropOf(page, english)) == "" ==> text == GetText(PropOf(page, chinese))
  {
    var e := GetText(PropOf(page, english));
    if e != "" then e else GetText(PropOf(page, chinese))
  }

  function QuestionOf(page: Page): string { Field(page, "Question", "問題") }
  function AnswerOf(page: Page): string { Field(page, "Answer", "答案") }
  function CategoryOf(page: Page): string { Field(page, "Category", "分類") }

  /** The item a page gives: stripped question and answer, and the stripped category when
      there is one. */
  function ItemOf(page: Page): FaqItem {
    var c := CategoryOf(page);
    FaqItem(Strip(QuestionOf(page)), Strip(AnswerOf(page)), if c != "" then Some(Strip(c)) else None)
  }

  /** `_extract_items` as written: the test is on the unstripped texts. */
  function ExtractItemsAsWritten(pages: seq<Page>): (items: seq<FaqItem>)
    ensures |ExtractItems(pages)| <= |items| <= |pages|
  {
    if pages == [] then []
    else
      var rest := ExtractItemsAsWritten(pages[1..]);
      if QuestionOf(pages[0]) != "" && AnswerOf(pages[0]) != "" then [ItemOf(pages[0])] + rest else rest
  }

  /** A page whose question reads as a single space passes the test as written and gives an
      item with an empty question; the evidently meant version skips it. */
  lemma BlankQuestionKept(page: Page)
    requires QuestionOf(page) == " " && AnswerOf(page) != ""
    ensures ExtractItemsAsWritten([page]) == [ItemOf(page)] && ItemOf(page).question == ""
    ensures ExtractItems([page]) == []
  {
    assert StripLeft(" ") == "" by { assert " "[1..] == ""; }
    assert [page][1..] == [];
  }

  /** An item worth listing: question and answer non-empty after stripping. */
  predicate Listed(page: Page) {
    Strip(QuestionOf(page)) != "" && Strip(AnswerOf(page)) != ""
  }

  /** `_extract_items` as evidently meant: pages whose stripped question or answer is empty
      are skipped. */
  function ExtractItems(pages: seq<Page>): (items: seq<FaqItem>)
    ensures |items| <= |pages|
    ensures forall i :: 0 <= i < |items| ==> items[i].question != "" && items[i].answer != ""
  {
    if pages == [] then []
    else
      var rest := ExtractItems(pages[1..]);
      if Listed(pages[0]) then
        var item := ItemOf(pages[0]);
        FilledCons(item, rest);
        [item] + rest
      else rest
  }

  /** An item with both texts non-empty in front of such items. */
  lemma FilledCons(item: FaqItem, rest: seq<FaqItem>)
    requires item.question != "" && item.answer != ""
    requires forall i :: 0 <= i < |rest| ==> rest[i].question != "" && rest[i].answer != ""
    ensures forall i :: 0 <= i < |[item] + rest| ==> ([item] + rest)[i].question != "" && ([item] + rest)[i].answer != ""
  {
    forall i | 0 <= i < |[item] + rest|
      ensures ([item] + rest)[i].question != "" && ([item] + rest)[i].answer != ""
    {
      if i > 0 {
        assert ([item] + rest)[i] == rest[i - 1];
      }
    }
  }

  function ItemsOf(pages: seq<Page>): (items: seq<FaqItem>)
    ensures |items| == |pages|
  {
    if pages == [] then [] else [ItemOf(pages[0])] + ItemsOf(pages[1..])
  }

  /** Exactly the listed pages become items, in order. */
  lemma {:induction false} ExtractItemsExact(pages: seq<Page>)
    ensures ExtractItems(pages) == ItemsOf(Filter(pages, Listed))
    decreases |pages|
  {
    if pages != [] {
      ExtractItemsExact(pages[1..]);
      ListedCons(pages);
    }
  }

  /** The first page becomes the first item exactly when it is listed. */
  lemma ListedCons(pages: seq<Page>)
    requires pages != []
    ensures ItemsOf(Filter(pages, Listed))
         == (if Listed(pages[0]) then [ItemOf(pages[0])] else []) + ItemsOf(Filter(pages[1..], Listed))
  {
    var rest := Filter(pages[1..], Listed);
    FilterCons(pages, Listed);
    if Listed(pages[0]) {
      ItemsOfCons(pages[0], rest);
    } else {
      assert [] + rest == rest;
    }
  }

  lemma ItemsOfCons(p: Page, rest: seq<Page>)
    ensures ItemsOf([p] + rest) == [ItemOf(p)] + ItemsOf(rest)
  {
    assert ([p] + rest)[0] == p && ([p] + rest)[1..] == rest;
  }

  /** `get_all_faqs`: nothing without an API client or a database id, or when the query
      fails (`results` None); otherwise the items of the returned pages. */
  function AllFaqs(hasClient: bool, databaseId: string, results: Option<seq<Page>>): (items: seq<FaqItem>)
    ensures !hasClient || databaseId == "" || results.None? ==> items == []
  {
    if !hasClient || databaseId == "" || results.None? then [] else ExtractItems(results.value)
  }

  /** The numbered list the AI chooses from: `{n}. Q: {question}\nA: {answer}`, from 1. */
  function Listing(items: seq<FaqItem>): (lines: seq<string>)
    ensures |lines| == |items|
    ensures forall i :: 0 <= i < |items| ==>
      lines[i] == IntToString(i + 1) + ". Q: " + items[i].question + "\nA: " + items[i].answer
  {
    ListingFrom(items, 1)
  }

  function ListingFrom(items: seq<FaqItem>, first: int): (lines: seq<string>)
    ensures |lines| == |items|
    ensures forall i :: 0 <= i < |items| ==>
      lines[i] == IntToString(first + i) + ". Q: " + items[i].question + "\nA: " + items[i].answer
  {
    if items == [] then []
    else
      [IntToString(first) + ". Q: " + items[0].question + "\nA: " + items[0].answer]
      + ListingFrom(items[1..], first + 1)
  }

  /** `find_matching_faq`: the item whose number the AI answered, when it answered a number
      between 1 and the number of items; None without items, without an agent, when the
      call fails (`reply` None) or for any other answer. */
  function FindMatchingFaq(items: seq<FaqItem>, hasAgent: bool, reply: Option<string>): (r: Option<FaqItem>)
    ensures r.Some? ==> r.value in items
  {
    if items == [] || !hasAgent || reply.None? then None
    else
      match ParseInt(Strip(reply.value))
      case Some(idx) => if 1 <= idx <= |items| then Some(items[idx - 1]) else None
      case None => None
  }

  /** A printed number has no surrounding whitespace. */
  lemma NumeralStripped(n: int)
    ensures Strip(IntToString(n)) == IntToString(n)
  {
    var s := IntToString(n);
    if n < 0 {
      var d := NatToString(-n);
      assert s == "-" + d && s[|s| - 1] == d[|d| - 1];
      assert IsDigit(d[|d| - 1]);
    } else {
      assert IsDigit(s[0]) && IsDigit(s[|s| - 1]);
    }
    StripFixed(s);
  }

  /** What a reply that reads as the integer `idx` selects. */
  lemma ReplyNumber(items: seq<FaqItem>, reply: string, idx: int)
    requires ParseInt(Strip(reply)) == Some(idx)
    ensures FindMatchingFaq(items, true, Some(reply))
      == if items != [] && 1 <= idx <= |items| then Some(items[idx - 1]) else None
  {
  }

  /** An answer `n` picks exactly the item listed as number n. */
  lemma ReplyPicksListed(items: seq<FaqItem>, n: int)
    requires 1 <= n <= |items|
    ensures FindMatchingFaq(items, true, Some(IntToString(n))) == Some(items[n - 1])
    ensures StartsWith(Listing(items)[n - 1], IntToString(n) + ". ")
  {
    NumeralStripped(n);
    ParseIntToString(n);
    ReplyNumber(items, IntToString(n), n);
    ListedUnderNumber(items, n);
  }

  lemma ListedUnderNumber(items: seq<FaqItem>, n: int)
    requires 1 <= n <= |items|
    ensures StartsWith(Listing(items)[n - 1], IntToString(n) + ". ")
  {
    var p := IntToString(n) + ". ";
    var t := IntToString(n) + ". Q: ";
    var q := items[n - 1];
    var withQuestion := t + q.question;
    var withMark := withQuestion + "\nA: ";
    assert Listing(items)[n - 1] == withMark + q.answer;
    assert t == p + "Q: ";
    assert p <= t && t <= withQuestion && withQuestion <= withMark && withMark <= withMark + q.answer;
  }

  /** The "no match" answer 0, or a number past the list, gives nothing. */
  lemma OutOfRangeReplyIgnored(items: seq<FaqItem>, n: int)
    requires n < 1 || n > |items|
    ensures FindMatchingFaq(items, true, Some(IntToString(n))).None?
  {
    NumeralStripped(n);
    ParseIntToString(n);
    ReplyNumber(items, IntToString(n), n);
  }
}
