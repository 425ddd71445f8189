// The FAQ module: every message in an event's question channel gets its own thread, is
// stored as a question record, is answered from the event's Notion FAQ when one matches,
// and is closed by a persistent "mark done" button that staff or the asker may press.

module FaqThreads {
  import opened Common

  /** One event of the FAQ configuration. */
  datatype EventConfig = EventConfig(eventId: string, name: string, questionChannel: int,
                                     staffRole: int, notionPageId: string)

  /** An entry of the configuration file's "events" list. Missing ids arrive as `Some(0)`;
      `None` stands for a value `int()` rejects. */
  datatype ConfigItem = ConfigItem(eventId: Option<string>, name: Option<string>,
                                   questionChannel: Option<int>, staffRole: Option<int>,
                                   notionPageId: Option<string>, notionPageUrl: Option<string>)

  /** The last '-'-separated segment of a page id or URL, or "" when there is none. */
  function NotionId(raw: string): (id: string)
    ensures '-' !in id
    ensures EndsWith(raw, id)
    ensures '-' !in raw ==> id == raw
  {
    if raw == "" then ""
    else
      var parts := Split(raw, '-');
      LastPieceIsSuffix(raw);
      parts[|parts| - 1]
  }

  lemma {:induction false} LastPieceIsSuffix(s: string)
    ensures EndsWith(s, Split(s, '-')[|Split(s, '-')| - 1])
    decreases |s|
  {
    if '-' in s {
      var k := IndexOfChar(s, '-');
      LastPieceIsSuffix(s[k + 1..]);
      var t := s[k + 1..];
      var last := Split(t, '-')[|Split(t, '-')| - 1];
      assert Split(s, '-')[|Split(s, '-')| - 1] == last;
      assert s[|s| - |last|..] == t[|t| - |last|..];
    }
  }

  /** Normalising an id again changes nothing. */
  lemma NotionIdIdempotent(raw: string)
    ensures NotionId(NotionId(raw)) == NotionId(raw)
  {
  }

  /** `notion_page_id or notion_page_url or ""`: the first non-empty one. */
  function PageIdOf(item: ConfigItem): string {
    if item.notionPageId.Some? && item.notionPageId.value != "" then item.notionPageId.value
    else if item.notionPageUrl.Some? && item.notionPageUrl.value != "" then item.notionPageUrl.value
    else ""
  }

  /** The event an entry describes, or None when one of its ids is not an integer. */
  function ParseItem(item: ConfigItem): (ev: Option<EventConfig>)
    ensures ev.Some? <==> item.questionChannel.Some? && item.staffRole.Some?
    ensures ev.Some? ==> ev.value.notionPageId == NotionId(PageIdOf(item))
    ensures ev.Some? ==> ev.value.questionChannel == item.questionChannel.value
  {
    if item.questionChannel.None? || item.staffRole.None? then None
    else
      Some(EventConfig(
        if item.eventId.Some? then item.eventId.value else "",
        if item.name.Some? then item.name.value else "Event",
        item.questionChannel.value, item.staffRole.value, NotionId(PageIdOf(item))))
  }

  /** The registered events by question channel, and each event's FAQ database id. */
  datatype Registry = Registry(events: map<int, EventConfig>, databases: map<string, string>)

  /** An event is registered only when its question channel is set. */
  function Register(reg: Registry, ev: EventConfig): (r: Registry)
    ensures ev.questionChannel == 0 ==> r == reg
    ensures ev.questionChannel != 0 ==>
      r.events == reg.events[ev.questionChannel := ev]
      && r.databases == reg.databases[ev.eventId := ev.notionPageId]
  {
    if ev.questionChannel != 0 then
      Registry(reg.events[ev.questionChannel := ev], reg.databases[ev.eventId := ev.notionPageId])
    else reg
  }

  /** Loading the entries in order; an entry with a non-integer id ends the load, keeping
      what was registered before it. */
  function LoadItems(reg: Registry, items: seq<ConfigItem>): Registry
    decreases |items|
  {
    if items == [] then reg
    else
      match ParseItem(items[0])
      case None => reg
      case Some(ev) => LoadItems(Register(reg, ev), items[1..])
  }

  /** Events are keyed by their own, non-zero, question channel. */
  predicate WellKeyed(events: map<int, EventConfig>) {
    forall k :: k in events ==> k != 0 && events[k].questionChannel == k
  }

  lemma {:induction false} LoadItemsWellKeyed(reg: Registry, items: seq<ConfigItem>)
    requires WellKeyed(reg.events)
    ensures WellKeyed(LoadItems(reg, items).events)
    decreases |items|
  {
    if items != [] && ParseItem(items[0]).Some? {
      LoadItemsWellKeyed(Register(reg, ParseItem(items[0]).value), items[1..]);
    }
  }

  /** Both ids of the entry are integers, so it parses. */
  predicate Parses(item: ConfigItem) {
    item.questionChannel.Some? && item.staffRole.Some?
  }

  /** The question channels the entries name, in order. */
  function ChannelsOf(items: seq<ConfigItem>): (cs: seq<int>)
    requires forall i :: 0 <= i < |items| ==> Parses(items[i])
    ensures |cs| == |items|
  {
    if items == [] then []
    else
      assert Parses(items[0]);
      [items[0].questionChannel.value] + ChannelsOf(items[1..])
  }

  /** Loading entries that all parse registers exactly the channels already registered and
      every non-zero channel the entries name. */
  lemma {:induction false} LoadItemsRegisters(reg: Registry, items: seq<ConfigItem>, c: int)
    requires forall i :: 0 <= i < |items| ==> Parses(items[i])
    ensures c in LoadItems(reg, items).events <==> c in reg.events || (c != 0 && c in ChannelsOf(items))
    decreases |items|
  {
    if items != [] {
      var ev := ParseItem(items[0]).value;
      assert forall i :: 0 <= i < |items[1..]| ==> items[1..][i] == items[i + 1];
      LoadItemsRegisters(Register(reg, ev), items[1..], c);
    }
  }

  // ---------------------------------------------------------------------------
  // Thread names

  const MaxThreadName := 100
  const DefaultQuestion := "提問"

  /** The question shown in the thread name: the first line of the stripped message, or a
      placeholder for an empty one. */
  function QuestionLine(content: string): string {
    var raw := Strip(content);
    if raw == "" then DefaultQuestion else Strip(FirstLine(raw))
  }

  /** `{event}｜{question}`, the question cut so that the whole fits in 100 characters, but
      never to less than one character. */
  function ThreadName(eventName: string, content: string): (name: string)
  {
    var prefix := eventName + "｜";
    var q := QuestionLine(content);
    var room := MaxThreadName - |prefix|;
    prefix + (if |q| > room then Take(q, Max(1, room)) else q)
  }

  /** The name starts with the event's prefix, followed by the start of the question line;
      it fits in 100 characters whenever the prefix leaves room; a question that fits is kept
      whole. */
  lemma ThreadNameShape(eventName: string, content: string)
    ensures var name := ThreadName(eventName, content);
      var prefix := eventName + "｜";
      StartsWith(name, prefix) && name[|prefix|..] <= QuestionLine(content)
      && (|prefix| < MaxThreadName ==> |name| <= MaxThreadName)
      && (|prefix| + |QuestionLine(content)| <= MaxThreadName ==> name == prefix + QuestionLine(content))
  {
    var prefix := eventName + "｜";
    var name := ThreadName(eventName, content);
    assert name[..|prefix|] == prefix;
  }

  // ---------------------------------------------------------------------------
  // Question records

  /** A stored question; the `resolved...` fields are set when it is marked done. */
  datatype Question = Question(guild: int, channel: int, message: int, thread: int, user: int,
                               content: string, resolvedAt: Option<int>, resolvedBy: Option<int>,
                               resolutionType: Option<string>, faqStatus: Option<string>,
                               faqResponseAt: Option<int>)

  /** `resolution_type or "manual"`. */
  function KeptOrManual(t: Option<string>): (r: Option<string>)
    ensures r.Some? && r.value != ""
    ensures t.Some? && t.value != "" ==> r == t
  {
    if t.Some? && t.value != "" then t else Some("manual")
  }

  /** The resolve button's permission: the staff role or the asker. */
  predicate MayResolve(roles: seq<int>, user: int, staffRole: int, author: int) {
    staffRole in roles || user == author
  }

  datatype ResolveOutcome = Forbidden | AlreadyHandled | Resolved

  /** The button callback on the stored questions. */
  function ResolveStep(questions: map<string, Question>, id: string, allowed: bool, user: int,
                       now: int): (r: (ResolveOutcome, map<string, Question>))
    ensures r.0 != Resolved ==> r.1 == questions
    ensures r.0 == Resolved <==> allowed && id in questions && questions[id].resolvedAt.None?
    ensures r.0 == Resolved ==>
      r.1 == questions[id := questions[id].(resolvedAt := Some(now), resolvedBy := Some(user),
                                            resolutionType := KeptOrManual(questions[id].resolutionType))]
  {
    if !allowed then (Forbidden, questions)
    else if id !in questions || questions[id].resolvedAt.Some? then (AlreadyHandled, questions)
    else
      var q := questions[id];
      (Resolved, questions[id := q.(resolvedAt := Some(now), resolvedBy := Some(user),
                                   resolutionType := KeptOrManual(q.resolutionType))])
  }

  /** A question is resolved at most once: a second press is refused and changes nothing. */
  lemma ResolveOnce(questions: map<string, Question>, id: string, user: int, now: int,
                    user2: int, now2: int)
    requires ResolveStep(questions, id, true, user, now).0 == Resolved
    ensures var after := ResolveStep(questions, id, true, user, now).1;
      ResolveStep(after, id, true, user2, now2) == (AlreadyHandled, after)
  {
  }

  /** A question answered from the FAQ keeps "faq" as its resolution type. */
  lemma FaqResolutionKept(questions: map<string, Question>, id: string, user: int, now: int)
    requires id in questions && questions[id].resolutionType == Some("faq")
    requires ResolveStep(questions, id, true, user, now).0 == Resolved
    ensures ResolveStep(questions, id, true, user, now).1[id].resolutionType == Some("faq")
  {
  }

  /** Buttons re-registered at start-up: (question, staff role, asker) for every unresolved
      question in a configured channel. */
  function PersistentViews(questions: map<string, Question>, events: map<int, EventConfig>)
    : (views: set<(string, int, int)>)
    ensures forall id, role, user :: (id, role, user) in views <==>
      id in questions && questions[id].resolvedAt.None? && questions[id].channel in events
      && role == events[questions[id].channel].staffRole && user == questions[id].user
  {
    set id | id in questions && questions[id].resolvedAt.None? && questions[id].channel in events
      :: (id, events[questions[id].channel].staffRole, questions[id].user)
  }

  class FaqModule {
    var registry: Registry
    var questions: map<string, Question>

    ghost predicate Valid()
      reads this
    {
      WellKeyed(registry.events)
    }

    constructor()
      ensures Valid() && registry == Registry(map[], map[]) && questions == map[]
    {
      registry := Registry(map[], map[]);
      questions := map[];
    }

    /** `_load_event_config` over the file's entries (a missing file is an empty list). */
    method LoadEventConfig(items: seq<ConfigItem>)
      requires Valid()
      modifies this
      ensures Valid()
      ensures registry == LoadItems(old(registry), items) && questions == old(questions)
    {
      LoadItemsWellKeyed(registry, items);
      var i := 0;
      while i < |items|
        invariant 0 <= i <= |items|
        invariant LoadItems(old(registry), items) == LoadItems(registry, items[i..])
        invariant questions == old(questions)
      {
        assert items[i..][0] == items[i] && items[i..][1..] == items[i + 1..];
        var ev := ParseItem(items[i]);
        if ev.None? {
          return;
        }
        if ev.value.questionChannel != 0 {
          registry := Registry(registry.events[ev.value.questionChannel := ev.value],
                               registry.databases[ev.value.eventId := ev.value.notionPageId]);
        }
        i := i + 1;
      }
    }

    /** `_on_message`: a message from a person in a configured channel opens a thread and is
        stored under the new record id; a FAQ match marks the record answered. Returns the
        thread's name, or None when the message is ignored. */
    method OnMessage(authorIsBot: bool, inGuild: bool, guild: int, channel: int, message: int,
                     thread: int, user: int, content: string, newId: string, matched: bool,
                     now: int) returns (threadName: Option<string>)
      requires Valid()
      modifies this`questions
      ensures Valid() && registry == old(registry)
      ensures threadName.Some? <==> !authorIsBot && inGuild && channel in registry.events
      ensures threadName.None? ==> questions == old(questions)
      ensures threadName.Some? ==>
        threadName.value == ThreadName(registry.events[channel].name, content)
        && questions == old(questions)[newId := Question(guild, channel, message, thread, user, content,
             None, None, if matched then Some("faq") else None,
             if matched then Some("matched") else None, if matched then Some(now) else None)]
    {
      if authorIsBot || !inGuild || channel !in registry.events {
        return None;
      }
      var ev := registry.events[channel];
      threadName := Some(ThreadName(ev.name, content));
      var q := Question(guild, channel, message, thread, user, content, None, None, None, None, None);
      if matched {
        q := q.(faqResponseAt := Some(now), faqStatus := Some("matched"), resolutionType := Some("faq"));
      }
      questions := questions[newId := q];
    }

    /** The resolve button of question `id`, pressed by `user` holding `roles`. */
    method Resolve(id: string, staffRole: int, author: int, user: int, roles: seq<int>, now: int)
      returns (outcome: ResolveOutcome)
      requires Valid()
      modifies this
      ensures Valid() && registry == old(registry)
      ensures (outcome, questions)
        == ResolveStep(old(questions), id, MayResolve(roles, user, staffRole, author), user, now)
    {
      if !(staffRole in roles || user == author) {
        return Forbidden;
      }
      if id !in questions || questions[id].resolvedAt.Some? {
        return AlreadyHandled;
      }
      var q := questions[id];
      q := q.(resolvedAt := Some(now), resolvedBy := Some(user),
              resolutionType := if q.resolutionType.Some? && q.resolutionType.value != ""
                                then q.resolutionType else Some("manual"));
      questions := questions[id := q];
      outcome := Resolved;
    }
  }
}
