/** Support tickets: the category of a member's request (a photography-recruitment rule, then
    the AI's answer normalised to one of seven categories, or a keyword ladder when the AI is
    unavailable), the event a request is about, each category's title and staff role, and the
    channel permissions and role mentions that follow from that role. */
module Tickets {
  import opened Common

  // ---------------------------------------------------------------------------
  // Categories

  datatype Category = EventInquiry | Proposal | JoinUs | Resources | Sponsorship | Feedback | Other

  /** The name the bot shows and stores for a category. */
  function Label(c: Category): string {
    match c
    case EventInquiry => "活動諮詢"
    case Proposal => "提案活動"
    case JoinUs => "加入我們"
    case Resources => "資源需求"
    case Sponsorship => "贊助合作"
    case Feedback => "反饋投訴"
    case Other => "其他問題"
  }

  /** `category_mapping` followed by the validity check: the AI's answer, spelled as any of the
      accepted variants of a category, becomes that category; any other answer is Other. */
  function Normalise(text: string): Category {
    if text == "活動諮詢" || text == "活動咨詢" then EventInquiry
    else if text == "提案活動" then Proposal
    else if text == "加入我們" then JoinUs
    else if text == "資源需求" || text == "資源需要" then Resources
    else if text == "贊助合作" || text == "贊助" || text == "合作" || text == "贊助/合作" then Sponsorship
    else if text == "反饋投訴" || text == "反饋" || text == "投訴" || text == "反饋/投訴" then Feedback
    else Other
  }

  /** Every category's own name normalises to that category, so normalising a label changes
      nothing. */
  lemma NormaliseLabel(c: Category)
    ensures Normalise(Label(c)) == c
  {
  }

  /** An answer that is none of the accepted spellings is Other. */
  lemma NormaliseUnknown(text: string)
    requires text !in {"活動諮詢", "活動咨詢", "提案活動", "加入我們", "資源需求", "資源需要", "贊助合作", "贊助", "合作",
                       "贊助/合作", "反饋投訴", "反饋", "投訴", "反饋/投訴"}
    ensures Normalise(text) == Other
  {
  }

  // ---------------------------------------------------------------------------
  // analyze_user_message

  const PhotoWords: seq<string> := ["攝影", "影像", "相機", "錄影", "拍攝", "攝像"]
  const RecruitWords: seq<string> := ["招募", "徵", "加入"]

  /** A photography word together with a recruitment word. */
  predicate PhotoRecruitment(query: string) {
    ContainsAny(query, PhotoWords) && ContainsAny(query, RecruitWords)
  }

  /** The keyword ladder used when the AI is unavailable, rule by rule. */
  const EventWords: seq<string> := ["活動", "報名", "黑客松", "聯絡", "參加"]
  const ProposalWords: seq<string> := ["提案", "想法", "建議", "辦活動"]
  const JoinWords: seq<string> := ["加入", "志工", "志願者", "團隊成員"]
  const ResourceWords: seq<string> := ["資源", "場地", "設備", "教學"]
  const SponsorWords: seq<string> := ["贊助", "合作", "企業", "支持", "錢", "前"]
  const FeedbackWords: seq<string> := ["反饋", "投訴", "問題", "改進"]

  /** The ladder as a table: the first rule whose keywords occur decides. */
  const Ladder: seq<(seq<string>, Category)> := [
    (EventWords, EventInquiry), (ProposalWords, Proposal), (JoinWords, JoinUs),
    (ResourceWords, Resources), (SponsorWords, Sponsorship), (FeedbackWords, Feedback)]

  function FirstRule(rules: seq<(seq<string>, Category)>, query: string): (c: Category)
    ensures c == Other || exists i :: 0 <= i < |rules| && rules[i].1 == c
  {
    if rules == [] then Other
    else if ContainsAny(query, rules[0].0) then rules[0].1
    else
      var c := FirstRule(rules[1..], query);
      assert forall i :: 0 <= i < |rules| - 1 ==> rules[1..][i] == rules[i + 1];
      c
  }

  /** The local fallback of `analyze_user_message`, written as the source's if-chain. */
  function KeywordFallback(query: string): (r: (Category, string))
    ensures r.1 == (if PhotoRecruitment(query) then "photography_recruitment_rule_fallback" else "local_fallback")
  {
    if PhotoRecruitment(query) then (EventInquiry, "photography_recruitment_rule_fallback")
    else (Chain(query, EventWords, ProposalWords, JoinWords, ResourceWords, SponsorWords, FeedbackWords), "local_fallback")
  }

  /** The six keyword tests of the fallback, in the source's order. */
  function Chain(query: string, ev: seq<string>, pr: seq<string>, jo: seq<string>, re: seq<string>, sp: seq<string>, fb: seq<string>): Category {
    if ContainsAny(query, ev) then EventInquiry
    else if ContainsAny(query, pr) then Proposal
    else if ContainsAny(query, jo) then JoinUs
    else if ContainsAny(query, re) then Resources
    else if ContainsAny(query, sp) then Sponsorship
    else if ContainsAny(query, fb) then Feedback
    else Other
  }

  /** The if-chain is the table's first-match rule, and it answers Other exactly when no
      keyword of any rule occurs. */
  lemma ChainIsFirstRule(query: string, ev: seq<string>, pr: seq<string>, jo: seq<string>, re: seq<string>, sp: seq<string>, fb: seq<string>)
    ensures var l := [(ev, EventInquiry), (pr, Proposal), (jo, JoinUs), (re, Resources), (sp, Sponsorship), (fb, Feedback)];
      && Chain(query, ev, pr, jo, re, sp, fb) == FirstRule(l, query)
      && (Chain(query, ev, pr, jo, re, sp, fb) == Other <==> forall i :: 0 <= i < |l| ==> !ContainsAny(query, l[i].0))
  {
    var l := [(ev, EventInquiry), (pr, Proposal), (jo, JoinUs), (re, Resources), (sp, Sponsorship), (fb, Feedback)];
    assert l[5..][1..] == [];
    assert l[4..][1..] == l[5..];
    assert l[3..][1..] == l[4..];
    assert l[2..][1..] == l[3..];
    assert l[1..][1..] == l[2..];
    assert FirstRule(l[5..], query) == (if ContainsAny(query, fb) then Feedback else Other);
    assert FirstRule(l[4..], query) == (if ContainsAny(query, sp) then Sponsorship else FirstRule(l[5..], query));
    assert FirstRule(l[3..], query) == (if ContainsAny(query, re) then Resources else FirstRule(l[4..], query));
    assert FirstRule(l[2..], query) == (if ContainsAny(query, jo) then JoinUs else FirstRule(l[3..], query));
    assert FirstRule(l[1..], query) == (if ContainsAny(query, pr) then Proposal else FirstRule(l[2..], query));
    assert FirstRule(l, query) == (if ContainsAny(query, ev) then EventInquiry else FirstRule(l[1..], query));
  }

  lemma KeywordFallbackIsLadder(query: string)
    requires !PhotoRecruitment(query)
    ensures KeywordFallback(query).0 == FirstRule(Ladder, query)
    ensures KeywordFallback(query).0 == Other <==> forall i :: 0 <= i < |Ladder| ==> !ContainsAny(query, Ladder[i].0)
  {
    ChainIsFirstRule(query, EventWords, ProposalWords, JoinWords, ResourceWords, SponsorWords, FeedbackWords);
  }

  /** `analyze_user_message`: the photography-recruitment rule first; then the AI's answer
      (None when there is no classifier or it fails), stripped and normalised; without an
      answer the keyword ladder. Returns the category and which path decided it. */
  function AnalyzeUserMessage(userInput: string, aiAnswer: Option<string>): (r: (Category, string))
    ensures PhotoRecruitment(Lower(userInput)) ==> r == (EventInquiry, "photography_recruitment_rule")
    ensures !PhotoRecruitment(Lower(userInput)) && aiAnswer.Some? ==> r == (Normalise(Strip(aiAnswer.value)), "unified_ai_service")
    ensures !PhotoRecruitment(Lower(userInput)) && aiAnswer.None? ==> r.0 == FirstRule(Ladder, Lower(userInput)) && r.1 == "local_fallback"
  {
    var query := Lower(userInput);
    if PhotoRecruitment(query) then (EventInquiry, "photography_recruitment_rule")
    else if aiAnswer.Some? then (Normalise(Strip(aiAnswer.value)), "unified_ai_service")
    else
      KeywordFallbackIsLadder(query);
      KeywordFallback(query)
  }

  // ---------------------------------------------------------------------------
  // analyze_event

  datatype TicketEvent = TicketEvent(id: string, name: string, active: bool, keywords: seq<string>)

  const SpecialEventId: string := "5th_hsh_special_issues"

  function ActiveEvents(events: seq<TicketEvent>): (r: seq<TicketEvent>)
    ensures forall e :: e in r <==> e in events && e.active
    ensures |r| <= |events|
  {
    if events == [] then []
    else (if events[0].active then [events[0]] else []) + ActiveEvents(events[1..])
  }

  /** The first event with the given id. */
  function FindById(events: seq<TicketEvent>, id: string): (r: Option<TicketEvent>)
    ensures r.Some? ==> r.value in events && r.value.id == id
    ensures r.None? ==> forall e :: e in events ==> e.id != id
  {
    if events == [] then None
    else if events[0].id == id then Some(events[0])
    else FindById(events[1..], id)
  }

  /** Some keyword of the event occurs in the query, both lower-cased. */
  predicate KeywordHit(e: TicketEvent, query: string) {
    exists k :: k in e.keywords && Contains(Lower(query), Lower(k))
  }

  /** The first event, in order, whose keyword occurs in the query. */
  function FirstKeywordHit(events: seq<TicketEvent>, query: string): (r: Option<TicketEvent>)
    ensures r.Some? ==> r.value in events && KeywordHit(r.value, query)
    ensures r.None? ==> forall e :: e in events ==> !KeywordHit(e, query)
  {
    if events == [] then None
    else if KeywordHit(events[0], query) then Some(events[0])
    else FirstKeywordHit(events[1..], query)
  }

  /** `analyze_event`: the special photography event for a photography-recruitment request when
      it is configured; ("no_event", "未分類活動") with no active event; the active event the AI
      numbered (1-based, digits only) when that number is in range; else the first active event
      with a matching keyword; else the first active event. `aiAnswer` is None when the AI is
      unavailable or fails. */
  function AnalyzeEvent(query: string, events: seq<TicketEvent>, aiAnswer: Option<string>): (r: (string, string))
    ensures var active := ActiveEvents(events);
      r == ("no_event", "未分類活動") || (exists e :: e in active && r == (e.id, e.name))
      || (PhotoRecruitment(Lower(query)) && r.0 == SpecialEventId && exists e :: e in events && r == (e.id, e.name))
  {
    var special := FindById(events, SpecialEventId);
    if PhotoRecruitment(Lower(query)) && special.Some? then (special.value.id, special.value.name)
    else
      var active := ActiveEvents(events);
      if active == [] then ("no_event", "未分類活動")
      else
        var picked := PickedByNumber(active, aiAnswer);
        if picked.Some? then (picked.value.id, picked.value.name)
        else
          var hit := FirstKeywordHit(active, query);
          if hit.Some? then (hit.value.id, hit.value.name) else (active[0].id, active[0].name)
  }

  /** The AI's numbered choice, when it is digits only and names one of the active events. */
  function PickedByNumber(active: seq<TicketEvent>, aiAnswer: Option<string>): (r: Option<TicketEvent>)
    ensures r.Some? ==> r.value in active
  {
    if aiAnswer.None? then None
    else
      var text := Strip(aiAnswer.value);
      if !AllDigits(text) then None
      else
        var n := ParseDigits(text);
        if 1 <= n <= |active| then Some(active[n - 1]) else None
  }

  /** A digit-only reply n with 1 <= n <= the number of active events picks event n. */
  lemma NumberedReplyPicks(query: string, events: seq<TicketEvent>, n: nat)
    requires !PhotoRecruitment(Lower(query))
    requires 1 <= n <= |ActiveEvents(events)|
    ensures var e := ActiveEvents(events)[n - 1]; AnalyzeEvent(query, events, Some(NatToString(n))) == (e.id, e.name)
  {
    PickedNumber(ActiveEvents(events), n);
  }

  lemma PickedNumber(active: seq<TicketEvent>, n: nat)
    requires 1 <= n <= |active|
    ensures PickedByNumber(active, Some(NatToString(n))) == Some(active[n - 1])
  {
    var text := NatToString(n);
    assert IsDigit(text[0]) && IsDigit(text[|text| - 1]);
    StripFixed(text);
    ParseNatToString(n);
  }

  /** Without a usable number (no reply, a reply that is not digits only, or a number naming
      no active event), the first keyword match wins, and with no match the first active
      event. */
  lemma KeywordThenFirst(query: string, events: seq<TicketEvent>, aiAnswer: Option<string>)
    requires !PhotoRecruitment(Lower(query))
    requires ActiveEvents(events) != []
    requires PickedByNumber(ActiveEvents(events), aiAnswer).None?
    ensures var active := ActiveEvents(events);
      var hit := FirstKeywordHit(active, query);
      AnalyzeEvent(query, events, aiAnswer) == (if hit.Some? then (hit.value.id, hit.value.name) else (active[0].id, active[0].name))
  {
  }

  // ---------------------------------------------------------------------------
  // generate_ticket_info, channel permissions, role mentions

  const Customer: string := "CUSTOMER"
  const Developer: string := "DEVELOPER"
  const Both: string := "BOTH"
  const Admin: string := "ADMIN"

  /** `generate_ticket_info` without the welcome text: the channel title and the staff role. */
  function TicketInfo(kind: string): (r: (string, string))
    ensures r.1 == Developer <==> kind == "提案活動" || kind == "贊助合作"
    ensures r.1 == Both <==> kind == "加入我們"
    ensures r.1 == Customer <==> !(kind in {"提案活動", "贊助合作", "加入我們"})
    ensures !(kind in {"活動諮詢", "提案活動", "加入我們", "資源需求", "贊助合作", "反饋投訴"}) ==> r.0 == "一般諮詢"
  {
    if kind == "活動諮詢" then ("活動諮詢", Customer)
    else if kind == "提案活動" then ("提案活動", Developer)
    else if kind == "加入我們" then ("加入 HackIt", Both)
    else if kind == "資源需求" then ("資源需求", Customer)
    else if kind == "贊助合作" then ("贊助合作", Developer)
    else if kind == "反饋投訴" then ("反饋與建議", Customer)
    else ("一般諮詢", Customer)
  }

  /** Event sub-classification follows for event inquiries and join requests when any event is
      configured. */
  predicate NeedsEventCategorisation(kind: string, eventCount: nat) {
    kind in {"活動諮詢", "加入我們"} && eventCount > 0
  }

  /** The staff roles pinged in a new ticket channel: a request sent on to event
      sub-classification pings the customer role alone; any other ticket pings the roles of
      its ticket role (`finalize_ticket_creation`). */
  function CreationPinged(kind: string, eventCount: nat, roles: StaffRoles): seq<int> {
    if NeedsEventCategorisation(kind, eventCount) then NotifiedRoles(Customer, roles)
    else NotifiedRoles(TicketInfo(kind).1, roles)
  }

  /** With events configured, an event inquiry pings the same customer staff as it would
      without them, while a join request (a BOTH ticket) pings only the customer role: an
      existing developer role that BOTH would mention is not pinged. */
  lemma EventCategorisationPings(kind: string, eventCount: nat, roles: StaffRoles)
    requires NeedsEventCategorisation(kind, eventCount)
    ensures forall id :: id in CreationPinged(kind, eventCount, roles) <==> id == roles.customer && id in roles.existing
    ensures kind == "活動諮詢" ==> CreationPinged(kind, eventCount, roles) == NotifiedRoles(TicketInfo(kind).1, roles)
    ensures kind == "加入我們" && roles.developer in roles.existing && roles.developer != roles.customer ==>
      roles.developer in NotifiedRoles(TicketInfo(kind).1, roles) && roles.developer !in CreationPinged(kind, eventCount, roles)
  {
    assert CreationPinged(kind, eventCount, roles) == NotifiedRoles(Customer, roles);
    assert NotifiedRoles(Customer, roles) == Filter([roles.customer], (id: int) => id in roles.existing);
  }

  /** Who a channel overwrite is for. */
  datatype Target = Everyone | Bot | Member | StaffRole(id: int)

  datatype Overwrite = Overwrite(read: bool, send: bool, attach: bool, embed: bool, history: bool)

  const Hidden: Overwrite := Overwrite(false, false, false, false, false)
  const Visible: Overwrite := Overwrite(true, false, false, false, false)
  const MemberRights: Overwrite := Overwrite(true, false, true, true, true)
  const StaffRights: Overwrite := Overwrite(true, true, false, false, true)

  /** The guild's ticket staff role ids (0 when unset) and the role ids that exist. */
  datatype StaffRoles = StaffRoles(customer: int, developer: int, admin: int, existing: set<int>)

  /** The staff role `get_channel_overwrites` adds for a ticket role, if any. */
  function OverwriteRoleAsWritten(allowRole: string, roles: StaffRoles): (r: Option<int>)
    ensures r.Some? ==> r.value != 0 && r.value in roles.existing && r.value in NotifiedRoles(allowRole, roles)
    ensures allowRole == Both ==> r.None?
  {
    var id := if allowRole == Customer then roles.customer
              else if allowRole == Developer then roles.developer
              else if allowRole == Admin then roles.admin
              else 0;
    if id != 0 && id in roles.existing then Some(id) else None
  }

  /** `get_channel_overwrites` as written: hidden from everyone, visible to the bot, open to the
      member, and open to the one staff role the ticket role names; a BOTH ticket gets none. */
  function ChannelOverwritesAsWritten(allowRole: string, roles: StaffRoles): (o: map<Target, Overwrite>)
    ensures Everyone in o && Bot in o && Member in o
    ensures o[Everyone] == Hidden && o[Bot] == Visible && o[Member] == MemberRights
    ensures forall t :: t in o && t.StaffRole? ==> OverwriteRoleAsWritten(allowRole, roles) == Some(t.id) && o[t] == StaffRights
  {
    var base := map[Everyone := Hidden, Bot := Visible, Member := MemberRights];
    var r := OverwriteRoleAsWritten(allowRole, roles);
    if r.Some? then base[StaffRole(r.value) := StaffRights] else base
  }

  /** The roles `ticket_notify_allowRole` mentions: the customer role, the developer role, both
      for BOTH, and the admin role for anything else; roles the guild lacks are skipped. */
  function NotifiedRoles(allowRole: string, roles: StaffRoles): (ids: seq<int>)
    ensures forall i :: 0 <= i < |ids| ==> ids[i] in roles.existing
    ensures allowRole == Both ==> (roles.customer in roles.existing ==> roles.customer in ids) && (roles.developer in roles.existing ==> roles.developer in ids)
  {
    var wanted := if allowRole == Customer then [roles.customer]
                  else if allowRole == Developer then [roles.developer]
                  else if allowRole == Both then [roles.customer, roles.developer]
                  else [roles.admin];
    Filter(wanted, (id: int) => id in roles.existing)
  }

  function Mention(id: int): string {
    "<@&" + IntToString(id) + ">"
  }

  function Mentions(ids: seq<int>): (r: seq<string>)
    ensures |r| == |ids| && forall i :: 0 <= i < |ids| ==> r[i] == Mention(ids[i])
  {
    if ids == [] then [] else [Mention(ids[0])] + Mentions(ids[1..])
  }

  /** `ticket_notify_allowRole`: the mentions joined by spaces, "" when there is none. */
  function NotifyText(allowRole: string, roles: StaffRoles): (s: string)
    ensures NotifiedRoles(allowRole, roles) == [] <==> s == ""
  {
    var ms := Mentions(NotifiedRoles(allowRole, roles));
    if ms == [] then "" else
      assert |ms[0]| > 0;
      JoinNonEmpty(ms, " ");
      Join(ms, " ")
  }

  lemma JoinNonEmpty(parts: seq<string>, sep: string)
    requires parts != [] && |parts[0]| > 0
    ensures Join(parts, sep) != ""
  {
    if |parts| > 1 {
      assert Join(parts, sep) == parts[0] + sep + Join(parts[1..], sep);
    }
  }

  /** As written, the staff of a join request (BOTH) are pinged in the ticket channel yet get
      no permission to read it: with an existing customer role, it is mentioned but has no
      overwrite. */
  lemma BothTicketStaffLockedOut(roles: StaffRoles)
    requires roles.customer != 0 && roles.customer in roles.existing
    ensures roles.customer in NotifiedRoles(TicketInfo("加入我們").1, roles)
    ensures StaffRole(roles.customer) !in ChannelOverwritesAsWritten(TicketInfo("加入我們").1, roles)
  {
  }

  /** The staff roles a ticket role should open the channel to: exactly the existing roles its
      notification mentions, leaving out unset (0) ids. */
  function OverwriteRoles(allowRole: string, roles: StaffRoles): (ids: seq<int>)
    ensures forall id :: id in ids <==> id in NotifiedRoles(allowRole, roles) && id != 0
  {
    Filter(NotifiedRoles(allowRole, roles), (id: int) => id != 0)
  }

  function AddStaff(base: map<Target, Overwrite>, ids: seq<int>): (o: map<Target, Overwrite>)
    ensures forall t :: t in o <==> t in base || (t.StaffRole? && t.id in ids)
    ensures forall t :: t in o && !(t.StaffRole? && t.id in ids) ==> o[t] == base[t]
    ensures forall id :: id in ids ==> o[StaffRole(id)] == StaffRights
    decreases |ids|
  {
    if ids == [] then base else AddStaff(base[StaffRole(ids[0]) := StaffRights], ids[1..])
  }

  /** The overwrites as intended: every staff role pinged in the channel can read it. */
  function ChannelOverwrites(allowRole: string, roles: StaffRoles): (o: map<Target, Overwrite>)
    ensures Everyone in o && Bot in o && Member in o
    ensures o[Everyone] == Hidden && o[Bot] == Visible && o[Member] == MemberRights
    ensures forall id :: StaffRole(id) in o <==> id in NotifiedRoles(allowRole, roles) && id != 0
  {
    AddStaff(map[Everyone := Hidden, Bot := Visible, Member := MemberRights], OverwriteRoles(allowRole, roles))
  }

  /** For the three roles `generate_ticket_info` hands out, the intended overwrites agree with
      the written ones except that BOTH opens the channel to both staff roles. */
  lemma OverwritesAgreeOffBoth(allowRole: string, roles: StaffRoles)
    requires allowRole == Customer || allowRole == Developer
    ensures ChannelOverwrites(allowRole, roles) == ChannelOverwritesAsWritten(allowRole, roles)
  {
    var a := ChannelOverwrites(allowRole, roles);
    var b := ChannelOverwritesAsWritten(allowRole, roles);
    var id := if allowRole == Customer then roles.customer else roles.developer;
    assert NotifiedRoles(allowRole, roles) == (if id in roles.existing then [id] else []);
    assert forall t :: t in a <==> t in b;
  }
}
