/** Meeting-time surveys ("bridge time"): a session lists the mentioned participants, collects
    one reply per participant (a repeat reply overwrites the earlier one), completes exactly
    when everyone has replied, and is dropped from the active table once the result has been
    posted. Times are integer seconds. */
module BridgeTime {
  import opened Common

  datatype Response = Response(userId: int, username: string, content: string, respondedAt: int)

  datatype Session = Session(
    organizerId: int, guildId: int, channelId: int, messageId: int,
    participantIds: seq<int>, responses: seq<Response>, completed: bool, completedAt: Option<int>)

  /** `_parse_mentions`: the mentioned ids that resolve to a guild member, in mention order. */
  function ResolveMentions(ids: seq<int>, members: set<int>): (r: seq<int>)
    ensures forall i :: 0 <= i < |r| ==> r[i] in ids && r[i] in members
    ensures forall i :: 0 <= i < |ids| && ids[i] in members ==> ids[i] in r
    decreases |ids|
  {
    if ids == [] then []
    else
      var rest := ResolveMentions(ids[..|ids| - 1], members);
      assert forall i :: 0 <= i < |ids| - 1 ==> ids[i] == ids[..|ids| - 1][i];
      if ids[|ids| - 1] in members then rest + [ids[|ids| - 1]] else rest
  }

  /** The user ids that have replied, in reply order. */
  function Responders(rs: seq<Response>): (ids: seq<int>)
    ensures |ids| == |rs|
    ensures forall i :: 0 <= i < |rs| ==> ids[i] == rs[i].userId
  {
    if rs == [] then [] else [rs[0].userId] + Responders(rs[1..])
  }

  /** Every participant has a reply (the completion test of `_handle_response`). */
  predicate AllResponded(s: Session) {
    forall i :: 0 <= i < |s.participantIds| ==> s.participantIds[i] in Responders(s.responses)
  }

  /** `pending` of `_update_embed`: the participants without a reply, in participant order. */
  function PendingIds(participants: seq<int>, responded: seq<int>): (p: seq<int>)
    ensures forall i :: 0 <= i < |p| ==> p[i] in participants && p[i] !in responded
    ensures forall i :: 0 <= i < |participants| && participants[i] !in responded ==> participants[i] in p
    decreases |participants|
  {
    if participants == [] then []
    else
      var rest := PendingIds(participants[..|participants| - 1], responded);
      var last := participants[|participants| - 1];
      assert forall i :: 0 <= i < |participants| - 1 ==> participants[i] == participants[..|participants| - 1][i];
      if last !in responded then rest + [last] else rest
  }

  /** Nobody is pending exactly when everyone has replied. */
  lemma PendingEmptyIffAllResponded(s: Session)
    ensures PendingIds(s.participantIds, Responders(s.responses)) == [] <==> AllResponded(s)
  {
    var p := PendingIds(s.participantIds, Responders(s.responses));
    if p != [] {
      assert p[0] in s.participantIds && p[0] !in Responders(s.responses);
    }
  }

  /** At most one reply per user. */
  predicate UniqueResponders(rs: seq<Response>) {
    forall i, j :: 0 <= i < j < |rs| ==> rs[i].userId != rs[j].userId
  }

  /** What every stored session satisfies: at least one participant, only participants reply,
      at most once each, and the session is completed exactly when everyone has replied. */
  predicate SessionOk(s: Session) {
    && |s.participantIds| > 0
    && UniqueResponders(s.responses)
    && (forall i :: 0 <= i < |s.responses| ==> s.responses[i].userId in s.participantIds)
    && (s.completed <==> AllResponded(s))
  }

  /** A new session: the resolved participants, no reply yet, not completed. */
  function NewSession(organizerId: int, guildId: int, channelId: int, messageId: int, participants: seq<int>): (s: Session)
    requires participants != []
    ensures SessionOk(s) && !s.completed && s.responses == []
    ensures s.participantIds == participants
  {
    var s := Session(organizerId, guildId, channelId, messageId, participants, [], false, None);
    assert !AllResponded(s) by {
      assert participants[0] !in Responders([]);
    }
    s
  }

  /** Where `get_response` finds the user's earlier reply. */
  function ResponseIndex(rs: seq<Response>, userId: int): (k: Option<nat>)
    ensures k.Some? ==> k.value < |rs| && rs[k.value].userId == userId
    ensures k.None? ==> userId !in Responders(rs)
    decreases |rs|
  {
    if rs == [] then None
    else if rs[|rs| - 1].userId == userId then Some(|rs| - 1)
    else
      var k := ResponseIndex(rs[..|rs| - 1], userId);
      assert Responders(rs) == Responders(rs[..|rs| - 1]) + [rs[|rs| - 1].userId] by {
        assert rs == rs[..|rs| - 1] + [rs[|rs| - 1]];
        RespondersAppend(rs[..|rs| - 1], [rs[|rs| - 1]]);
      }
      k
  }

  lemma {:induction false} RespondersAppend(a: seq<Response>, b: seq<Response>)
    ensures Responders(a + b) == Responders(a) + Responders(b)
  {
    if a == [] {
      assert a + b == b;
    } else {
      assert (a + b)[1..] == a[1..] + b;
      RespondersAppend(a[1..], b);
    }
  }

  /** The replies after `userId` replies `content` at `now`: an earlier reply of theirs is
      overwritten in place, otherwise the reply is appended. */
  function Upserted(rs: seq<Response>, userId: int, username: string, content: string, now: int): (rs': seq<Response>)
  {
    var k := ResponseIndex(rs, userId);
    if k.Some? then rs[k.value := rs[k.value].(content := content, respondedAt := now)]
    else rs + [Response(userId, username, content, now)]
  }

  /** `_handle_response` on a session that is not completed: a non-participant changes nothing;
      a participant's reply is upserted, and the session completes once everyone has replied. */
  function Replied(s: Session, userId: int, username: string, content: string, now: int): (s': Session)
  {
    if userId !in s.participantIds then s
    else
      var s1 := s.(responses := Upserted(s.responses, userId, username, content, now));
      if AllResponded(s1) then s1.(completed := true, completedAt := Some(now)) else s1
  }

  /** An upsert keeps one reply per user; afterwards the replying users are the earlier ones
      plus `userId`, whose reply holds the new content, and every other user's reply is kept. */
  lemma UpsertedReplies(rs: seq<Response>, userId: int, username: string, content: string, now: int)
    requires UniqueResponders(rs)
    ensures var rs' := Upserted(rs, userId, username, content, now);
      && UniqueResponders(rs')
      && (forall x :: x in Responders(rs') <==> x in Responders(rs) || x == userId)
      && (forall i :: 0 <= i < |rs'| && rs'[i].userId == userId ==> rs'[i].content == content)
      && (forall i :: 0 <= i < |rs| && rs[i].userId != userId ==> rs[i] in rs')
  {
    var k := ResponseIndex(rs, userId);
    if k.Some? {
      UpsertExisting(rs, k.value, content, now);
    } else {
      UpsertNew(rs, Response(userId, username, content, now));
    }
  }

  lemma UpsertExisting(rs: seq<Response>, k: nat, content: string, now: int)
    requires UniqueResponders(rs) && k < |rs|
    ensures var rs' := rs[k := rs[k].(content := content, respondedAt := now)];
      && UniqueResponders(rs')
      && Responders(rs') == Responders(rs)
      && (forall i :: 0 <= i < |rs'| && rs'[i].userId == rs[k].userId ==> rs'[i].content == content)
      && (forall i :: 0 <= i < |rs| && rs[i].userId != rs[k].userId ==> rs[i] in rs')
  {
    var rs' := rs[k := rs[k].(content := content, respondedAt := now)];
    forall i | 0 <= i < |rs| && rs[i].userId != rs[k].userId ensures rs[i] in rs' {
      assert rs'[i] == rs[i];
    }
  }

  lemma UpsertNew(rs: seq<Response>, r: Response)
    requires UniqueResponders(rs) && r.userId !in Responders(rs)
    ensures UniqueResponders(rs + [r])
    ensures Responders(rs + [r]) == Responders(rs) + [r.userId]
    ensures forall i :: 0 <= i < |rs + [r]| && (rs + [r])[i].userId == r.userId ==> i == |rs|
  {
    RespondersAppend(rs, [r]);
  }

  /** A reply keeps the session invariant, and afterwards the user has a reply holding the new
      content while every other user's reply is as before. */
  lemma RepliedKeepsSessionOk(s: Session, userId: int, username: string, content: string, now: int)
    requires SessionOk(s) && !s.completed && userId in s.participantIds
    ensures var s' := Replied(s, userId, username, content, now);
      && SessionOk(s')
      && userId in Responders(s'.responses)
      && (forall i :: 0 <= i < |s'.responses| && s'.responses[i].userId == userId ==> s'.responses[i].content == content)
      && (forall i :: 0 <= i < |s.responses| && s.responses[i].userId != userId ==> s.responses[i] in s'.responses)
  {
    var rs' := Upserted(s.responses, userId, username, content, now);
    UpsertedReplies(s.responses, userId, username, content, now);
    var s1 := s.(responses := rs');
    assert forall i :: 0 <= i < |rs'| ==> rs'[i].userId in s.participantIds by {
      forall i | 0 <= i < |rs'| ensures rs'[i].userId in s.participantIds {
        assert rs'[i].userId == Responders(rs')[i];
        assert rs'[i].userId in Responders(s.responses) || rs'[i].userId == userId;
        if rs'[i].userId != userId {
          var j :| 0 <= j < |s.responses| && Responders(s.responses)[j] == rs'[i].userId;
          assert s.responses[j].userId == rs'[i].userId;
        }
      }
    }
    var s' := Replied(s, userId, username, content, now);
    assert s' == if AllResponded(s1) then s1.(completed := true, completedAt := Some(now)) else s1;
    assert AllResponded(s') == AllResponded(s1);
  }

  /** Replies from someone outside the participant list leave the session as it was. */
  lemma OutsiderIgnored(s: Session, userId: int, username: string, content: string, now: int)
    requires userId !in s.participantIds
    ensures Replied(s, userId, username, content, now) == s
  {
  }

  /** The session whose survey message `reference` replies to: the first not-completed session,
      in table order, with that message id. */
  function FirstOpenFor(keys: seq<string>, sessions: map<string, Session>, reference: int): (k: Option<nat>)
    requires forall i :: 0 <= i < |keys| ==> keys[i] in sessions
    ensures k.Some? ==> k.value < |keys| && sessions[keys[k.value]].messageId == reference && !sessions[keys[k.value]].completed
    ensures k.Some? ==> forall j :: 0 <= j < k.value ==> !(sessions[keys[j]].messageId == reference && !sessions[keys[j]].completed)
    ensures k.None? ==> forall j :: 0 <= j < |keys| ==> !(sessions[keys[j]].messageId == reference && !sessions[keys[j]].completed)
    decreases |keys|
  {
    if keys == [] then None
    else if sessions[keys[0]].messageId == reference && !sessions[keys[0]].completed then Some(0)
    else
      var k := FirstOpenFor(keys[1..], sessions, reference);
      if k.Some? then Some(k.value + 1) else None
  }

  class BridgeTimeModule {
    /** Active sessions by id, and their ids in insertion order (the dict's iteration order). */
    var sessions: map<string, Session>
    var order: seq<string>

    ghost predicate Valid()
      reads this
    {
      && NoDuplicates(order)
      && (forall k :: k in sessions <==> k in order)
      && (forall k :: k in sessions ==> SessionOk(sessions[k]))
    }

    constructor ()
      ensures Valid() && sessions == map[] && order == []
    {
      sessions := map[];
      order := [];
    }

    /** `_create_session`: with no mentioned id resolving to a member, the request is refused
        (false) and nothing is stored; otherwise a new session with those participants is
        stored under the fresh id `id`. */
    method CreateSession(id: string, organizerId: int, guildId: int, channelId: int, messageId: int,
                         mentionIds: seq<int>, members: set<int>) returns (created: bool)
      requires Valid() && id !in sessions
      modifies this
      ensures Valid()
      ensures created <==> ResolveMentions(mentionIds, members) != []
      ensures !created ==> sessions == old(sessions) && order == old(order)
      ensures created ==>
        && order == old(order) + [id]
        && sessions == old(sessions)[id := NewSession(organizerId, guildId, channelId, messageId, ResolveMentions(mentionIds, members))]
    {
      var participants := ResolveMentions(mentionIds, members);
      if participants == [] {
        return false;
      }
      sessions := sessions[id := NewSession(organizerId, guildId, channelId, messageId, participants)];
      order := order + [id];
      created := true;
    }

    /** `_on_message`: a reply by a human to the survey message of an open session goes to the
        first such session (`_handle_response`, which removes the session once the reply
        completes it and its result is posted); any other message changes nothing. */
    method OnMessage(authorIsBot: bool, reference: Option<int>, userId: int, username: string, content: string, now: int,
                     messageFetched: bool)
      requires Valid()
      modifies this
      ensures Valid()
      ensures authorIsBot || reference.None? || FirstOpenFor(old(order), old(sessions), reference.value).None? ==>
        sessions == old(sessions) && order == old(order)
      ensures !authorIsBot && reference.Some? && FirstOpenFor(old(order), old(sessions), reference.value).Some? ==>
        var key := old(order)[FirstOpenFor(old(order), old(sessions), reference.value).value];
        var s' := Replied(old(sessions)[key], userId, username, content, now);
        && (s'.completed && messageFetched ==>
              sessions == old(sessions) - {key} && order == RemoveKey(old(order), key))
        && (!(s'.completed && messageFetched) ==>
              sessions == old(sessions)[key := s'] && order == old(order))
    {
      if authorIsBot || reference.None? {
        return;
      }
      var i := 0;
      while i < |order|
        invariant i <= |order| && sessions == old(sessions) && order == old(order)
        invariant forall j :: 0 <= j < i ==> !(sessions[order[j]].messageId == reference.value && !sessions[order[j]].completed)
        decreases |order| - i
      {
        var s := sessions[order[i]];
        if s.messageId == reference.value && !s.completed {
          HandleResponse(order[i], userId, username, content, now, messageFetched);
          return;
        }
        i := i + 1;
      }
    }

    /** `_handle_response` on the open session `key`: the reply is recorded, and when it
        completes the session the analysis posts its result through `_send_result` (whatever
        the analysis gives, it ends there), which drops the session from the table when the
        survey message can be fetched (`messageFetched`). */
    method HandleResponse(key: string, userId: int, username: string, content: string, now: int,
                          messageFetched: bool)
      requires Valid() && key in sessions && !sessions[key].completed
      modifies this
      ensures Valid()
      ensures Replied(old(sessions)[key], userId, username, content, now).completed && messageFetched ==>
        && sessions == old(sessions) - {key}
        && order == RemoveKey(old(order), key)
      ensures !(Replied(old(sessions)[key], userId, username, content, now).completed && messageFetched) ==>
        && sessions == old(sessions)[key := Replied(old(sessions)[key], userId, username, content, now)]
        && order == old(order)
    {
      var s := sessions[key];
      if userId in s.participantIds {
        RepliedKeepsSessionOk(s, userId, username, content, now);
      }
      var s' := Replied(s, userId, username, content, now);
      ghost var before := sessions;
      sessions := sessions[key := s'];
      if s'.completed {
        SendResult(key, messageFetched);
        UpdateThenRemove(before, key, s');
      }
    }

    /** `_send_result`: once the result is posted the session leaves the active table; when the
        survey channel or message cannot be fetched nothing is posted and the session stays. */
    method SendResult(key: string, messageFetched: bool)
      requires Valid()
      modifies this
      ensures Valid()
      ensures messageFetched ==> sessions == old(sessions) - {key} && key !in sessions
      ensures messageFetched ==> forall k :: k in order <==> k in old(order) && k != key
      ensures messageFetched && key in old(sessions) ==> order == RemoveKey(old(order), key)
      ensures !messageFetched ==> sessions == old(sessions) && order == old(order)
    {
      if !messageFetched {
        return;
      }
      if key in sessions {
        order := RemoveKey(order, key);
      }
      sessions := sessions - {key};
    }
  }

  /** Removing a key forgets the value it was just given. */
  lemma UpdateThenRemove(m: map<string, Session>, key: string, v: Session)
    ensures m[key := v] - {key} == m - {key}
  {
  }

  /** The order without `key`. */
  function RemoveKey(order: seq<string>, key: string): (r: seq<string>)
    requires NoDuplicates(order)
    ensures NoDuplicates(r)
    ensures forall k :: k in r <==> k in order && k != key
    decreases |order|
  {
    if order == [] then []
    else
      assert NoDuplicates(order[1..]);
      var rest := RemoveKey(order[1..], key);
      assert order[0] !in order[1..];
      if order[0] == key then rest else [order[0]] + rest
  }
}
