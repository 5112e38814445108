/**
 * The match service (Application/UseCases/MatchServices.cs): it builds match
 * records for the store, shapes the store's answers for callers, provisions a
 * chat for a new match and joins the ranking with user profiles.
 */
module MatchServices {
  import opened Wrappers
  import opened Domain
  import opened Lookup

  /** The sentinel chat id reported when the chat service did not create a chat. */
  const NoChat := -1

  /*
   * CreateMatch: store a fresh record for the pair, then ask the chat service
   * for a chat. A record the store did not accept ends the operation; a chat
   * the gateway did not create is reported with the sentinel.
   */
  function CreateMatch(request: MatchRequest, now: Time, b: Backends): (run: Run<Option<CreateResponse>>)
    // the store is asked first, with the request's pair and nothing seen yet
    ensures |run.calls| >= 1 && run.calls[0].StoreCreate?
    ensures var m := run.calls[0].record;
      m.user1Id == request.user1 && m.user2Id == request.user2 && m.createdAt == now && !m.view1 && !m.view2
    // a failed or rejected write ends the operation before any chat is requested
    ensures var stored := b.createMatch(run.calls[0].record);
      stored.Threw? ==> run.outcome.Threw? && |run.calls| == 1
    ensures var stored := b.createMatch(run.calls[0].record);
      stored == Returned(None) ==> run.outcome == Returned(None) && |run.calls| == 1
    // once the store holds the record, the chat is requested for the same pair
    ensures var stored := b.createMatch(run.calls[0].record);
      stored.Returned? && stored.value.Some? ==>
        && run.calls == [run.calls[0], ChatCreate(request.user1, request.user2)]
        && var chat := b.createChat(request.user1, request.user2);
        && (chat.Threw? ==> run.outcome.Threw?)
        && (chat.Returned? ==>
              && run.outcome.Returned? && run.outcome.value.Some?
              && run.outcome.value.value.id == stored.value.value.matchId
              && run.outcome.value.value.chatId == (if chat.value.Some? then chat.value.value else NoChat))
  {
    var m := Match(0, request.user1, request.user2, now, false, false);
    match b.createMatch(m)
    case Threw => Run(Threw, [StoreCreate(m)])
    case Returned(None) => Run(Returned(None), [StoreCreate(m)])
    case Returned(Some(created)) =>
      var calls := [StoreCreate(m), ChatCreate(m.user1Id, m.user2Id)];
      match b.createChat(m.user1Id, m.user2Id)
      case Threw => Run(Threw, calls)
      case Returned(Some(chatId)) => Run(Returned(Some(CreateResponse(created.matchId, chatId))), calls)
      case Returned(None) => Run(Returned(Some(CreateResponse(created.matchId, NoChat))), calls)
  }

  /** GetById: the stored match's id and pair, or None when the store has no such id. */
  function GetById(id: int, b: Backends): (run: Run<Option<MatchResponse>>)
    ensures run.calls == [StoreGetById(id)]
    ensures b.matchById(id).Threw? <==> run.outcome.Threw?
    ensures b.matchById(id) == Returned(None) <==> run.outcome == Returned(None)
    ensures run.outcome.Returned? && run.outcome.value.Some? ==>
      var m, r := b.matchById(id).value.value, run.outcome.value.value;
      r.id == m.matchId && r.user1 == m.user1Id && r.user2 == m.user2Id
    // the view flags are never copied, so the response reports neither user as having seen the match
    ensures run.outcome.Returned? && run.outcome.value.Some? ==> !run.outcome.value.value.view1 && !run.outcome.value.value.view2
  {
    var calls := [StoreGetById(id)];
    match b.matchById(id)
    case Threw => Run(Threw, calls)
    case Returned(None) => Run(Returned(None), calls)
    case Returned(Some(m)) => Run(Returned(Some(MatchResponse(m.matchId, m.user1Id, m.user2Id, false, false))), calls)
  }

  /** GetByUsersIds: the match the store finds for the pair, all fields copied, or None. */
  function GetByUsersIds(user1: int, user2: int, b: Backends): (run: Run<Option<MatchResponse>>)
    ensures run.calls == [StoreGetByUsers(user1, user2)]
    ensures b.matchByUsers(user1, user2).Threw? <==> run.outcome.Threw?
    ensures b.matchByUsers(user1, user2) == Returned(None) <==> run.outcome == Returned(None)
    ensures run.outcome.Returned? && run.outcome.value.Some? ==>
      var m, r := b.matchByUsers(user1, user2).value.value, run.outcome.value.value;
      r.id == m.matchId && r.user1 == m.user1Id && r.user2 == m.user2Id && r.view1 == m.view1 && r.view2 == m.view2
  {
    var calls := [StoreGetByUsers(user1, user2)];
    match b.matchByUsers(user1, user2)
    case Threw => Run(Threw, calls)
    case Returned(None) => Run(Returned(None), calls)
    case Returned(Some(m)) => Run(Returned(Some(MatchResponse(m.matchId, m.user1Id, m.user2Id, m.view1, m.view2))), calls)
  }

  /*
   * GetByUserId: the requested user is put in slot 1 and the other user in
   * slot 2; the view flags stay in storage order.
   */
  function Normalise(userId: int, m: Match): (r: MatchResponse)
    ensures r.id == m.matchId && r.view1 == m.view1 && r.view2 == m.view2
    // a participant sees itself in slot 1 and its counterpart in slot 2, the pair unchanged
    ensures userId == m.user1Id || userId == m.user2Id ==>
      && r.user1 == userId
      && r.user2 == (if m.user1Id == userId then m.user2Id else m.user1Id)
      && multiset{r.user1, r.user2} == multiset{m.user1Id, m.user2Id}
    // anyone else gets the stored User2Id in both slots
    ensures userId != m.user1Id && userId != m.user2Id ==> r.user1 == m.user2Id && r.user2 == m.user2Id
  {
    MatchResponse(
      m.matchId,
      if userId == m.user1Id then m.user1Id else m.user2Id,
      if userId != m.user2Id then m.user2Id else m.user1Id,
      m.view1,
      m.view2)
  }

  /** Every stored match normalised for `userId`, one response per match, in store order. */
  function NormalisedList(userId: int, ms: seq<Match>): (rs: seq<MatchResponse>)
    ensures |rs| == |ms|
    ensures forall k :: 0 <= k < |ms| ==> rs[k] == Normalise(userId, ms[k])
  {
    if ms == [] then [] else NormalisedList(userId, ms[..|ms| - 1]) + [Normalise(userId, ms[|ms| - 1])]
  }

  /** When the store only returns the user's own matches, every response has the user in slot 1. */
  lemma RequesterInSlotOne(userId: int, ms: seq<Match>, k: int)
    requires forall j :: 0 <= j < |ms| ==> userId == ms[j].user1Id || userId == ms[j].user2Id
    requires 0 <= k < |ms|
    ensures NormalisedList(userId, ms)[k].user1 == userId
    ensures multiset{NormalisedList(userId, ms)[k].user1, NormalisedList(userId, ms)[k].user2}
         == multiset{ms[k].user1Id, ms[k].user2Id}
  {
  }

  method GetByUserId(userId: int, b: Backends) returns (outcome: Reply<seq<MatchResponse>>, calls: seq<Call>)
    ensures calls == [StoreGetByUserId(userId)]
    ensures b.matchesByUser(userId).Threw? <==> outcome.Threw?
    ensures b.matchesByUser(userId).Returned? ==> outcome == Returned(NormalisedList(userId, b.matchesByUser(userId).value))
  {
    calls := [StoreGetByUserId(userId)];
    var stored := b.matchesByUser(userId);
    if stored.Threw? {
      return Threw, calls;
    }
    var matches := stored.value;
    var responses: seq<MatchResponse> := [];
    if |matches| == 0 {
      return Returned(responses), calls;
    }
    for i := 0 to |matches|
      invariant responses == NormalisedList(userId, matches[..i])
    {
      assert matches[..i + 1][..i] == matches[..i];
      responses := responses + [Normalise(userId, matches[i])];
    }
    assert matches[..|matches|] == matches;
    outcome := Returned(responses);
  }

  /*
   * UpdateMatch: rebuild the whole record from the request and hand it to the
   * store. The record carries no MatchId (its default 0) and a fresh CreatedAt.
   */
  function UpdateMatch(request: MatchRequestUpdate, now: Time, b: Backends): (run: Run<bool>)
    ensures |run.calls| == 1 && run.calls[0].StoreUpdate?
    ensures var w := run.calls[0].record;
      && w.user1Id == request.user1 && w.user2Id == request.user2
      && w.view1 == request.view1 && w.view2 == request.view2
      && w.matchId == 0 && w.createdAt == now
    // never throws: true when the store call returned, false when it threw
    ensures run.outcome == Returned(b.updateMatch(run.calls[0].record).Returned?)
  {
    var m := Match(0, request.user1, request.user2, now, request.view1, request.view2);
    match b.updateMatch(m)
    case Threw => Run(Returned(false), [StoreUpdate(m)])
    case Returned(_) => Run(Returned(true), [StoreUpdate(m)])
  }

  /*
   * GetTopMatchUser: the store's ranked rows joined with one batched profile
   * lookup. Every exception, including the one from iterating a null row list
   * or searching a null profile list, makes the whole ranking null.
   */

  /** The ranked user ids, in rank order. */
  function RankedIds(top: seq<TopUser>): (ids: seq<int>)
    ensures |ids| == |top|
    ensures forall k :: 0 <= k < |top| ==> ids[k] == top[k].userId
  {
    if top == [] then [] else RankedIds(top[..|top| - 1]) + [top[|top| - 1].userId]
  }

  /** The first profile carrying `userId`, or None. */
  function ProfileOf(profiles: seq<UserProfile>, userId: int): (r: Option<UserProfile>)
    ensures r.None? <==> forall p :: p in profiles ==> p.userId != userId
    ensures r.Some? ==> exists k ::
      && 0 <= k < |profiles| && profiles[k] == r.value && r.value.userId == userId
      && forall j :: 0 <= j < k ==> profiles[j].userId != userId
  {
    FirstWhere(profiles, (p: UserProfile) => p.userId == userId)
  }

  /** One entry per ranked row, in rank order, each with the row's first matching profile. */
  function Ranked(top: seq<TopUser>, profiles: seq<UserProfile>): (r: seq<RankEntry>)
    ensures |r| == |top|
    ensures forall k :: 0 <= k < |top| ==>
      && r[k].userId == top[k].userId && r[k].matchQty == top[k].matchQty
      && r[k].userResponse == ProfileOf(profiles, top[k].userId)
  {
    if top == [] then []
    else
      var last := top[|top| - 1];
      Ranked(top[..|top| - 1], profiles) + [RankEntry(last.userId, last.matchQty, ProfileOf(profiles, last.userId))]
  }

  /** What GetTopMatchUser returns for the given backends. */
  function Ranking(b: Backends): (r: Option<seq<RankEntry>>)
    // no rows (an exception, or a null list that cannot be iterated): no ranking
    ensures !(b.topMatchUsers.Returned? && b.topMatchUsers.value.Some?) ==> r.None?
    ensures b.topMatchUsers.Returned? && b.topMatchUsers.value.Some? ==>
      var top := b.topMatchUsers.value.value;
      var info := b.getUsers(RankedIds(top));
      // the profile lookup threw, or sent null while there was a row to join: no ranking
      && (r.None? <==> info.Threw? || (info.value.None? && top != []))
      // otherwise every row, in rank order, with its first profile or an explicit absence
      && (r.Some? ==> |r.value| == |top| && forall k :: 0 <= k < |top| ==>
            && r.value[k].userId == top[k].userId && r.value[k].matchQty == top[k].matchQty
            // the first profile carrying the row's id (FirstOrDefault)
            && r.value[k].userResponse == ProfileOf(info.value.value, top[k].userId)
            && (r.value[k].userResponse.Some? ==>
                  r.value[k].userResponse.value.userId == top[k].userId && r.value[k].userResponse.value in info.value.value)
            && (r.value[k].userResponse.None? <==> forall p :: p in info.value.value ==> p.userId != top[k].userId))
  {
    match b.topMatchUsers
    case Threw => None
    case Returned(None) => None
    case Returned(Some(top)) =>
      match b.getUsers(RankedIds(top))
      case Threw => None
      case Returned(None) => if top == [] then Some([]) else None
      case Returned(Some(profiles)) => Some(Ranked(top, profiles))
  }

  method GetTopMatchUser(b: Backends) returns (ranking: Option<seq<RankEntry>>, calls: seq<Call>)
    ensures ranking == Ranking(b)
    // the profile service is asked once, with the ranked ids in rank order, and only when there are rows
    ensures b.topMatchUsers.Returned? && b.topMatchUsers.value.Some? ==>
      calls == [StoreTopUsers, ProfileLookup(RankedIds(b.topMatchUsers.value.value))]
    ensures !(b.topMatchUsers.Returned? && b.topMatchUsers.value.Some?) ==> calls == [StoreTopUsers]
  {
    calls := [StoreTopUsers];
    var rows := b.topMatchUsers;
    if rows.Threw? || rows.value.None? {
      return None, calls;
    }
    var topUsers := rows.value.value;
    var listTopUsers: seq<int> := [];
    for i := 0 to |topUsers|
      invariant |listTopUsers| == i
      invariant forall k :: 0 <= k < i ==> listTopUsers[k] == topUsers[k].userId
    {
      listTopUsers := listTopUsers + [topUsers[i].userId];
    }
    assert listTopUsers == RankedIds(topUsers);
    calls := calls + [ProfileLookup(listTopUsers)];
    var topUsersInfo := b.getUsers(listTopUsers);
    if topUsersInfo.Threw? {
      return None, calls;
    }
    var rankResponse: seq<RankEntry> := [];
    for i := 0 to |topUsers|
      invariant topUsersInfo.value.None? ==> i == 0 && rankResponse == []
      invariant topUsersInfo.value.Some? ==> rankResponse == Ranked(topUsers[..i], topUsersInfo.value.value)
    {
      if topUsersInfo.value.None? {
        return None, calls;
      }
      var user := topUsers[i];
      assert topUsers[..i + 1][..i] == topUsers[..i];
      rankResponse := rankResponse + [RankEntry(user.userId, user.matchQty, ProfileOf(topUsersInfo.value.value, user.userId))];
    }
    assert topUsers[..|topUsers|] == topUsers;
    ranking := Some(rankResponse);
  }
}
