/**
 * The decision logic of the match endpoints
 * (MatchMicroService/Controllers/MatchController.cs). The caller's identity is
 * the user id carried by its token; an HTTP answer is a status code and a
 * payload. An exception caught by an endpoint, and one that escapes the "me"
 * endpoint to the framework, both answer 500 without a payload.
 */
module MatchController {
  import opened Wrappers
  import opened Domain
  import opened Lookup
  import MatchServices

  /*
   * GET {id}: only a participant of the match may see it.
   */
  function GetMatchById(id: int, caller: int, b: Backends): (res: Served<MatchResponse>)
    ensures res.calls == [StoreGetById(id)]
    ensures b.matchById(id).Threw? ==> res.status == ServerError && res.body.None?
    ensures b.matchById(id) == Returned(None) ==> res.status == NotFound && res.body.None?
    ensures b.matchById(id).Returned? && b.matchById(id).value.Some? ==>
      var m := b.matchById(id).value.value;
      && (caller != m.user1Id && caller != m.user2Id ==> res.status == Forbidden && res.body.None?)
      && (caller == m.user1Id || caller == m.user2Id ==>
            && res.status == OK && res.body.Some?
            && res.body.value.id == m.matchId && res.body.value.user1 == m.user1Id && res.body.value.user2 == m.user2Id)
  {
    var run := MatchServices.GetById(id, b);
    match run.outcome
    case Threw => Served(ServerError, None, run.calls)
    case Returned(None) => Served(NotFound, None, run.calls)
    case Returned(Some(response)) =>
      if caller != response.user1 && caller != response.user2 then Served(Forbidden, None, run.calls)
      else Served(OK, Some(response), run.calls)
  }

  /*
   * PUT: the caller acknowledges a match it belongs to.
   */

  /** The state written back for a caller acknowledging a stored match: its own slot's flag set, nothing else changed. */
  function Acknowledge(stored: MatchResponse, caller: int): (u: MatchRequestUpdate)
    // the pair is passed on in storage order
    ensures u.user1 == stored.user1 && u.user2 == stored.user2
    // the caller's own slot is marked seen
    ensures stored.user1 == caller ==> u.view1
    ensures stored.user2 == caller ==> u.view2
    // a slot the caller does not hold keeps its flag
    ensures stored.user1 != caller ==> u.view1 == stored.view1
    ensures stored.user2 != caller ==> u.view2 == stored.view2
    // no flag is ever cleared
    ensures (stored.view1 ==> u.view1) && (stored.view2 ==> u.view2)
  {
    MatchRequestUpdate(
      stored.user1,
      stored.user2,
      if stored.user1 == caller then true else stored.view1,
      if stored.user2 == caller then true else stored.view2)
  }

  /** Acknowledging a match whose flags already reflect the caller's acknowledgement writes the same state again. */
  lemma AcknowledgeIdempotent(stored: MatchResponse, caller: int)
    ensures var u := Acknowledge(stored, caller);
      Acknowledge(MatchResponse(stored.id, u.user1, u.user2, u.view1, u.view2), caller) == u
  {
  }

  function UpdateMatch(request: MatchRequest, caller: int, now: Time, b: Backends): (res: Served<bool>)
    // a caller outside the requested pair is refused without touching the store
    ensures caller != request.user1 && caller != request.user2 ==> res == Served(Unauthorized, None, [])
    ensures caller == request.user1 || caller == request.user2 ==>
      |res.calls| >= 1 && res.calls[0] == StoreGetByUsers(request.user1, request.user2)
    // success exactly when the caller is in the pair and the store finds the match
    ensures res.status == OK <==>
      && (caller == request.user1 || caller == request.user2)
      && b.matchByUsers(request.user1, request.user2).Returned?
      && b.matchByUsers(request.user1, request.user2).value.Some?
    // a lookup that throws or finds nothing ends in 500 (null dereference) before any write
    ensures (caller == request.user1 || caller == request.user2) && res.status != OK ==>
      res.status == ServerError && res.body.None? && |res.calls| == 1
    // the write keeps the stored pair and order, sets only the caller's slot, and reports whether the store accepted it
    ensures res.status == OK ==>
      var stored := b.matchByUsers(request.user1, request.user2).value.value;
      && |res.calls| == 2 && res.calls[1].StoreUpdate?
      && var w := res.calls[1].record;
      && w.user1Id == stored.user1Id && w.user2Id == stored.user2Id
      && (stored.user1Id == caller ==> w.view1) && (stored.user1Id != caller ==> w.view1 == stored.view1)
      && (stored.user2Id == caller ==> w.view2) && (stored.user2Id != caller ==> w.view2 == stored.view2)
      && w.createdAt == now
      && res.body == Some(b.updateMatch(w).Returned?)
  {
    if caller == request.user1 || caller == request.user2 then
      var found := MatchServices.GetByUsersIds(request.user1, request.user2, b);
      match found.outcome
      case Threw => Served(ServerError, None, found.calls)
      case Returned(None) => Served(ServerError, None, found.calls)
      case Returned(Some(matchUpdate)) =>
        var updated := MatchServices.UpdateMatch(Acknowledge(matchUpdate, caller), now, b);
        Served(OK, Some(updated.outcome.value), found.calls + updated.calls)
    else
      Served(Unauthorized, None, [])
  }

  /*
   * GET rank: the service's ranking, or 500 when it has none.
   */
  method GetRanking(caller: int, b: Backends) returns (res: Served<seq<RankEntry>>)
    ensures res.status == OK <==> MatchServices.Ranking(b).Some?
    ensures res.status == OK ==> res.body == MatchServices.Ranking(b)
    ensures res.status != OK ==> res.status == ServerError && res.body.None?
    ensures |res.calls| >= 1 && res.calls[0] == StoreTopUsers
  {
    var rankList, calls := MatchServices.GetTopMatchUser(b);
    if rankList.Some? {
      res := Served(OK, rankList, calls);
    } else {
      res := Served(ServerError, None, calls);
    }
  }

  /*
   * GET me: the caller's acknowledgement records, each with the match it
   * belongs to and the profile of the other user.
   */

  /** The answer of the "me" endpoint. */
  datatype MeBody =
    | NoMatches(count: int, userIds: seq<int>)
    | Degraded(matches: seq<UserMatchEntry>)
    | Matches(count: int, userMe: Option<UserProfile>, matches: seq<UserMatchEntry>)

  /** The ids in the order the endpoint examines them: per record, User2 and then User1. */
  function Examined(acks: seq<UserMatch>): (s: seq<int>)
    ensures |s| == 2 * |acks|
    ensures forall k :: 0 <= k < |acks| ==> s[2 * k] == acks[k].user2 && s[2 * k + 1] == acks[k].user1
  {
    if acks == [] then []
    else Examined(acks[..|acks| - 1]) + [acks[|acks| - 1].user2, acks[|acks| - 1].user1]
  }

  /** The ids sent to the profile service: every user of every record, once, in order of first appearance. */
  lemma {:induction false} CollectedIds(acks: seq<UserMatch>)
    ensures NoDuplicates(Distinct(Examined(acks)))
    ensures forall x :: x in Distinct(Examined(acks)) <==> exists k :: 0 <= k < |acks| && (acks[k].user1 == x || acks[k].user2 == x)
    ensures Distinct(Examined(acks)) == [] <==> acks == []
  {
    var s := Examined(acks);
    forall x | x in s ensures exists k :: 0 <= k < |acks| && (acks[k].user1 == x || acks[k].user2 == x) {
      var m :| 0 <= m < |s| && s[m] == x;
      var k := m / 2;
      assert 0 <= k < |acks| && (m == 2 * k || m == 2 * k + 1);
      assert s[2 * k] == acks[k].user2 && s[2 * k + 1] == acks[k].user1;
    }
    forall x | exists k :: 0 <= k < |acks| && (acks[k].user1 == x || acks[k].user2 == x) ensures x in s {
      var k :| 0 <= k < |acks| && (acks[k].user1 == x || acks[k].user2 == x);
      assert s[2 * k] == acks[k].user2 && s[2 * k + 1] == acks[k].user1;
    }
    if acks != [] {
      assert s[0] in Distinct(s);
    }
  }

  /** The user of the record who is not the caller: User2 when the caller is User1, User1 otherwise. */
  function Counterpart(ack: UserMatch, caller: int): (r: int) {
    if ack.user1 == caller then ack.user2 else ack.user1
  }

  /** The profile service is asked for the counterpart of every record, so a missing profile is the service's omission. */
  lemma CounterpartRequested(acks: seq<UserMatch>, caller: int, k: int)
    requires 0 <= k < |acks|
    ensures Counterpart(acks[k], caller) in Distinct(Examined(acks))
  {
  }

  /** The first of the caller's matches whose second slot holds either user of the record. */
  function PairMatch(matchUser: seq<MatchResponse>, ack: UserMatch): (r: Option<MatchResponse>) {
    FirstWhere(matchUser, (x: MatchResponse) => x.user2 == ack.user2 || x.user2 == ack.user1)
  }

  /** The first of the caller's matches with the given id. */
  function MatchWithId(matchUser: seq<MatchResponse>, id: int): (r: Option<MatchResponse>) {
    FirstWhere(matchUser, (x: MatchResponse) => x.id == id)
  }

  /**
   * One entry of the answer, or None when no match of the caller's fits the
   * record (the endpoint then dereferences null and throws).
   */
  function Entry(caller: int, ack: UserMatch, matchUser: seq<MatchResponse>, profiles: Option<seq<UserProfile>>): (r: Option<UserMatchEntry>)
  {
    match PairMatch(matchUser, ack)
    case None => None
    case Some(pm) =>
      var viewed := MatchWithId(matchUser, pm.id);
      Some(UserMatchEntry(
        ack.userMatchId, pm.id, ack.user1, ack.user2, ack.createdAt, ack.updatedAt,
        if profiles.None? then None else MatchServices.ProfileOf(profiles.value, Counterpart(ack, caller)),
        viewed.value.view1, viewed.value.view2))
  }

  /** What an entry holds, and when there is one. */
  lemma EntryContents(caller: int, ack: UserMatch, matchUser: seq<MatchResponse>, profiles: Option<seq<UserProfile>>)
    // an entry exists exactly when one of the caller's matches has either user of the record in slot 2
    ensures Entry(caller, ack, matchUser, profiles).Some? <==>
      exists k :: 0 <= k < |matchUser| && (matchUser[k].user2 == ack.user2 || matchUser[k].user2 == ack.user1)
    ensures var r := Entry(caller, ack, matchUser, profiles);
      r.Some? ==>
        // the record's own fields are copied
        && r.value.userMatchId == ack.userMatchId && r.value.user1 == ack.user1 && r.value.user2 == ack.user2
        && r.value.createdAt == ack.createdAt && r.value.updatedAt == ack.updatedAt
        // the match id is that of the first match of the caller's with either user of the record in slot 2
        && (exists k ::
              && 0 <= k < |matchUser| && matchUser[k].id == r.value.matchId
              && (matchUser[k].user2 == ack.user2 || matchUser[k].user2 == ack.user1)
              && forall j :: 0 <= j < k ==> !(matchUser[j].user2 == ack.user2 || matchUser[j].user2 == ack.user1))
        // the view flags are those of the first match carrying that id
        && (exists k ::
              && 0 <= k < |matchUser| && matchUser[k].id == r.value.matchId
              && matchUser[k].view1 == r.value.view1 && matchUser[k].view2 == r.value.view2
              && forall j :: 0 <= j < k ==> matchUser[j].id != r.value.matchId)
        // without profiles no entry has one; with them, the counterpart's first profile
        && (profiles.None? ==> r.value.userInfo.None?)
        && (profiles.Some? ==> r.value.userInfo == MatchServices.ProfileOf(profiles.value, Counterpart(ack, caller)))
  {
  }

  /** All entries in record order, or None when any record has no fitting match. */
  function Entries(caller: int, acks: seq<UserMatch>, matchUser: seq<MatchResponse>, profiles: Option<seq<UserProfile>>): (r: Option<seq<UserMatchEntry>>)
    ensures r.Some? <==> forall k :: 0 <= k < |acks| ==> Entry(caller, acks[k], matchUser, profiles).Some?
    ensures r.Some? ==> |r.value| == |acks|
    ensures r.Some? ==> forall k :: 0 <= k < |acks| ==> r.value[k] == Entry(caller, acks[k], matchUser, profiles).value
  {
    CollectAll(acks, (ack: UserMatch) => Entry(caller, ack, matchUser, profiles))
  }

  method ComposeEntries(caller: int, acks: seq<UserMatch>, matchUser: seq<MatchResponse>, profiles: Option<seq<UserProfile>>)
    returns (entries: Option<seq<UserMatchEntry>>)
    ensures entries == Entries(caller, acks, matchUser, profiles)
  {
    var respListUser: seq<UserMatchEntry> := [];
    for i := 0 to |acks|
      invariant Entries(caller, acks[..i], matchUser, profiles) == Some(respListUser)
    {
      var entry := Entry(caller, acks[i], matchUser, profiles);
      if entry.None? {
        return None;
      }
      assert acks[..i + 1][..i] == acks[..i];
      respListUser := respListUser + [entry.value];
    }
    assert acks[..|acks|] == acks;
    entries := Some(respListUser);
  }

  /** The ids the endpoint asks the profile service for, grown with Contains/Add. */
  method CollectUserIds(acks: seq<UserMatch>) returns (userIds: seq<int>)
    ensures userIds == Distinct(Examined(acks))
  {
    userIds := [];
    for i := 0 to |acks|
      invariant userIds == Distinct(Examined(acks[..i]))
    {
      var ack := acks[i];
      assert acks[..i + 1][..i] == acks[..i];
      assert Examined(acks[..i + 1]) == Examined(acks[..i]) + [ack.user2] + [ack.user1];
      DistinctSnoc(Examined(acks[..i]), ack.user2);
      DistinctSnoc(Examined(acks[..i]) + [ack.user2], ack.user1);
      if ack.user2 !in userIds {
        userIds := userIds + [ack.user2];
      }
      if ack.user1 !in userIds {
        userIds := userIds + [ack.user1];
      }
    }
    assert acks[..|acks|] == acks;
  }

  method GetUserMatchesMe(caller: int, b: Backends) returns (res: Served<MeBody>)
    ensures b.userMatchesByUser(caller).Threw? ==> res == Served(ServerError, None, [AckStoreByUser(caller)])
    ensures b.userMatchesByUser(caller).Returned? ==>
      |res.calls| >= 2 && res.calls[..2] == [AckStoreByUser(caller), StoreGetByUserId(caller)]
    ensures b.userMatchesByUser(caller).Returned? && b.matchesByUser(caller).Threw? ==>
      res.status == ServerError && res.body.None? && |res.calls| == 2
    ensures b.userMatchesByUser(caller).Returned? && b.matchesByUser(caller).Returned? ==>
      var acks := b.userMatchesByUser(caller).value;
      var matchUser := MatchServices.NormalisedList(caller, b.matchesByUser(caller).value);
      var ids := Distinct(Examined(acks));
      // no record: an empty answer, and the profile service is not asked
      && (acks == [] ==> res == Served(OK, Some(NoMatches(0, [])), [AckStoreByUser(caller), StoreGetByUserId(caller)]))
      // otherwise one profile call with the collected ids
      && (acks != [] ==> res.calls == [AckStoreByUser(caller), StoreGetByUserId(caller), ProfileLookup(ids)])
      && (acks != [] ==>
            var info := b.getUsers(ids);
            && (info.Threw? ==> res.status == ServerError && res.body.None?)
            && (info.Returned? ==>
                  var entries := Entries(caller, acks, matchUser, info.value);
                  && (entries.None? ==> res.status == ServerError && res.body.None?)
                  && (entries.Some? && info.value.None? ==>
                        res.status == BadGateway && res.body == Some(Degraded(entries.value)))
                  && (entries.Some? && info.value.Some? ==>
                        res.status == OK
                        && res.body == Some(Matches(|acks|, MatchServices.ProfileOf(info.value.value, caller), entries.value)))))
    // a degraded answer lists every record, none with a profile
    ensures res.status == BadGateway ==>
      && b.userMatchesByUser(caller).Returned? && res.body.Some? && res.body.value.Degraded?
      && |res.body.value.matches| == |b.userMatchesByUser(caller).value|
      && forall e :: e in res.body.value.matches ==> e.userInfo.None?
  {
    var calls := [AckStoreByUser(caller)];
    var acksReply := b.userMatchesByUser(caller);
    if acksReply.Threw? {
      return Served(ServerError, None, calls);
    }
    var response := acksReply.value;
    var matchUserReply, byUserCalls := MatchServices.GetByUserId(caller, b);
    calls := calls + byUserCalls;
    if matchUserReply.Threw? {
      return Served(ServerError, None, calls);
    }
    var matchUser := matchUserReply.value;

    var userIds := CollectUserIds(response);
    CollectedIds(response);

    if |userIds| == 0 {
      return Served(OK, Some(NoMatches(0, userIds)), calls);
    }

    calls := calls + [ProfileLookup(userIds)];
    var usersInfo := b.getUsers(userIds);
    if usersInfo.Threw? {
      return Served(ServerError, None, calls);
    }
    if usersInfo.value.None? {
      var degraded := ComposeEntries(caller, response, matchUser, None);
      if degraded.None? {
        return Served(ServerError, None, calls);
      }
      return Served(BadGateway, Some(Degraded(degraded.value)), calls);
    }
    var profiles := usersInfo.value.value;
    var entries := ComposeEntries(caller, response, matchUser, Some(profiles));
    if entries.None? {
      return Served(ServerError, None, calls);
    }
    res := Served(OK, Some(Matches(|entries.value|, MatchServices.ProfileOf(profiles, caller), entries.value)), calls);
  }
}
