/**
 * The records the match service exchanges with its stores, its gateways and
 * its callers, and the shape of a call to a store or a gateway.
 */
module Domain {
  import opened Wrappers

  /** A reading of the clock (DateTime.UtcNow); the clock is an input of every operation that reads it. */
  type Time = int

  /** A stored match: the pair, its creation time and one view flag per slot. */
  datatype Match = Match(matchId: int, user1Id: int, user2Id: int, createdAt: Time, view1: bool, view2: bool)

  /** The pair named by a create or update request. */
  datatype MatchRequest = MatchRequest(user1: int, user2: int)

  /** The full state the service asks the store to write on an update. */
  datatype MatchRequestUpdate = MatchRequestUpdate(user1: int, user2: int, view1: bool, view2: bool)

  /** A match as the service reports it. */
  datatype MatchResponse = MatchResponse(id: int, user1: int, user2: int, view1: bool, view2: bool)

  /** What a create reports: the stored match's id and its chat's id. */
  datatype CreateResponse = CreateResponse(id: int, chatId: int)

  /** A profile summary from the user service; only its id is read here. */
  datatype UserProfile = UserProfile(userId: int, details: string)

  /** One row of the store's "most matched users" aggregate. */
  datatype TopUser = TopUser(userId: int, matchQty: int)

  /** One ranking entry: the aggregate row joined with the user's profile, if the user service sent one. */
  datatype RankEntry = RankEntry(userId: int, matchQty: int, userResponse: Option<UserProfile>)

  /** An acknowledgement record ("these two users have seen each other"). */
  datatype UserMatch = UserMatch(userMatchId: int, user1: int, user2: int, createdAt: Time, updatedAt: Time)

  /** One entry of the "my matches" answer. */
  datatype UserMatchEntry = UserMatchEntry(
    userMatchId: int, matchId: int, user1: int, user2: int, createdAt: Time, updatedAt: Time,
    userInfo: Option<UserProfile>, view1: bool, view2: bool)

  /** What an awaited call yields: a value (a null reply is None inside it) or an exception. */
  datatype Reply<T> = Returned(value: T) | Threw

  /**
   * The stores and gateways the service depends on, each given by the reply it
   * makes to every argument.
   */
  datatype Backends = Backends(
    createMatch: Match -> Reply<Option<Match>>,
    matchById: int -> Reply<Option<Match>>,
    matchesByUser: int -> Reply<seq<Match>>,
    matchByUsers: (int, int) -> Reply<Option<Match>>,
    updateMatch: Match -> Reply<Option<Match>>,
    topMatchUsers: Reply<Option<seq<TopUser>>>,
    userMatchesByUser: int -> Reply<seq<UserMatch>>,
    createChat: (int, int) -> Reply<Option<int>>,
    getUsers: seq<int> -> Reply<Option<seq<UserProfile>>>)

  /** One call issued to a store or a gateway, with its arguments. */
  datatype Call =
    | StoreCreate(record: Match)
    | StoreGetById(id: int)
    | StoreGetByUserId(userId: int)
    | StoreGetByUsers(user1: int, user2: int)
    | StoreUpdate(record: Match)
    | StoreTopUsers
    | AckStoreByUser(userId: int)
    | ChatCreate(user1: int, user2: int)
    | ProfileLookup(ids: seq<int>)

  /** A service operation's outcome together with the calls it issued, in order. */
  datatype Run<T> = Run(outcome: Reply<T>, calls: seq<Call>)

  /** An endpoint's HTTP status and payload, together with the calls it issued, in order. */
  datatype Served<T> = Served(status: int, body: Option<T>, calls: seq<Call>)

  const OK := 200
  const Unauthorized := 401
  const Forbidden := 403
  const NotFound := 404
  const ServerError := 500
  const BadGateway := 502
}
