# Match composition of the match microservice, in Dafny

This project models the core of a C# matchmaking service. The service stores
pairings ("matches") of two users, each with one "seen" flag per user. Around
those records it does four things:

- it provisions a chat for a new match;
- it reports a match by id or by pair in storage order, and the matches of a user with that user put in slot 1;
- it joins a "most matched users" ranking with profiles from the user service;
- its endpoints let only a match's participants see it or mark it seen.

It also has a "my matches" endpoint. That endpoint reads the caller's
acknowledgement records, collects the distinct user ids, makes one profile
call and attaches each counterpart's profile. When the profile service fails,
it returns a degraded answer with status 502.

Modules, one per source file or concern:

- `Domain` (`domain.dfy`) holds the records:
  - `Match`, `MatchResponse`, `UserMatch`, `TopUser`, `RankEntry` and the other shapes.
  - `Backends`: the stores and gateways, each given by the reply it makes to every argument.
    A reply is `Reply<T>`: a value (`None` inside it is C#'s null) or `Threw`.
  - `Call`: one call issued to a store or gateway.
  - Every operation returns the calls it issued, in order. That makes statements such as
    "the chat gateway is never called" or "no store access" provable.
- `Lookup` (`lookup.dfy`) holds the list searches the code relies on:
  - `FirstWhere` is LINQ's `FirstOrDefault`.
  - `Distinct` is a list grown with `Contains`/`Add`.
  - `CollectAll` is a loop that builds one item per element and stops at the first exception.
- `MatchServices` (`match_services.dfy`) models `Application/UseCases/MatchServices.cs`.
- `MatchController` (`match_controller.dfy`) models the decision logic of
  `MatchMicroService/Controllers/MatchController.cs`:
  - the caller is the integer user id from its token;
  - an answer is a status code plus a payload;
  - an exception caught by an endpoint, or one that escapes the "me" endpoint to the
    framework, answers 500 with no payload.

Straight-line code is modelled as functions. Code that grows lists in `foreach`
loops is modelled as methods with loops (`GetByUserId`, `GetTopMatchUser`,
`CollectUserIds`, `ComposeEntries`, `GetUserMatchesMe`). `GetByUserId`,
`GetTopMatchUser`, `CollectUserIds` and `ComposeEntries` are each proved equal to
a specification function whose properties are proved separately. `GetUserMatchesMe`
composes those and states its answer directly in its postconditions, case by case.

The model follows the code where the code differs from the service's stated design:

- `CreateMatch` calls the chat gateway without a `try`. When the gateway throws, the whole
  operation throws, even though the match is already stored. The -1 "no chat" id is used
  only when the gateway returns null.

- `UpdateMatch` writes a new record whose `MatchId` is 0 and whose `CreatedAt` is the
  update time. It does not keep the original creation time.
- `GetByUserId` gives a user who is in neither slot of a match `User2Id` in both slots.
- `GetById` never copies the view flags, so it reports both as false.
- `GetTopMatchUser` returns an empty ranking when there are no rows, even when the
  profile call returned null. That is because `FirstOrDefault` is never reached.
  A null row list makes the `foreach` throw, so the later null check is dead code.
- The "me" endpoint looks up `MatchId` with `FirstOrDefault(...).Id`. When no match of the
  caller's fits a record, this throws and the endpoint answers 500. This happens whether or
  not the profile service answered.

## Model

| member | source | states |
|---|---|---|
| `MatchServices.CreateMatch` | Application/UseCases/MatchServices.cs:23-67 | The store gets a record holding the request's pair, the current time and both view flags false. A failed or rejected write returns null or the exception, and the chat gateway is never called. Otherwise exactly one chat request follows, for the same pair. The result's id is the stored `MatchId`, and its chat id is the gateway's id or -1 when the gateway returned null. |
| `MatchServices.GetById` | Application/UseCases/MatchServices.cs:74-91 | One read by id. Null when the store has no record, the exception when it throws. Otherwise the stored id and pair, with both view flags false because they are not copied. |
| `MatchServices.GetByUsersIds` | Application/UseCases/MatchServices.cs:122-142 | One read by pair. Null when absent. Otherwise id, pair and both view flags equal the stored ones. |
| `MatchServices.Normalise` | Application/UseCases/MatchServices.cs:107-114 | Id and view flags are copied in storage order. A participant is put in slot 1, its counterpart in slot 2, and the pair is unchanged as a multiset. A non-participant gets `User2Id` in both slots. |
| `MatchServices.NormalisedList` | Application/UseCases/MatchServices.cs:104-117 | One response per stored match, same length and order, each the normalised record. |
| `MatchServices.RequesterInSlotOne` | Application/UseCases/MatchServices.cs:106-114 | When every stored match involves the user, every response has the user in slot 1 and the stored pair. |
| `MatchServices.GetByUserId` | Application/UseCases/MatchServices.cs:93-120 | One store read. The loop's list equals the normalised list of the store's result, so it is empty when that result is empty. A store exception propagates. |
| `MatchServices.UpdateMatch` | Application/UseCases/MatchServices.cs:155-176 | Exactly one store write, carrying the request's users and flags, `MatchId` 0 and `CreatedAt` equal to the update time. The result is true when the write returned and false when it threw. It never throws. |
| `MatchServices.RankedIds` | Application/UseCases/MatchServices.cs:183-189 | The ranked user ids, one per row, in rank order. |
| `MatchServices.ProfileOf` | Application/UseCases/MatchServices.cs:200 | The first profile whose id is the given user's, or null exactly when no profile has that id. |
| `MatchServices.Ranked` | Application/UseCases/MatchServices.cs:194-204 | One entry per ranked row, in order. `UserId` and `MatchQty` are copied and the profile is the first one with the same id. |
| `MatchServices.Ranking` | Application/UseCases/MatchServices.cs:178-217 | Null when the rows cannot be read or are null. Also null when the profile call threw, or returned null while there are rows. Otherwise one entry per row, in order, whose profile is the first returned profile with the row's id, and is absent exactly when no returned profile has that id. |
| `MatchServices.GetTopMatchUser` | Application/UseCases/MatchServices.cs:178-217 | The two loops compute `Ranking`. The profile service is called once, with the ranked ids in rank order, and only when rows were read. |
| `Lookup.FirstWhere` | Application/UseCases/MatchServices.cs:200 | `FirstOrDefault`: null exactly when no element satisfies the predicate. Otherwise an element that satisfies it, with no earlier element satisfying it. |
| `Lookup.CollectAll` | MatchMicroService/Controllers/MatchController.cs:119-135 | A loop that throws on a bad element: it succeeds exactly when every element succeeds, and then gives one item per element, in order. |
| `Lookup.Distinct` | MatchMicroService/Controllers/MatchController.cs:79-86 | A list grown with `Contains`/`Add` holds exactly the input's values, none twice. |
| `Lookup.DistinctFirstAppearanceOrder` | MatchMicroService/Controllers/MatchController.cs:79-86 | Those values come in the order of their first appearance in the input. |
| `MatchController.GetMatchById` | MatchMicroService/Controllers/MatchController.cs:33-62 | One read by id. 404 when absent, 403 when the caller is neither `User1` nor `User2`, 500 on an exception. Otherwise 200 with the stored id and pair. |
| `MatchController.Acknowledge` | MatchMicroService/Controllers/MatchController.cs:209-215 | The pair is passed on in storage order. The caller's own slot is set true. A slot the caller does not hold keeps its flag. No flag goes from true to false. |
| `MatchController.AcknowledgeIdempotent` | MatchMicroService/Controllers/MatchController.cs:209-215 | Acknowledging state that already reflects the caller's acknowledgement writes the same state again. |
| `MatchController.UpdateMatch` | MatchMicroService/Controllers/MatchController.cs:198-228 | A caller equal to neither requested user gets 401, with no store read or write. The status is 200 exactly when the caller is in the pair and the store finds the match. A lookup that throws or finds nothing gives 500 before any write. On 200 the write keeps the stored pair and order and sets only the caller's slot, and the body says whether the store accepted it. |
| `MatchController.GetRanking` | MatchMicroService/Controllers/MatchController.cs:173-194 | 200 with the service's ranking when it is not null, otherwise 500 with no payload. |
| `MatchController.Examined` | MatchMicroService/Controllers/MatchController.cs:79-86 | The order in which ids are examined: for each record, `User2` and then `User1`. |
| `MatchController.CollectedIds` | MatchMicroService/Controllers/MatchController.cs:79-91 | The collected ids are every `User1`/`User2` of the acknowledgement records, each once. They are empty exactly when there are no records. |
| `MatchController.CollectUserIds` | MatchMicroService/Controllers/MatchController.cs:68-86 | The `Contains`/`Add` loop yields the distinct examined ids in first-appearance order. |
| `MatchController.CounterpartRequested` | MatchMicroService/Controllers/MatchController.cs:93-129 | The counterpart of every record is among the ids sent to the profile service. |
| `MatchController.EntryContents` | MatchMicroService/Controllers/MatchController.cs:119-132 | An entry exists exactly when some match of the caller's has either user of the record in slot 2. It copies the record's fields. It takes the match id from the first such match, and the view flags from the first match with that id. Its profile is null without profiles, otherwise the counterpart's first profile. |
| `MatchController.Entries` | MatchMicroService/Controllers/MatchController.cs:119-135 | All entries in record order, one per record, or failure exactly when some record has no fitting match. |
| `MatchController.ComposeEntries` | MatchMicroService/Controllers/MatchController.cs:98-114 | The loop builds exactly `Entries`, stopping at the first record whose lookup throws. |
| `MatchController.GetUserMatchesMe` | MatchMicroService/Controllers/MatchController.cs:66-146 | Reads acknowledgements, then matches. With no records: 200, count 0, and no profile call. Otherwise one profile call with the collected ids. When that call returns null: 502 with one entry per record, none with a profile. On success: 200 with count equal to the number of records, each entry holding the counterpart's profile, and `UserMe` the caller's profile. Any exception, including a record with no fitting match, gives 500. |

## Left out

- `DeleteMatch`, `GetAll` and `ExistMatch` in `MatchServices` only forward one store call and return its result, so there is no logic to model.
- The `GetMatches` endpoint is left out: it is an API-key comparison against configuration, then a pass-through to `GetAll`.
- Routing, `JsonResult`, JWT and claims handling are left out. The token service is reduced to the caller's integer id. `GetRanking` reads that id but never uses it.
- Response messages, and exception messages in 500 bodies, are not modelled. Every exception is the single outcome `Threw`, and a 500 carries no payload.
- The async machinery is not modelled. Every call is awaited in turn, so the model is sequential.
- The clock is an input (`now`). Nothing is said about its values beyond being copied into `CreatedAt`.
- Store and gateway implementations are not modelled, only the values they return. In particular, the model does not claim that a pair lookup finds the same record for (a, b) and for (b, a), since that is the store's job.
- The stores' list replies (matches by user, acknowledgement records, ranked rows' elements) and the elements of a profile list are taken to be non-null. A null there would make the code throw, which the model does not cover.
- `Application/Interfaces/IMatchServices.cs` and `Application/Interfaces/IUserMatchQueries.cs` are bare interface declarations and are not part of this model.
- `MatchController.GetRanking`: its contract states the status and payload, but only the first recorded call. The full call sequence is the one `MatchServices.GetTopMatchUser` states.
