# SRM Swap trade engine in Dafny

SRM Swap is a campus marketplace. Students list items, and a buyer opens a **trade** on a listing. The buyer and the seller negotiate over a chat. The seller proposes terms, and the buyer accepts them (the listing becomes SOLD) or declines them. A supervising **member** schedules the meeting and confirms the exchange, and both parties then mark the trade finished. Any signed-in user can raise an **issue** against a trade. A supervisor claims and finalizes the issue, and each party's acknowledgement is mirrored onto the trade.

This project models the server's trade and issue controllers and the chat relay of its socket server. It also models the smaller rules around them:
- listing creation and browsing,
- the trust-score increment of a rating,
- registration and login checks, and the role guard,
- the origin allow-list for cross-origin requests,
- the client's image URL builder,
- the client's mock trade store.

The model is in two layers.
- `TradeLifecycle` and `Dispute` are pure transitions over a value of the three tables (trades, listings, issues). Each returns the reply, the tables afterwards and the snapshot it emits.
- `TradeController`, `IssueController`, `SocketHandler` and the other controllers are imperative methods over a `Db` object (the tables as mutable maps) and an `Io` object (room membership and an append-only log of emitted events). Each mutating handler is proved to do exactly what its transition says (`Wrote`, `Performed` in `Store`).

`Scenarios` composes the transitions into runs. It proves the store invariant and the finality of SOLD for every run, and both walkthroughs of a trade. It also proves where the handlers let a trade bypass the state machine.

Conventions:
- A failure is `Fail(code)`, standing for HTTP 401, 403, 404, 400 or 500.
- A missing caller (`req.user?.id` undefined) is `None`. JavaScript's `undefined === undefined` becomes `None == None`.
- A store write that throws (updating a missing row, or dereferencing a missing listing) answers 500 and writes nothing.
- Clocks and generated ids are parameters (`now`, `freshId`, `issueId`, `ratingId`).

## Model

| member | source | states |
|---|---|---|
| TradeController.CreateTrade | server/src/controllers/tradeController.ts:12-47 | 401 without a caller, 500 when the body has no listing id, 404 for an unknown listing, 403 for the listing's own seller, with no trade written in each case; an existing non-CANCELLED trade of this buyer for this listing is returned with the trades unchanged; otherwise exactly one NEGOTIATING trade is added; the store invariant is kept |
| TradeController.GetPendingTrades | server/src/controllers/tradeController.ts:49-78 | exactly the trades with the requested status (default ACCEPTED or SCHEDULED) in which the caller is neither buyer nor seller, each once, ordered by updatedAt descending |
| TradeController.GetTrade | server/src/controllers/tradeController.ts:80-109 | 401 without a caller, 404 for an unknown id, 500 when a caller other than the buyer reads a trade whose listing is gone (the disabled participant check still reads the listing's seller); otherwise the stored trade, whoever asks |
| TradeLifecycle.SetStatus | server/src/controllers/tradeController.ts:111-124 | unguarded status write: any valid status from any status, 500 for a missing trade or an invalid status name, nothing emitted, listings untouched |
| TradeController.UpdateTradeStatus | server/src/controllers/tradeController.ts:111-124 | performs exactly `SetStatus` on the database |
| TradeLifecycle.Schedule | server/src/controllers/tradeController.ts:126-161 | 404 for an unknown trade, 403 for a buyer or seller caller, 500 for an invalid date; otherwise SCHEDULED from any status with the date and supervisor set (the supervisor is a non-participant), and the location and note as sent: kept when left out of the body, cleared when null; only that trade is written and it is emitted |
| TradeController.ScheduleTrade | server/src/controllers/tradeController.ts:126-161 | performs exactly `Schedule` (location and note left out of the body keep their stored values), and appends its snapshot to the trade's room in the event log |
| TradeLifecycle.Propose | server/src/controllers/tradeController.ts:163-195 | 404 for an unknown trade, 500 when its listing is gone, 403 unless the caller is the seller; otherwise PROPOSED from any status, with the amount `parseFloat` reads, the barter and commitment terms as sent (kept when left out of the body, cleared when null), and proposerId set to the caller |
| TradeLifecycle.Money | server/src/controllers/tradeController.ts:181 | the stored amount is a number exactly when the amount was sent and `parseFloat` finds a number in it |
| TradeController.ProposeDeal | server/src/controllers/tradeController.ts:163-195 | performs exactly `Propose` (terms left out of the body keep their stored values), emitting its snapshot |
| TradeLifecycle.Accept | server/src/controllers/tradeController.ts:197-229 | 404, 403 unless the buyer, 400 unless PROPOSED, 500 when its listing is gone (the transaction rolls back), nothing changed in each case; otherwise the trade is ACCEPTED and its listing SOLD in the same step |
| TradeController.AcceptDeal | server/src/controllers/tradeController.ts:197-229 | performs exactly `Accept` (both writes or neither), emitting its snapshot |
| TradeLifecycle.Decline | server/src/controllers/tradeController.ts:231-263 | only the buyer and only from PROPOSED (404, 403, 400 otherwise); NEGOTIATING with the three terms and proposerId cleared |
| TradeController.DeclineDeal | server/src/controllers/tradeController.ts:231-263 | performs exactly `Decline`, emitting its snapshot |
| TradeLifecycle.MarkDone | server/src/controllers/tradeController.ts:265-278 | any caller sets supervisorConfirmed, the status is untouched; 500 for an unknown trade |
| TradeController.MarkDealDone | server/src/controllers/tradeController.ts:265-278 | performs exactly `MarkDone`, emitting its snapshot |
| TradeLifecycle.Finish | server/src/controllers/tradeController.ts:280-318 | the buyer sets buyerFinished, the seller sellerFinished, anyone else neither; flags are never cleared; COMPLETED exactly when both flags are then set, otherwise the status is kept; supervisorConfirmed is not consulted |
| TradeController.FinishTrade | server/src/controllers/tradeController.ts:280-318 | performs exactly `Finish` (with the second write when both flags are set), emitting its snapshot |
| Dispute.Report | server/src/controllers/issueController.ts:5-39 | 401 without a caller, 500 without a trade id, 404 for an unknown trade, 500 without a description or for a taken issue id, nothing written in any of these; otherwise one OPEN issue with reporter = caller and supervisor = the trade's supervisor or "", and the trade is UNDER_REVIEW whatever its status and whoever the caller |
| IssueController.ReportIssue | server/src/controllers/issueController.ts:5-39 | performs exactly `Report` on the database |
| Dispute.Claim | server/src/controllers/issueController.ts:41-57 | PENDING with the caller as supervisor, from any status, RESOLVED included; 500 for an unknown issue |
| IssueController.ClaimIssue | server/src/controllers/issueController.ts:41-57 | performs exactly `Claim` |
| Dispute.ResolveParty | server/src/controllers/issueController.ts:59-93 | 404 for an unknown issue or trade; a buyer caller sets buyerResolved and the trade's buyerFinished, a seller caller sellerResolved and sellerFinished, anyone else changes no flag; the trade's status is never touched |
| IssueController.ResolveIssueParty | server/src/controllers/issueController.ts:59-93 | performs exactly `ResolveParty`, in the same sequence of writes |
| Dispute.Finalize | server/src/controllers/issueController.ts:95-106 | RESOLVED whatever the acknowledgements; 500 for an unknown issue |
| IssueController.FinalizeIssue | server/src/controllers/issueController.ts:95-106 | performs exactly `Finalize` |
| IssueController.GetIssuesByStatus | server/src/controllers/issueController.ts:108-133 | exactly the issues with the given status assigned to the caller, each once |
| Entities.ParseTradeStatus | server/src/controllers/tradeController.ts:111-124 | a status name parses only to the status it names |
| Entities.ParseTradeStatusName | server/src/controllers/tradeController.ts:111-124 | every status's name parses back to that status |
| Scenarios.ApplyKeepsConsistent | server/src/controllers/tradeController.ts:126-318 | every trade and issue handler keeps the store invariant: records under their own ids, a trade's listing stored, buyer, seller and supervisor distinct, issues about stored trades |
| Scenarios.RunKeepsConsistent | server/src/controllers/issueController.ts:5-106 | the store invariant holds after any sequence of trade and issue handlers |
| Scenarios.SoldOnlyByAccept | server/src/controllers/tradeController.ts:211-221 | no handler takes a listing out of SOLD, and a listing becomes SOLD only by the buyer accepting a PROPOSED trade for it |
| Scenarios.SoldIsFinal | server/src/controllers/tradeController.ts:211-221 | a SOLD listing stays SOLD after any sequence of handlers |
| Scenarios.AcceptedOnlyFromProposal | server/src/controllers/tradeController.ts:207-221 | a trade becomes ACCEPTED only by accepting a proposal, or through the unguarded status write, which leaves the listings as they were |
| Scenarios.BackdoorAcceptsWithoutSale | server/src/controllers/tradeController.ts:111-124 | the unguarded status write makes a NEGOTIATING trade ACCEPTED while its listing stays VERIFIED |
| Scenarios.DeclineThenPropose | server/src/controllers/tradeController.ts:174-187 | after a decline and a new proposal only the new terms remain: a term left out of the new body is empty, not the declined one |
| Scenarios.ReproposeKeepsUnsentTerms | server/src/controllers/tradeController.ts:177-185 | without a decline in between, a proposal that leaves out the barter and commitment terms keeps the stored ones beside its new amount |
| Scenarios.RescheduleKeepsUnsentFields | server/src/controllers/tradeController.ts:144-152 | a reschedule sending only a date keeps the stored location and note; sending them as null clears them |
| Scenarios.FinishTwice | server/src/controllers/tradeController.ts:290-312 | a second finishTrade by the same caller changes nothing but the timestamp |
| Scenarios.CompletionWalkthrough | server/src/controllers/tradeController.ts:163-318 | propose, accept, schedule, confirm, seller finishes, buyer finishes: PROPOSED with any amount sent in decimal stored as that amount, ACCEPTED with the listing SOLD, SCHEDULED, confirmed, still SCHEDULED, COMPLETED |
| Scenarios.DisputeWalkthrough | server/src/controllers/issueController.ts:5-106 | report, claim by another supervisor, both acknowledgements, finalize: the issue is RESOLVED with both flags mirrored onto the trade, which stays UNDER_REVIEW |
| Scenarios.AcknowledgedDisputeCompletesOnAnyFinish | server/src/controllers/issueController.ts:70-87 | once both parties acknowledged an issue, a finishTrade by anyone at all completes the trade under review |
| Scenarios.StrangerReopensCompletedTrade | server/src/controllers/issueController.ts:19-32 | a signed-in non-participant can put a COMPLETED trade under review |
| Scenarios.ClaimReopensResolvedIssue | server/src/controllers/issueController.ts:46-52 | claiming a RESOLVED issue makes it PENDING again |
| SocketHandler.JoinTrade | server/src/sockets/socketHandler.ts:8-11 | the socket is added to the trade's room without any check; no other room loses a member and nothing is emitted |
| SocketHandler.SendMessage | server/src/sockets/socketHandler.ts:13-31 | persisted exactly when the event carries a trade id, a sender id and content and the trade and the sender exist; then one message with the event's fields is appended and one receive_message carrying it goes to every socket in the room, the sender included if it joined; otherwise nothing is stored or emitted; the relay invariant is kept |
| SocketHandler.BroadcastsAppend | server/src/sockets/socketHandler.ts:26-27 | an emission adds its chat message, if any, at the end of the broadcast sequence |
| SocketHandler.NoticeKeepsRelayed | server/src/sockets/socketHandler.ts:26-27 | trade status notices leave the broadcast messages equal to the persisted ones |
| SocketHandler.MemberSeesCommitOrder | server/src/sockets/socketHandler.ts:17-27 | a socket in a trade's room for every broadcast receives exactly that trade's messages, in the order they were persisted |
| Numbers.ParseIntDefined | server/src/controllers/ratingController.ts:22-24 | after optional white space and sign, a "0x" or "0X" selects base 16 and the text is a number exactly when a hexadecimal digit follows it; otherwise it is a number exactly when a decimal digit follows |
| Numbers.RunIsLongest | server/src/controllers/ratingController.ts:22-24 | `parseInt` reads the longest prefix of digits of its base: every character of the run is a digit and the one after it is not |
| Numbers.ParseShowInt | server/src/controllers/itemController.ts:26 | an integer written in decimal parses back to itself, as a price and as a score |
| Numbers.ParseDecimal | server/src/controllers/itemController.ts:26 | `parseFloat` is a number exactly when a decimal digit or a decimal point and digit follow the sign, and agrees with `parseInt` on decimal text |
| Numbers.HexRead | server/src/controllers/ratingController.ts:22-24 | "0x" followed by hexadecimal digits reads as their base-16 value |
| Numbers.HexAsDecimal | server/src/controllers/tradeController.ts:181 | `parseFloat` reads any "0x" text as 0 |
| Numbers.HexWithoutDigits | server/src/controllers/ratingController.ts:22-24 | "0x" with no hexadecimal digit after it is NaN, so such a score makes the rating fail |
| Numbers.HexExample | server/src/controllers/ratingController.ts:22-31 | the score "0x1F" is 31 |
| ItemController.Price | server/src/controllers/itemController.ts:26 | the stored price is null unless the supplied price is non-empty and parses as a number |
| ItemController.NewItem | server/src/controllers/itemController.ts:18-31 | there is a listing exactly when title, description, category and type were sent; it is PENDING, with the request's fields, no tags, no images and marketplace NORMAL by default, and a boolean hybrid flag |
| ItemController.CreateItem | server/src/controllers/itemController.ts:11-38 | 401 without a seller, 500 when a required field is left out, nothing created in either case; otherwise exactly one new listing; the store invariant is kept |
| ItemController.GetItems | server/src/controllers/itemController.ts:40-71 | exactly the VERIFIED or PENDING listings of the requested marketplace (default NORMAL) matching the exact category and type and the search, each once, newest first; never a SOLD or REMOVED one |
| ItemController.GetItemById | server/src/controllers/itemController.ts:73-85 | the listing, or 404 when no listing has the id |
| ItemController.NewItemShown | server/src/controllers/itemController.ts:28-29 | a new listing of the default marketplace is listed at once, before verification |
| ItemController.TitleFindsItself | server/src/controllers/itemController.ts:50-56 | searching for a listing's title finds it, whatever the letter case |
| ItemController.AcceptedListingHidden | server/src/controllers/itemController.ts:43-46 | once its deal is accepted, a listing drops out of every listing query |
| RatingController.Points | server/src/controllers/ratingController.ts:30-37 | the increment is the integer nearest to a third of the score sum |
| RatingController.PointsOnScale | server/src/controllers/ratingController.ts:30-31 | scores on the 1 to 5 scale give an increment on the same scale |
| RatingController.ScoresParsed | server/src/controllers/ratingController.ts:22-24 | the scores are present exactly when all three parse, and are the three parsed values |
| RatingController.ReviewOutcome | server/src/controllers/ratingController.ts:11-27 | the answer is 401 without a reviewer; 500 when the trade or reviewee is left out of the body, for a non-numeric score, or for an unknown trade, reviewer or reviewee; otherwise a rating whose reviewer is the caller, whose trade, reviewee and comment are the request's and whose scores are the parsed ones |
| RatingController.SubmitRating | server/src/controllers/ratingController.ts:10-47 | answers as `Review`; on failure nothing is written; on success the rating is stored and only the reviewee's trust score grows, by `Points` of the stored scores |
| RatingController.OnlyRevieweeScoreChanges | server/src/controllers/ratingController.ts:33-40 | the increment changes no other user and no other field of the reviewee |
| RatingController.GetRatings | server/src/controllers/ratingController.ts:49-61 | exactly the ratings of the reviewee, each once, newest first |
| AuthController.Normalize | server/src/controllers/authController.ts:9 | the normalised address has no surrounding white space and is no longer than the input |
| AuthController.NormalizeIdempotent | server/src/controllers/authController.ts:9 | normalising an address twice gives the same as once |
| AuthController.DuplicateKeyMessage | server/src/controllers/authController.ts:47-58 | an e-mail clash maps to the e-mail message, otherwise a registration-number clash to its message, anything else to the generic one |
| AuthController.NewStudent | server/src/controllers/authController.ts:20-31 | the new account has the normalised address, the STUDENT role, full name "Unknown" by default and the fallback registration number by default |
| AuthController.Admission | server/src/controllers/authController.ts:6-66 | 400 unless the normalised address ends with "@srmap.edu.in"; 500 for an absent password; the e-mail message for a taken address, the registration-number message for a taken number; created exactly when none of these applies |
| AuthController.Register | server/src/controllers/authController.ts:6-66 | answers `Admission` and stores the account only when admitted; no two accounts share an address or a registration number |
| AuthController.RegisteredEmailNormal | server/src/controllers/authController.ts:9-13 | a registered address is in normal form and is a university address |
| AuthController.MemberFor | server/src/controllers/authController.ts:105 | the first member entry matching both the identifier and the password, or none when no entry matches both |
| AuthController.MemberAccount | server/src/controllers/authController.ts:110-118 | a provisioned member gets identifier+"@srmswap.com", "MEM_" plus the upper-cased identifier, and the member display name |
| AuthController.MemberNeedsOwnPassword | server/src/controllers/authController.ts:105-108 | a known member name with a wrong password is refused |
| AuthController.Provision | server/src/controllers/authController.ts:94-119 | upsert by address: an existing account is returned untouched, otherwise one is created, and a clashing registration number fails with 500 |
| AuthController.Login | server/src/controllers/authController.ts:83-143 | ADMIN: 401 unless both identifier and password are the admin's, then the admin account is provisioned; MEMBER: 401 unless the pair is in the member table, then a MEMBER account is provisioned; otherwise the normalised identifier's account, with 401 for no account or a wrong password and 500 for an absent identifier or password |
| RoleMiddleware.RequireRole | server/src/middleware/roleMiddleware.ts:10-17 | 403 without a user; ADMIN and the required role pass to the next handler; any other role gets 403 |
| RoleMiddleware.AdminGuardIsStrictest | server/src/middleware/roleMiddleware.ts:12 | whoever passes the ADMIN guard passes every guard |
| RoleMiddleware.DistinctGuardsOnlyAdmin | server/src/middleware/roleMiddleware.ts:12 | only an ADMIN passes two guards for different roles |
| ImageUtils.StripApi | client/src/utils/imageUtils.ts:6 | a trailing "/api/" or "/api" is removed once, anything else is kept |
| ImageUtils.GetImageUrl | client/src/utils/imageUtils.ts:1-12 | "" for no path, an http path as is, otherwise the base followed by the path with exactly one "/" between them; the result always ends with the path |
| ImageUtils.DefaultHost | client/src/utils/imageUtils.ts:6-11 | with no configured URL every relative upload path is served from "http://localhost:5000" followed by "/" and the path |
| ImageUtils.StripsOnce | client/src/utils/imageUtils.ts:6 | an API URL ending in "/api/api" keeps one "/api" |
| Cors.IsAllowedOrigin | server/api/index.ts:21-32 | accepts exactly the two localhost origins and every origin ending in ".vercel.app" |
| Cors.HttpOrigin | server/api/index.ts:34-45 | a missing or allowed origin is accepted; any other is refused with (null, false), never an error |
| Cors.SocketOrigin | server/api/index.ts:47-59 | a missing or allowed origin is accepted; any other gets a "Not allowed by CORS" error |
| Cors.CallbacksAgree | server/api/index.ts:34-59 | the HTTP and socket callbacks accept exactly the same origins |
| Cors.AnyVercelDeploymentAllowed | server/api/index.ts:29 | any project deployed on Vercel, whoever owns it, is an allowed origin |
| Cors.LookAlikeRefused | server/api/index.ts:27-31 | every origin that carries ".vercel.app" but ends in another letter is refused |
| Cors.OtherLocalPortRefused | server/api/index.ts:27-31 | a localhost origin on any port but 5173 and 5174 is refused |
| TradeStore.MockTrade | client/src/store/useTradeStore.ts:83-112 | the mock trade has the requested id, is NEGOTIATING between the mock seller and buyer, and opens with the seller's then the buyer's message |
| TradeStore.Store.StartTrade | client/src/store/useTradeStore.ts:75-78 | always "mock-trade-456" |
| TradeStore.Store.FetchTrade | client/src/store/useTradeStore.ts:79-114 | the mock trade becomes active and loading ends false |
| TradeStore.Store.FetchIssues | client/src/store/useTradeStore.ts:115-118 | the issue list is emptied and nothing else changes |
| TradeStore.Store.SendMessage | client/src/store/useTradeStore.ts:119-131 | exactly one message with the sender and content is appended at the end and nothing else changes; no-op without an active trade |
| TradeStore.Store.ProposeDeal | client/src/store/useTradeStore.ts:132-146 | PROPOSED with the three terms, proposerId and everything else unchanged |
| TradeStore.Store.AcceptDeal | client/src/store/useTradeStore.ts:147-153 | only the status changes, to ACCEPTED |
| TradeStore.Store.DeclineDeal | client/src/store/useTradeStore.ts:154-160 | only the status changes, to NEGOTIATING; the terms stay |
| TradeStore.Store.FinishTrade | client/src/store/useTradeStore.ts:164-170 | COMPLETED at once from any status |
| TradeStore.Store.ReportIssue | client/src/store/useTradeStore.ts:171-174 | the active trade, which callers must have, becomes UNDER_REVIEW |

## Left out

- Concurrency: each handler is atomic. Interleavings of concurrent requests are not modelled; the handlers read and then write without a conditional update.
- Result shapes: the related records the store expands into replies (listing, seller, buyer, profiles) are not modelled. A reply is the stored record itself.
- Floating point: `parseFloat` keeps only the integer part here, and "Infinity" and exponents are not read. The score sum is an integer, so `Math.round` of its third is exact.
- Untyped inputs: values of the wrong JSON type are not modelled (a number where text is expected, a non-array `images`, a non-string e-mail).
- Database schema: the Prisma schema is not part of this model. It is taken to make these columns required: an issue's description, and a listing's title, description, category and type. A listing's tags are a list column, which the insert fills with an empty list when it is left out. A message's content is a required column too. A body or event field left out is `None` in the model: a left-out id makes the lookup or insert throw, and a left-out required column makes the insert throw. The handlers then answer 500, and send_message stores and emits nothing.
- Column widths: scores and trust scores are unbounded integers here. A 32-bit integer column would make the insert or increment throw (500) for a value outside its range, and that failure is not modelled.
- TradeLifecycle.Propose: an amount that is not a number is NaN in the source. The model stores it as no amount, because floating point is not modelled.
- Enumerations: the listing type, the marketplace and the requested status filters arrive already parsed. The store's 500 for an unknown value is not modelled there; it is modelled for updateTradeStatus.
- Cryptography: password hashing, hash comparison and token signing are not modelled. The hash is a parameter, and the comparison is an opaque function parameter of `Login`.
- Configuration: the admin and member credential tables and the admin's account details are parameters, not constants.
- AuthController.Register: `tempRegNumber` stands for the time-based `TEMP_` fallback registration number.
- Initial trust score: the store's default for a new account's trust score is not part of this model. It is the `trust` parameter.
- Transport: socket disconnect, connection logging, the HTTP bootstrap, static files and image upload are not modelled.
- Foreign keys: only the foreign keys the handlers depend on are modelled. A message needs its trade and sender, and a rating needs its trade, reviewer and reviewee. Other inserts and updates are assumed not to violate them.
- Case mapping and white space: letter case and trimming cover ASCII only. The database's case-insensitive search is modelled as ASCII lower-casing.
- TradeController.GetPendingTrades: it takes the caller as given. With no caller the store would drop the participant filter, and that case is not modelled.
- TradeStore.Store.ReportIssue: requires an active trade, which the code asserts with a non-null assertion. At run time with none, the store would hold a trade record holding only the status.
- The mock store's `markDone`, `connectSocket` and `disconnectSocket` only log, and the unchanged `trades` and `socket` fields are omitted. The mock trade's listing display fields (title, images, price, seller and buyer profiles) are omitted too.
