/**
 * The records the server stores (users with their profile, listings, trades, chat
 * messages, ratings and dispute issues) and the HTTP outcome of a handler.
 * Timestamps are abstract integers; prices and proposals are whole numbers.
 */
module Entities {

  import opened Wrappers

  type Id = string

  datatype TradeStatus =
    | Negotiating | Proposed | Accepted | Scheduled | Completed | UnderReview | Cancelled

  /** The status as the store spells it. */
  function TradeStatusName(s: TradeStatus): string {
    match s
    case Negotiating => "NEGOTIATING"
    case Proposed => "PROPOSED"
    case Accepted => "ACCEPTED"
    case Scheduled => "SCHEDULED"
    case Completed => "COMPLETED"
    case UnderReview => "UNDER_REVIEW"
    case Cancelled => "CANCELLED"
  }

  /** The store's validation of a status string: only the enum's own spellings are accepted. */
  function ParseTradeStatus(name: string): (r: Option<TradeStatus>)
    ensures r.Some? ==> TradeStatusName(r.value) == name
  {
    if name == "NEGOTIATING" then Some(Negotiating)
    else if name == "PROPOSED" then Some(Proposed)
    else if name == "ACCEPTED" then Some(Accepted)
    else if name == "SCHEDULED" then Some(Scheduled)
    else if name == "COMPLETED" then Some(Completed)
    else if name == "UNDER_REVIEW" then Some(UnderReview)
    else if name == "CANCELLED" then Some(Cancelled)
    else None
  }

  /** Every status name is accepted back as that status. */
  lemma ParseTradeStatusName(s: TradeStatus)
    ensures ParseTradeStatus(TradeStatusName(s)) == Some(s)
  {
    match s
    case Negotiating =>
    case Proposed => assert "PROPOSED" != "NEGOTIATING";
    case Accepted => assert "ACCEPTED"[0] != "NEGOTIATING"[0] && "ACCEPTED"[0] != "PROPOSED"[0];
    case Scheduled => assert "SCHEDULED"[0] !in {'N', 'P', 'A'};
    case Completed => assert "COMPLETED"[0] !in {'N', 'P', 'A', 'S'};
    case UnderReview => assert "UNDER_REVIEW"[0] !in {'N', 'P', 'A', 'S', 'C'};
    case Cancelled => assert "CANCELLED"[1] != "COMPLETED"[1] && "CANCELLED"[0] !in {'N', 'P', 'A', 'S', 'U'};
  }

  datatype ItemStatus = Pending | Verified | Sold | Removed
  datatype Marketplace = Normal | Freshers
  datatype ListingType = Sell | Lend | Barter
  datatype IssueStatus = Open | Pending | Resolved
  datatype Role = Student | Member | Admin

  /** A listing. */
  datatype Item = Item(
    id: Id,
    sellerId: Id,
    title: string,
    description: string,
    category: string,
    tags: seq<string>,
    listingType: ListingType,
    price: Option<int>,
    images: seq<string>,
    status: ItemStatus,
    marketplace: Marketplace,
    allowHybrid: bool,
    createdAt: int)

  /** A trade between the buyer and the seller of one listing. */
  datatype Trade = Trade(
    id: Id,
    listingId: Id,
    buyerId: Id,
    status: TradeStatus,
    moneyProposal: Option<int>,
    barterProposal: Option<string>,
    commitmentProposal: Option<string>,
    proposerId: Option<Id>,
    location: Option<string>,
    scheduledAt: Option<int>,
    supervisorId: Option<Id>,
    supervisorNote: Option<string>,
    supervisorConfirmed: bool,
    buyerFinished: bool,
    sellerFinished: bool,
    createdAt: int,
    updatedAt: int)

  /** A dispute raised against a trade; `supervisorId` is "" while nobody is assigned. */
  datatype Issue = Issue(
    id: Id,
    tradeId: Id,
    reporterId: Id,
    supervisorId: Id,
    description: string,
    status: IssueStatus,
    buyerResolved: bool,
    sellerResolved: bool)

  /** A chat line of a trade. */
  datatype Message = Message(tradeId: Id, senderId: Id, content: string, createdAt: int)

  /** A review of one party of a trade by the other. */
  datatype Rating = Rating(
    id: Id,
    tradeId: Id,
    reviewerId: Id,
    revieweeId: Id,
    accuracy: int,
    honesty: int,
    experience: int,
    comment: Option<string>,
    createdAt: int)

  /** A user account together with its profile. */
  datatype User = User(
    id: Id,
    email: string,
    passwordHash: string,
    role: Role,
    trustScore: int,
    fullName: string,
    regNumber: string)

  /** The failure statuses a handler answers with. */
  datatype Code = Unauthorized | Forbidden | NotFound | BadRequest | ServerError

  function HttpStatus(c: Code): int {
    match c
    case Unauthorized => 401
    case Forbidden => 403
    case NotFound => 404
    case BadRequest => 400
    case ServerError => 500
  }

  /** A handler's answer: the JSON body of a 200, or a failure status. */
  datatype Reply<T> = Ok(value: T) | Fail(code: Code)
}
