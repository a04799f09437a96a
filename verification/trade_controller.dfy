/**
 * The trade controller's handlers, each performing its reads, guards, writes and
 * emit in the order the server does. Each mutating handler is proved to do exactly
 * what its transition in `TradeLifecycle` says.
 */
module TradeController {

  import opened Wrappers
  import opened Entities
  import opened Store
  import opened TradeLifecycle
  import opened Collections

  /**
   * createTrade: 401 with no caller, 500 when the body has no listing id (the lookup
   * throws), 404 for an unknown listing, 403 for its own seller; otherwise an open trade
   * of the caller for the listing is returned unchanged, or else exactly one NEGOTIATING
   * trade is created. The store invariant is kept.
   */
  method CreateTrade(db: Db, caller: Option<Id>, listingId: Option<Id>, freshId: Id, now: int) returns (r: Reply<Trade>)
    requires freshId !in db.trades
    modifies db
    ensures db.items == old(db.items) && db.issues == old(db.issues)
    ensures db.users == old(db.users) && db.ratings == old(db.ratings) && db.messages == old(db.messages)
    ensures caller.None? ==> r == Fail(Unauthorized)
    ensures caller.Some? && listingId.None? ==> r == Fail(ServerError)
    ensures caller.Some? && listingId.Some? && listingId.value !in db.items ==> r == Fail(NotFound)
    ensures (caller.Some? && listingId.Some? && listingId.value in db.items
             && db.items[listingId.value].sellerId == caller.value) ==> r == Fail(Forbidden)
    ensures !r.Ok? ==> db.trades == old(db.trades)
    ensures r.Ok? <==> && caller.Some? && listingId.Some? && listingId.value in db.items
                       && db.items[listingId.value].sellerId != caller.value
    ensures r.Ok? && (exists k :: k in old(db.trades) && IsOpenFor(old(db.trades)[k], listingId.value, caller.value)) ==>
              && db.trades == old(db.trades)
              && r.value in old(db.trades).Values
              && IsOpenFor(r.value, listingId.value, caller.value)
    ensures r.Ok? && !(exists k :: k in old(db.trades) && IsOpenFor(old(db.trades)[k], listingId.value, caller.value)) ==>
              && r.value == NewTrade(freshId, listingId.value, caller.value, now)
              && db.trades == old(db.trades)[freshId := r.value]
    ensures old(Consistent(db.Snapshot())) ==> Consistent(db.Snapshot())
  {
    if caller.None? {
      return Fail(Unauthorized);
    }
    var buyerId := caller.value;
    if listingId.None? {
      return Fail(ServerError);
    }
    var lid := listingId.value;
    if lid !in db.items {
      return Fail(NotFound);
    }
    var listing := db.items[lid];
    if listing.sellerId == buyerId {
      return Fail(Forbidden);
    }
    if exists k :: k in db.trades && IsOpenFor(db.trades[k], lid, buyerId) {
      var k :| k in db.trades && IsOpenFor(db.trades[k], lid, buyerId);
      return Ok(db.trades[k]);
    }
    var trade := NewTrade(freshId, lid, buyerId, now);
    db.trades := db.trades[freshId := trade];
    r := Ok(trade);
  }

  /** The ordering key of the supervision queue. */
  function UpdatedAt(tr: Trade): int {
    tr.updatedAt
  }

  /**
   * The supervision queue's filter: the requested status (by default ACCEPTED or
   * SCHEDULED), and never a trade the caller buys or sells in.
   */
  predicate AwaitsSupervision(t: Tables, tr: Trade, caller: Id, status: Option<TradeStatus>) {
    && (if status.Some? then tr.status == status.value else tr.status == Accepted || tr.status == Scheduled)
    && tr.buyerId != caller
    && SellerOf(t, tr) != Some(caller)
  }

  /**
   * getPendingTrades: every stored trade that passes the filter, once each, most
   * recently updated first.
   */
  method GetPendingTrades(db: Db, caller: Id, status: Option<TradeStatus>) returns (r: seq<Trade>)
    ensures forall tr :: tr in r <==> tr in db.trades.Values && AwaitsSupervision(db.Snapshot(), tr, caller, status)
    ensures |r| == |set tr | tr in db.trades.Values && AwaitsSupervision(db.Snapshot(), tr, caller, status)|
    ensures SortedDesc(r, UpdatedAt)
  {
    var t := db.Snapshot();
    var rows := Enumerate(set tr | tr in db.trades.Values && AwaitsSupervision(t, tr, caller, status));
    r := SortDesc(rows, UpdatedAt);
    SortKeepsRows(rows, UpdatedAt);
  }

  /**
   * getTrade: any authenticated caller may read any trade (the participant check is
   * disabled in the source); 401 without a caller, 404 for an unknown id. The disabled
   * check still reads the listing's seller whenever the caller is not the buyer, so for
   * such a caller a trade whose listing is gone gives 500.
   */
  method GetTrade(db: Db, caller: Option<Id>, id: Id) returns (r: Reply<Trade>)
    ensures caller.None? ==> r == Fail(Unauthorized)
    ensures caller.Some? && id !in db.trades ==> r == Fail(NotFound)
    ensures (caller.Some? && id in db.trades && caller.value != db.trades[id].buyerId
             && db.trades[id].listingId !in db.items) ==> r == Fail(ServerError)
    ensures r.Ok? <==> && caller.Some? && id in db.trades
                       && (caller.value == db.trades[id].buyerId || db.trades[id].listingId in db.items)
    ensures r.Ok? ==> r.value == db.trades[id]
  {
    if caller.None? {
      return Fail(Unauthorized);
    }
    if id !in db.trades {
      return Fail(NotFound);
    }
    var trade := db.trades[id];
    if trade.buyerId != caller.value && trade.listingId !in db.items {
      return Fail(ServerError);
    }
    r := Ok(trade);
  }

  /** updateTradeStatus: writes any valid status, unguarded, and emits nothing. */
  method UpdateTradeStatus(db: Db, id: Id, status: Option<string>, now: int) returns (r: Reply<Trade>)
    modifies db
    ensures Wrote(db, SetStatus(old(db.Snapshot()), id, status, now), r)
  {
    if id !in db.trades {
      return Fail(ServerError);
    }
    var next := db.trades[id].status;
    if status.Some? {
      var parsed := ParseTradeStatus(status.value);
      if parsed.None? {
        return Fail(ServerError);
      }
      next := parsed.value;
    }
    var updated := db.trades[id].(status := next, updatedAt := now);
    db.trades := db.trades[id := updated];
    r := Ok(updated);
  }

  /** scheduleTrade, as `TradeLifecycle.Schedule`. */
  method ScheduleTrade(db: Db, io: Io, caller: Option<Id>, id: Id, m: Meeting, now: int) returns (r: Reply<Trade>)
    modifies db, io
    ensures Performed(db, io, id, Schedule(old(db.Snapshot()), caller, id, m, now), r)
  {
    if id !in db.trades {
      return Fail(NotFound);
    }
    var trade := db.trades[id];
    if IsParticipant(db.Snapshot(), trade, caller) {
      return Fail(Forbidden);
    }
    if m.scheduledAt.None? {
      return Fail(ServerError);
    }
    var updated := trade.(location := Patch(m.location, trade.location), scheduledAt := m.scheduledAt,
                          supervisorNote := Patch(m.supervisorNote, trade.supervisorNote),
                          supervisorId := if caller.Some? then caller else trade.supervisorId,
                          status := Scheduled, updatedAt := now);
    db.trades := db.trades[id := updated];
    io.Emit(id, TradeStatusUpdated(updated));
    r := Ok(updated);
  }

  /** proposeDeal, as `TradeLifecycle.Propose`. */
  method ProposeDeal(db: Db, io: Io, caller: Option<Id>, id: Id, terms: Terms, now: int) returns (r: Reply<Trade>)
    modifies db, io
    ensures Performed(db, io, id, Propose(old(db.Snapshot()), caller, id, terms, now), r)
  {
    if id !in db.trades {
      return Fail(NotFound);
    }
    var trade := db.trades[id];
    if trade.listingId !in db.items {
      return Fail(ServerError);
    }
    if Some(db.items[trade.listingId].sellerId) != caller {
      return Fail(Forbidden);
    }
    var updated := trade.(status := Proposed, moneyProposal := Money(terms.money),
                          barterProposal := Patch(terms.barter, trade.barterProposal),
                          commitmentProposal := Patch(terms.commitment, trade.commitmentProposal),
                          proposerId := caller, updatedAt := now);
    db.trades := db.trades[id := updated];
    io.Emit(id, TradeStatusUpdated(updated));
    r := Ok(updated);
  }

  /** acceptDeal, as `TradeLifecycle.Accept`; the two updates form one transaction. */
  method AcceptDeal(db: Db, io: Io, caller: Option<Id>, id: Id, now: int) returns (r: Reply<Trade>)
    modifies db, io
    ensures Performed(db, io, id, Accept(old(db.Snapshot()), caller, id, now), r)
  {
    if id !in db.trades {
      return Fail(NotFound);
    }
    var trade := db.trades[id];
    if caller != Some(trade.buyerId) {
      return Fail(Forbidden);
    }
    if trade.status != Proposed {
      return Fail(BadRequest);
    }
    if trade.listingId !in db.items {
      // the listing update fails, and the transaction rolls the trade update back
      return Fail(ServerError);
    }
    var updated := trade.(status := Accepted, updatedAt := now);
    var listing := db.items[trade.listingId];
    db.trades := db.trades[id := updated];
    db.items := db.items[trade.listingId := listing.(status := Sold)];
    io.Emit(id, TradeStatusUpdated(updated));
    r := Ok(updated);
  }

  /** declineDeal, as `TradeLifecycle.Decline`. */
  method DeclineDeal(db: Db, io: Io, caller: Option<Id>, id: Id, now: int) returns (r: Reply<Trade>)
    modifies db, io
    ensures Performed(db, io, id, Decline(old(db.Snapshot()), caller, id, now), r)
  {
    if id !in db.trades {
      return Fail(NotFound);
    }
    var trade := db.trades[id];
    if caller != Some(trade.buyerId) {
      return Fail(Forbidden);
    }
    if trade.status != Proposed {
      return Fail(BadRequest);
    }
    var updated := trade.(status := Negotiating, moneyProposal := None, barterProposal := None,
                          commitmentProposal := None, proposerId := None, updatedAt := now);
    db.trades := db.trades[id := updated];
    io.Emit(id, TradeStatusUpdated(updated));
    r := Ok(updated);
  }

  /** markDealDone, as `TradeLifecycle.MarkDone`: no role check. */
  method MarkDealDone(db: Db, io: Io, id: Id, now: int) returns (r: Reply<Trade>)
    modifies db, io
    ensures Performed(db, io, id, MarkDone(old(db.Snapshot()), id, now), r)
  {
    if id !in db.trades {
      return Fail(ServerError);
    }
    var updated := db.trades[id].(supervisorConfirmed := true, updatedAt := now);
    db.trades := db.trades[id := updated];
    io.Emit(id, TradeStatusUpdated(updated));
    r := Ok(updated);
  }

  /**
   * finishTrade, as `TradeLifecycle.Finish`: a first write with the caller's flag, and a
   * second one to COMPLETED when both flags are then set; one emit either way.
   */
  method FinishTrade(db: Db, io: Io, caller: Option<Id>, id: Id, now: int) returns (r: Reply<Trade>)
    modifies db, io
    ensures Performed(db, io, id, Finish(old(db.Snapshot()), caller, id, now), r)
  {
    if id !in db.trades {
      return Fail(NotFound);
    }
    var trade := db.trades[id];
    if trade.listingId !in db.items {
      // `trade.listing.sellerId` on a missing listing throws
      return Fail(ServerError);
    }
    var seller := db.items[trade.listingId].sellerId;
    var updated := Marked(trade, seller, caller, now);
    db.trades := db.trades[id := updated];
    var final := updated;
    if updated.buyerFinished && updated.sellerFinished {
      final := updated.(status := Completed);
      db.trades := db.trades[id := final];
    }
    io.Emit(id, TradeStatusUpdated(final));
    r := Ok(final);
  }
}
