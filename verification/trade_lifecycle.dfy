/**
 * The trade state machine as pure transitions over the tables: one function per
 * handler of the trade controller that changes a trade (and, for acceptance, its
 * listing). Each says what the handler answers, what it writes, and which snapshot it
 * emits to the trade's room. The invariant `Consistent` holds of every reachable store.
 */
module TradeLifecycle {

  import opened Wrappers
  import opened Entities
  import opened Store
  import opened Numbers

  /** The listing's seller (`trade.listing?.sellerId`), absent when the listing is not stored. */
  function SellerOf(t: Tables, tr: Trade): Option<Id> {
    if tr.listingId in t.items then Some(t.items[tr.listingId].sellerId) else None
  }

  /**
   * `trade.buyerId === caller || trade.listing?.sellerId === caller`, where an absent
   * caller equals an absent seller as `undefined === undefined` does.
   */
  predicate IsParticipant(t: Tables, tr: Trade, caller: Option<Id>) {
    caller == Some(tr.buyerId) || SellerOf(t, tr) == caller
  }

  /** A failed handler: the given status, nothing written, nothing emitted. */
  predicate Rejected<T>(s: Step<T>, t: Tables, c: Code) {
    s.reply == Fail(c) && s.after == t && s.emitted == None
  }

  /**
   * A successful trade handler: it wrote only trade `id`, the listings and issues are
   * untouched, and the reply is the stored trade, which is also what it emitted.
   */
  predicate Saved(s: Step<Trade>, t: Tables, id: Id) {
    && s.reply.Ok?
    && s.after.trades == t.trades[id := s.reply.value]
    && s.after.items == t.items
    && s.after.issues == t.issues
    && s.emitted == Some(s.reply.value)
  }

  /** A trade of this buyer for this listing that has not been cancelled. */
  predicate IsOpenFor(tr: Trade, listingId: Id, buyerId: Id) {
    tr.listingId == listingId && tr.buyerId == buyerId && tr.status != Cancelled
  }

  /** A freshly initiated trade. */
  function NewTrade(id: Id, listingId: Id, buyerId: Id, now: int): Trade {
    Trade(id, listingId, buyerId, Negotiating, None, None, None, None, None, None, None, None,
          false, false, false, now, now)
  }

  /**
   * A field of a JSON request body: left out, sent as `null`, or sent with a value. An
   * update given a field left out (`undefined`) leaves that column as it was.
   */
  datatype Field<T> = Absent | Null | Value(value: T)

  /** The column after an update passed field `f`. */
  function Patch<T>(f: Field<T>, current: Option<T>): Option<T> {
    match f
    case Absent => current
    case Null => None
    case Value(v) => Some(v)
  }

  /** `parseFloat(moneyProposal)`: the amount, or `None` for NaN (left out, null or no number). */
  function Money(text: Option<string>): (r: Option<int>)
    ensures r.Some? <==> text.Some? && ParseDecimal(text.value).Some?
    ensures r.Some? ==> r == ParseDecimal(text.value)
  {
    if text.Some? then ParseDecimal(text.value) else None
  }

  /** The body of a proposal; the amount is the text `parseFloat` reads (`None`: left out or null). */
  datatype Terms = Terms(money: Option<string>, barter: Field<string>, commitment: Field<string>)

  /** The body of a schedule; `scheduledAt` is absent when it is not a valid date. */
  datatype Meeting = Meeting(location: Field<string>, scheduledAt: Option<int>, supervisorNote: Field<string>)

  /**
   * scheduleTrade: any caller who is not a participant becomes the trade's supervisor
   * and the trade is SCHEDULED, whatever its status was. A location or note left out of
   * the body keeps its stored value; one sent as null clears it.
   */
  function Schedule(t: Tables, caller: Option<Id>, id: Id, m: Meeting, now: int): (s: Step<Trade>)
    ensures id !in t.trades ==> Rejected(s, t, NotFound)
    ensures id in t.trades && IsParticipant(t, t.trades[id], caller) ==> Rejected(s, t, Forbidden)
    ensures id in t.trades && !IsParticipant(t, t.trades[id], caller) && m.scheduledAt.None? ==>
              Rejected(s, t, ServerError)
    ensures s.reply.Ok? <==> id in t.trades && !IsParticipant(t, t.trades[id], caller) && m.scheduledAt.Some?
    ensures s.reply.Ok? ==>
              var old_ := t.trades[id];
              && Saved(s, t, id)
              && s.reply.value == old_.(status := Scheduled, location := Patch(m.location, old_.location),
                                        scheduledAt := m.scheduledAt,
                                        supervisorNote := Patch(m.supervisorNote, old_.supervisorNote),
                                        supervisorId := if caller.Some? then caller else old_.supervisorId,
                                        updatedAt := now)
              && (caller.Some? ==> caller.value != old_.buyerId && SellerOf(t, old_) != caller)
  {
    if id !in t.trades then Step(Fail(NotFound), t, None)
    else
      var tr := t.trades[id];
      if IsParticipant(t, tr, caller) then Step(Fail(Forbidden), t, None)
      else if m.scheduledAt.None? then Step(Fail(ServerError), t, None)
      else
        var tr' := tr.(location := Patch(m.location, tr.location), scheduledAt := m.scheduledAt,
                       supervisorNote := Patch(m.supervisorNote, tr.supervisorNote),
                       supervisorId := if caller.Some? then caller else tr.supervisorId,
                       status := Scheduled, updatedAt := now);
        Step(Ok(tr'), t.(trades := t.trades[id := tr']), Some(tr'))
  }

  /**
   * proposeDeal: only the listing's seller may propose; the trade becomes PROPOSED with
   * the new terms from any status. The amount is always written (NaN when it is not a
   * number); barter or commitment terms left out of the body keep their stored values.
   */
  function Propose(t: Tables, caller: Option<Id>, id: Id, terms: Terms, now: int): (s: Step<Trade>)
    ensures id !in t.trades ==> Rejected(s, t, NotFound)
    ensures id in t.trades && SellerOf(t, t.trades[id]).None? ==> Rejected(s, t, ServerError)
    ensures id in t.trades && SellerOf(t, t.trades[id]).Some? && caller != SellerOf(t, t.trades[id]) ==>
              Rejected(s, t, Forbidden)
    ensures s.reply.Ok? <==> id in t.trades && SellerOf(t, t.trades[id]).Some? && caller == SellerOf(t, t.trades[id])
    ensures s.reply.Ok? ==>
              && Saved(s, t, id)
              && s.reply.value == t.trades[id].(status := Proposed, moneyProposal := Money(terms.money),
                                                barterProposal := Patch(terms.barter, t.trades[id].barterProposal),
                                                commitmentProposal := Patch(terms.commitment, t.trades[id].commitmentProposal),
                                                proposerId := caller, updatedAt := now)
  {
    if id !in t.trades then Step(Fail(NotFound), t, None)
    else
      var tr := t.trades[id];
      var seller := SellerOf(t, tr);
      if seller.None? then Step(Fail(ServerError), t, None)
      else if seller != caller then Step(Fail(Forbidden), t, None)
      else
        var tr' := tr.(status := Proposed, moneyProposal := Money(terms.money),
                       barterProposal := Patch(terms.barter, tr.barterProposal),
                       commitmentProposal := Patch(terms.commitment, tr.commitmentProposal),
                       proposerId := caller, updatedAt := now);
        Step(Ok(tr'), t.(trades := t.trades[id := tr']), Some(tr'))
  }

  /**
   * acceptDeal: only the buyer, only from PROPOSED. The trade becomes ACCEPTED and its
   * listing SOLD in one transaction: both writes happen or neither does, so a listing
   * that is gone rolls the trade back and gives 500.
   */
  function Accept(t: Tables, caller: Option<Id>, id: Id, now: int): (s: Step<Trade>)
    ensures id !in t.trades ==> Rejected(s, t, NotFound)
    ensures id in t.trades && caller != Some(t.trades[id].buyerId) ==> Rejected(s, t, Forbidden)
    ensures id in t.trades && caller == Some(t.trades[id].buyerId) && t.trades[id].status != Proposed ==>
              Rejected(s, t, BadRequest)
    ensures (id in t.trades && caller == Some(t.trades[id].buyerId) && t.trades[id].status == Proposed
             && t.trades[id].listingId !in t.items) ==> Rejected(s, t, ServerError)
    ensures s.reply.Ok? <==>
              id in t.trades && caller == Some(t.trades[id].buyerId) && t.trades[id].status == Proposed
              && t.trades[id].listingId in t.items
    ensures !s.reply.Ok? ==> s.after == t && s.emitted == None
    ensures s.reply.Ok? ==>
              var l := t.trades[id].listingId;
              && s.reply.value == t.trades[id].(status := Accepted, updatedAt := now)
              && s.after.trades == t.trades[id := s.reply.value]
              && s.after.items == t.items[l := t.items[l].(status := Sold)]
              && s.after.issues == t.issues
              && s.emitted == Some(s.reply.value)
  {
    if id !in t.trades then Step(Fail(NotFound), t, None)
    else
      var tr := t.trades[id];
      if caller != Some(tr.buyerId) then Step(Fail(Forbidden), t, None)
      else if tr.status != Proposed then Step(Fail(BadRequest), t, None)
      else if tr.listingId !in t.items then Step(Fail(ServerError), t, None)
      else
        var tr' := tr.(status := Accepted, updatedAt := now);
        var item := t.items[tr.listingId];
        Step(Ok(tr'), t.(trades := t.trades[id := tr'], items := t.items[tr.listingId := item.(status := Sold)]),
             Some(tr'))
  }

  /**
   * declineDeal: only the buyer, only from PROPOSED; the trade goes back to NEGOTIATING
   * and every proposal field, the proposer included, is cleared.
   */
  function Decline(t: Tables, caller: Option<Id>, id: Id, now: int): (s: Step<Trade>)
    ensures id !in t.trades ==> Rejected(s, t, NotFound)
    ensures id in t.trades && caller != Some(t.trades[id].buyerId) ==> Rejected(s, t, Forbidden)
    ensures id in t.trades && caller == Some(t.trades[id].buyerId) && t.trades[id].status != Proposed ==>
              Rejected(s, t, BadRequest)
    ensures s.reply.Ok? <==>
              id in t.trades && caller == Some(t.trades[id].buyerId) && t.trades[id].status == Proposed
    ensures s.reply.Ok? ==>
              && Saved(s, t, id)
              && s.reply.value == t.trades[id].(status := Negotiating, moneyProposal := None,
                                                barterProposal := None, commitmentProposal := None,
                                                proposerId := None, updatedAt := now)
  {
    if id !in t.trades then Step(Fail(NotFound), t, None)
    else
      var tr := t.trades[id];
      if caller != Some(tr.buyerId) then Step(Fail(Forbidden), t, None)
      else if tr.status != Proposed then Step(Fail(BadRequest), t, None)
      else
        var tr' := tr.(status := Negotiating, moneyProposal := None, barterProposal := None,
                       commitmentProposal := None, proposerId := None, updatedAt := now);
        Step(Ok(tr'), t.(trades := t.trades[id := tr']), Some(tr'))
  }

  /**
   * markDealDone: anyone may set supervisorConfirmed; the status is left alone. An
   * update of a missing trade throws, hence 500 rather than 404.
   */
  function MarkDone(t: Tables, id: Id, now: int): (s: Step<Trade>)
    ensures id !in t.trades ==> Rejected(s, t, ServerError)
    ensures id in t.trades ==>
              && Saved(s, t, id)
              && s.reply.value == t.trades[id].(supervisorConfirmed := true, updatedAt := now)
  {
    if id !in t.trades then Step(Fail(ServerError), t, None)
    else
      var tr' := t.trades[id].(supervisorConfirmed := true, updatedAt := now);
      Step(Ok(tr'), t.(trades := t.trades[id := tr']), Some(tr'))
  }

  /** The trade after finishTrade's first write: the caller's own flag set, if the caller is a party. */
  function Marked(tr: Trade, seller: Id, caller: Option<Id>, now: int): Trade {
    tr.(buyerFinished := tr.buyerFinished || caller == Some(tr.buyerId),
        sellerFinished := tr.sellerFinished || caller == Some(seller),
        updatedAt := now)
  }

  /**
   * finishTrade: the buyer sets buyerFinished, the seller sellerFinished, anyone else
   * nothing; if both flags are then set the trade is COMPLETED. Flags are never cleared
   * and supervisorConfirmed is not consulted.
   */
  function Finish(t: Tables, caller: Option<Id>, id: Id, now: int): (s: Step<Trade>)
    ensures id !in t.trades ==> Rejected(s, t, NotFound)
    ensures id in t.trades && SellerOf(t, t.trades[id]).None? ==> Rejected(s, t, ServerError)
    ensures s.reply.Ok? <==> id in t.trades && SellerOf(t, t.trades[id]).Some?
    ensures s.reply.Ok? ==>
              var old_ := t.trades[id];
              var new_ := s.reply.value;
              && Saved(s, t, id)
              && new_.buyerFinished == (old_.buyerFinished || caller == Some(old_.buyerId))
              && new_.sellerFinished == (old_.sellerFinished || caller == SellerOf(t, old_))
              && new_.status == (if new_.buyerFinished && new_.sellerFinished then Completed else old_.status)
              && new_ == old_.(buyerFinished := new_.buyerFinished, sellerFinished := new_.sellerFinished,
                               status := new_.status, updatedAt := now)
  {
    if id !in t.trades then Step(Fail(NotFound), t, None)
    else
      var tr := t.trades[id];
      if SellerOf(t, tr).None? then Step(Fail(ServerError), t, None)
      else
        var marked := Marked(tr, SellerOf(t, tr).value, caller, now);
        if marked.buyerFinished && marked.sellerFinished then
          var done := marked.(status := Completed);
          Step(Ok(done), t.(trades := t.trades[id := done]), Some(done))
        else
          Step(Ok(marked), t.(trades := t.trades[id := marked]), Some(marked))
  }

  /**
   * updateTradeStatus: any caller may write any status the store accepts, from any
   * status, with nothing emitted. An absent status writes nothing but the timestamp.
   */
  function SetStatus(t: Tables, id: Id, status: Option<string>, now: int): (s: Step<Trade>)
    ensures id !in t.trades ==> Rejected(s, t, ServerError)
    ensures status.Some? && ParseTradeStatus(status.value).None? ==> Rejected(s, t, ServerError)
    ensures s.reply.Ok? <==> id in t.trades && (status.None? || ParseTradeStatus(status.value).Some?)
    ensures s.reply.Ok? ==>
              && s.after.trades == t.trades[id := s.reply.value]
              && s.after.items == t.items && s.after.issues == t.issues
              && s.emitted == None
              && s.reply.value == t.trades[id].(status := if status.Some? then ParseTradeStatus(status.value).value
                                                          else t.trades[id].status,
                                                updatedAt := now)
  {
    if id !in t.trades then Step(Fail(ServerError), t, None)
    else if status.Some? && ParseTradeStatus(status.value).None? then Step(Fail(ServerError), t, None)
    else
      var tr := t.trades[id];
      var tr' := tr.(status := if status.Some? then ParseTradeStatus(status.value).value else tr.status,
                     updatedAt := now);
      Step(Ok(tr'), t.(trades := t.trades[id := tr']), None)
  }

  /** A stored trade's own invariant: its listing is stored, and nobody trades with or supervises themselves. */
  predicate TradeWellFormed(t: Tables, tr: Trade) {
    && tr.listingId in t.items
    && tr.buyerId != t.items[tr.listingId].sellerId
    && (tr.supervisorId.Some? ==>
          tr.supervisorId.value != tr.buyerId && tr.supervisorId.value != t.items[tr.listingId].sellerId)
  }

  /**
   * The store invariant: records are filed under their own ids, every trade is well
   * formed, and every issue refers to a stored trade.
   */
  predicate Consistent(t: Tables) {
    && (forall k | k in t.items :: t.items[k].id == k)
    && (forall k | k in t.trades :: t.trades[k].id == k && TradeWellFormed(t, t.trades[k]))
    && (forall k | k in t.issues :: t.issues[k].id == k && t.issues[k].tradeId in t.trades)
  }
}
