/**
 * Properties of sequences of trade and dispute handlers: the store invariant and the
 * finality of SOLD over any run, the two walkthroughs of a trade (completion, and
 * dispute), and the places where the handlers let a trade skip the state machine.
 */
module Scenarios {

  import opened Wrappers
  import opened Entities
  import opened Store
  import TL = TradeLifecycle
  import D = Dispute
  import N = Numbers

  /** One call of a trade or issue handler that changes the store. */
  datatype Action =
    | Schedule(caller: Option<Id>, id: Id, m: TL.Meeting, now: int)
    | Propose(caller: Option<Id>, id: Id, terms: TL.Terms, now: int)
    | Accept(caller: Option<Id>, id: Id, now: int)
    | Decline(caller: Option<Id>, id: Id, now: int)
    | MarkDone(id: Id, now: int)
    | Finish(caller: Option<Id>, id: Id, now: int)
    | SetStatus(id: Id, status: Option<string>, now: int)
    | Report(caller: Option<Id>, tradeId: Option<Id>, description: Option<string>, issueId: Id, now: int)
    | Claim(caller: Option<Id>, id: Id)
    | ResolveParty(caller: Option<Id>, id: Id, now: int)
    | Finalize(id: Id)

  /** The tables after one handler call (unchanged when it fails). */
  function Apply(t: Tables, a: Action): Tables {
    match a
    case Schedule(c, id, m, now) => TL.Schedule(t, c, id, m, now).after
    case Propose(c, id, terms, now) => TL.Propose(t, c, id, terms, now).after
    case Accept(c, id, now) => TL.Accept(t, c, id, now).after
    case Decline(c, id, now) => TL.Decline(t, c, id, now).after
    case MarkDone(id, now) => TL.MarkDone(t, id, now).after
    case Finish(c, id, now) => TL.Finish(t, c, id, now).after
    case SetStatus(id, status, now) => TL.SetStatus(t, id, status, now).after
    case Report(c, tradeId, d, issueId, now) => D.Report(t, c, tradeId, d, issueId, now).after
    case Claim(c, id) => D.Claim(t, c, id).after
    case ResolveParty(c, id, now) => D.ResolveParty(t, c, id, now).after
    case Finalize(id) => D.Finalize(t, id).after
  }

  /** The tables after a sequence of handler calls, one after the other. */
  function Run(t: Tables, actions: seq<Action>): Tables
    decreases |actions|
  {
    if actions == [] then t else Run(Apply(t, actions[0]), actions[1..])
  }

  /**
   * Listings are never added or removed by these handlers and keep their id and seller;
   * trades are never removed.
   */
  predicate Frame(t: Tables, t': Tables) {
    && t'.items.Keys == t.items.Keys
    && (forall l | l in t.items :: t'.items[l].id == t.items[l].id && t'.items[l].sellerId == t.items[l].sellerId)
    && t.trades.Keys <= t'.trades.Keys
  }

  /**
   * A trade keeps its id, listing and buyer; its supervisor is either unchanged or
   * someone who is neither the buyer nor the seller.
   */
  predicate SameParties(t: Tables, tr: Trade, tr': Trade) {
    && tr'.id == tr.id && tr'.listingId == tr.listingId && tr'.buyerId == tr.buyerId
    && (tr'.supervisorId == tr.supervisorId
        || (tr'.supervisorId.Some? && tr'.supervisorId.value != tr.buyerId && TL.SellerOf(t, tr) != tr'.supervisorId))
  }

  /** What every handler guarantees about the tables before and after it. */
  predicate Evolves(t: Tables, t': Tables) {
    && Frame(t, t')
    && (forall k | k in t'.trades :: k in t.trades && SameParties(t, t.trades[k], t'.trades[k]))
    && (forall k | k in t'.issues :: t'.issues[k].id == k && t'.issues[k].tradeId in t'.trades)
  }

  lemma EvolvesKeepsConsistent(t: Tables, t': Tables)
    requires TL.Consistent(t) && Evolves(t, t')
    ensures TL.Consistent(t')
  {
    forall k | k in t'.trades
      ensures t'.trades[k].id == k && TL.TradeWellFormed(t', t'.trades[k])
    {
      assert TL.TradeWellFormed(t, t.trades[k]);
    }
  }

  /** Rewriting one trade without changing its parties. */
  lemma TradeWriteEvolves(t: Tables, id: Id, tr': Trade)
    requires TL.Consistent(t) && id in t.trades && SameParties(t, t.trades[id], tr')
    ensures Evolves(t, t.(trades := t.trades[id := tr']))
  {
  }

  /** Rewriting one issue, filed under its id and about a stored trade. */
  lemma IssueWriteEvolves(t: Tables, id: Id, issue: Issue)
    requires TL.Consistent(t) && issue.id == id && issue.tradeId in t.trades
    ensures Evolves(t, t.(issues := t.issues[id := issue]))
  {
  }

  /** A step that changes nothing, or rewrites a single trade keeping its parties. */
  predicate TradeStepEvolves(t: Tables, s: Step<Trade>, id: Id) {
    s.after == t || (id in t.trades && s.reply.Ok? && s.after == t.(trades := t.trades[id := s.reply.value])
                     && SameParties(t, t.trades[id], s.reply.value))
  }

  lemma TradeStepKeeps(t: Tables, s: Step<Trade>, id: Id)
    requires TL.Consistent(t) && TradeStepEvolves(t, s, id)
    ensures Evolves(t, s.after)
  {
    if s.after != t {
      TradeWriteEvolves(t, id, s.reply.value);
    }
  }

  lemma ScheduleEvolves(t: Tables, c: Option<Id>, id: Id, m: TL.Meeting, now: int)
    requires TL.Consistent(t)
    ensures Evolves(t, TL.Schedule(t, c, id, m, now).after)
  {
    var s := TL.Schedule(t, c, id, m, now);
    TradeStepKeeps(t, s, id);
  }

  lemma AcceptEvolves(t: Tables, c: Option<Id>, id: Id, now: int)
    requires TL.Consistent(t)
    ensures Evolves(t, TL.Accept(t, c, id, now).after)
  {
    var s := TL.Accept(t, c, id, now);
    if s.reply.Ok? {
      var t1 := t.(trades := t.trades[id := s.reply.value]);
      TradeWriteEvolves(t, id, s.reply.value);
      assert s.after == t1.(items := s.after.items);
    }
  }

  lemma ReportEvolves(t: Tables, c: Option<Id>, tradeId: Option<Id>, d: Option<string>, issueId: Id, now: int)
    requires TL.Consistent(t)
    ensures Evolves(t, D.Report(t, c, tradeId, d, issueId, now).after)
  {
    var s := D.Report(t, c, tradeId, d, issueId, now);
    if s.reply.Ok? {
      var t1 := t.(trades := s.after.trades);
      TradeWriteEvolves(t, tradeId.value, t.trades[tradeId.value].(status := UnderReview, updatedAt := now));
      assert s.after == t1.(issues := t.issues[issueId := s.reply.value]);
    }
  }

  lemma ResolvePartyEvolves(t: Tables, c: Option<Id>, id: Id, now: int)
    requires TL.Consistent(t)
    ensures Evolves(t, D.ResolveParty(t, c, id, now).after)
  {
    var s := D.ResolveParty(t, c, id, now);
    if s.reply.Ok? {
      var tid := t.issues[id].tradeId;
      var t1 := t.(trades := s.after.trades);
      if s.after.trades != t.trades {
        TradeWriteEvolves(t, tid, s.after.trades[tid]);
      }
      assert s.after == t1.(issues := t.issues[id := s.reply.value]);
    }
  }

  lemma IssueStepEvolves(t: Tables, s: Step<Issue>, id: Id)
    requires TL.Consistent(t)
    requires s.after == t || (D.IssueSaved(s, t, id) && s.reply.value.id == id && s.reply.value.tradeId in t.trades)
    ensures Evolves(t, s.after)
  {
    if s.after != t {
      IssueWriteEvolves(t, id, s.reply.value);
    }
  }

  /** Every handler keeps the frame and the store invariant. */
  lemma ApplyKeepsConsistent(t: Tables, a: Action)
    requires TL.Consistent(t)
    ensures Frame(t, Apply(t, a))
    ensures TL.Consistent(Apply(t, a))
  {
    match a {
      case Schedule(c, id, m, now) => ScheduleEvolves(t, c, id, m, now);
      case Propose(c, id, terms, now) => TradeStepKeeps(t, TL.Propose(t, c, id, terms, now), id);
      case Accept(c, id, now) => AcceptEvolves(t, c, id, now);
      case Decline(c, id, now) => TradeStepKeeps(t, TL.Decline(t, c, id, now), id);
      case MarkDone(id, now) => TradeStepKeeps(t, TL.MarkDone(t, id, now), id);
      case Finish(c, id, now) => TradeStepKeeps(t, TL.Finish(t, c, id, now), id);
      case SetStatus(id, status, now) => TradeStepKeeps(t, TL.SetStatus(t, id, status, now), id);
      case Report(c, tradeId, d, issueId, now) => ReportEvolves(t, c, tradeId, d, issueId, now);
      case Claim(c, id) => IssueStepEvolves(t, D.Claim(t, c, id), id);
      case ResolveParty(c, id, now) => ResolvePartyEvolves(t, c, id, now);
      case Finalize(id) => IssueStepEvolves(t, D.Finalize(t, id), id);
    }
    EvolvesKeepsConsistent(t, Apply(t, a));
  }

  /** The store invariant holds after any sequence of handler calls. */
  lemma {:induction false} RunKeepsConsistent(t: Tables, actions: seq<Action>)
    requires TL.Consistent(t)
    ensures TL.Consistent(Run(t, actions))
    decreases |actions|
  {
    if actions != [] {
      ApplyKeepsConsistent(t, actions[0]);
      RunKeepsConsistent(Apply(t, actions[0]), actions[1..]);
    }
  }

  /** No handler takes a listing out of SOLD, and only an accepted deal puts one into it. */
  lemma SoldOnlyByAccept(t: Tables, a: Action, l: Id)
    requires l in t.items
    ensures l in Apply(t, a).items
    ensures t.items[l].status == Sold ==> Apply(t, a).items[l].status == Sold
    ensures t.items[l].status != Sold && Apply(t, a).items[l].status == Sold ==>
              && a.Accept?
              && a.id in t.trades
              && t.trades[a.id].listingId == l
              && t.trades[a.id].status == Proposed
              && Apply(t, a).trades[a.id].status == Accepted
  {
  }

  /** A SOLD listing stays SOLD, whatever handlers run afterwards. */
  lemma {:induction false} SoldIsFinal(t: Tables, actions: seq<Action>, l: Id)
    requires l in t.items && t.items[l].status == Sold
    ensures l in Run(t, actions).items && Run(t, actions).items[l].status == Sold
    decreases |actions|
  {
    if actions != [] {
      SoldOnlyByAccept(t, actions[0], l);
      SoldIsFinal(Apply(t, actions[0]), actions[1..], l);
    }
  }

  /**
   * A trade becomes ACCEPTED only by the buyer accepting a proposal, or through the
   * unguarded status update, which leaves the listing as it was.
   */
  lemma AcceptedOnlyFromProposal(t: Tables, a: Action, k: Id)
    requires k in t.trades && t.trades[k].status != Accepted
    requires k in Apply(t, a).trades && Apply(t, a).trades[k].status == Accepted
    ensures (a.Accept? && t.trades[k].status == Proposed) || (a.SetStatus? && Apply(t, a).items == t.items)
  {
  }

  /** The unguarded status update makes a NEGOTIATING trade ACCEPTED and leaves its listing unsold. */
  lemma BackdoorAcceptsWithoutSale(t: Tables, id: Id, now: int)
    requires id in t.trades && t.trades[id].status == Negotiating
    requires t.trades[id].listingId in t.items && t.items[t.trades[id].listingId].status == Verified
    ensures var s := TL.SetStatus(t, id, Some("ACCEPTED"), now);
            && s.reply.Ok?
            && s.after.trades[id].status == Accepted
            && s.after.items[t.trades[id].listingId].status == Verified
  {
    assert ParseTradeStatus("ACCEPTED") == Some(Accepted);
  }

  /** Declining and then proposing again leaves exactly the new terms, never a mixture. */
  lemma DeclineThenPropose(t: Tables, buyer: Id, seller: Id, id: Id, terms: TL.Terms, now1: int, now2: int)
    requires id in t.trades && t.trades[id].status == Proposed && t.trades[id].buyerId == buyer
    requires TL.SellerOf(t, t.trades[id]) == Some(seller)
    ensures var d := TL.Decline(t, Some(buyer), id, now1);
            var p := TL.Propose(d.after, Some(seller), id, terms, now2);
            && d.reply.Ok? && p.reply.Ok?
            && p.reply.value == t.trades[id].(status := Proposed, moneyProposal := TL.Money(terms.money),
                                              barterProposal := TL.Patch(terms.barter, None),
                                              commitmentProposal := TL.Patch(terms.commitment, None),
                                              proposerId := Some(seller), updatedAt := now2)
  {
    var d := TL.Decline(t, Some(buyer), id, now1);
    assert TL.SellerOf(d.after, d.after.trades[id]) == Some(seller);
  }

  /**
   * Without a decline in between, a new proposal that leaves out the barter and
   * commitment terms keeps the stored ones beside its new amount.
   */
  lemma ReproposeKeepsUnsentTerms(t: Tables, seller: Id, id: Id, money: Option<string>, now: int)
    requires id in t.trades && TL.SellerOf(t, t.trades[id]) == Some(seller)
    ensures var p := TL.Propose(t, Some(seller), id, TL.Terms(money, TL.Absent, TL.Absent), now);
            && p.reply.Ok?
            && p.reply.value.moneyProposal == TL.Money(money)
            && p.reply.value.barterProposal == t.trades[id].barterProposal
            && p.reply.value.commitmentProposal == t.trades[id].commitmentProposal
  {
  }

  /**
   * A reschedule that sends only a new date keeps the stored location and note, and one
   * that sends them as null clears them.
   */
  lemma RescheduleKeepsUnsentFields(t: Tables, supervisor: Id, id: Id, date: int, now: int)
    requires id in t.trades && !TL.IsParticipant(t, t.trades[id], Some(supervisor))
    ensures var sc := TL.Schedule(t, Some(supervisor), id, TL.Meeting(TL.Absent, Some(date), TL.Absent), now);
            && sc.reply.Ok?
            && sc.reply.value.location == t.trades[id].location
            && sc.reply.value.supervisorNote == t.trades[id].supervisorNote
            && sc.reply.value.scheduledAt == Some(date)
    ensures var sc := TL.Schedule(t, Some(supervisor), id, TL.Meeting(TL.Null, Some(date), TL.Null), now);
            && sc.reply.Ok?
            && sc.reply.value.location == None
            && sc.reply.value.supervisorNote == None
  {
  }

  /**
   * finishTrade is idempotent per party: a second call by the same caller leaves the same
   * flags and status (only the timestamp moves) and emits the snapshot again.
   */
  lemma FinishTwice(t: Tables, caller: Option<Id>, id: Id, now1: int, now2: int)
    requires id in t.trades && TL.SellerOf(t, t.trades[id]).Some?
    ensures var f1 := TL.Finish(t, caller, id, now1);
            var f2 := TL.Finish(f1.after, caller, id, now2);
            && f1.reply.Ok? && f2.reply.Ok?
            && f2.reply.value == f1.reply.value.(updatedAt := now2)
            && f2.emitted == Some(f2.reply.value)
  {
    var f1 := TL.Finish(t, caller, id, now1);
    assert TL.SellerOf(f1.after, f1.after.trades[id]) == TL.SellerOf(t, t.trades[id]);
  }

  /**
   * The completion walkthrough: propose an amount written in decimal, accept, schedule,
   * confirm, and both parties finish.
   */
  lemma CompletionWalkthrough(seller: Id, buyer: Id, supervisor: Id, id: Id, item: Item, price: int)
    requires buyer != item.sellerId && supervisor != buyer && supervisor != item.sellerId
    requires seller == item.sellerId
    ensures var t0 := Tables(map[id := TL.NewTrade(id, item.id, buyer, 0)], map[item.id := item], map[]);
            var p := TL.Propose(t0, Some(seller), id, TL.Terms(Some(N.ShowInt(price)), TL.Value(""), TL.Value("meet at gate")), 1);
            var a := TL.Accept(p.after, Some(buyer), id, 2);
            var sc := TL.Schedule(a.after, Some(supervisor), id, TL.Meeting(TL.Value("SAC"), Some(3), TL.Absent), 3);
            var md := TL.MarkDone(sc.after, id, 4);
            var f1 := TL.Finish(md.after, Some(seller), id, 5);
            var f2 := TL.Finish(f1.after, Some(buyer), id, 6);
            && p.reply.Ok? && p.reply.value.status == Proposed && p.reply.value.moneyProposal == Some(price)
            && a.reply.Ok? && a.reply.value.status == Accepted && a.after.items[item.id].status == Sold
            && sc.reply.Ok? && sc.reply.value.status == Scheduled && sc.reply.value.supervisorId == Some(supervisor)
            && md.reply.Ok? && md.reply.value.supervisorConfirmed && md.reply.value.status == Scheduled
            && f1.reply.Ok? && f1.reply.value.sellerFinished && f1.reply.value.status == Scheduled
            && f2.reply.Ok? && f2.reply.value.buyerFinished && f2.reply.value.status == Completed
  {
    N.ParseShowInt(price);
  }

  /**
   * The dispute walkthrough: a report puts a SCHEDULED trade under review, another
   * supervisor claims the issue, both parties acknowledge and the issue is finalized;
   * the trade is still UNDER_REVIEW, with both completion flags mirrored onto it.
   */
  lemma DisputeWalkthrough(t: Tables, buyer: Id, seller: Id, supervisor: Id, id: Id, issueId: Id)
    requires TL.Consistent(t)
    requires id in t.trades && t.trades[id].status == Scheduled && t.trades[id].buyerId == buyer
    requires TL.SellerOf(t, t.trades[id]) == Some(seller)
    requires issueId !in t.issues
    ensures var r := D.Report(t, Some(buyer), Some(id), Some("item damaged"), issueId, 1);
            var c := D.Claim(r.after, Some(supervisor), issueId);
            var rb := D.ResolveParty(c.after, Some(buyer), issueId, 2);
            var rs := D.ResolveParty(rb.after, Some(seller), issueId, 3);
            var f := D.Finalize(rs.after, issueId);
            && r.reply.Ok? && r.reply.value.status == Open && r.after.trades[id].status == UnderReview
            && c.reply.Ok? && c.reply.value.status == IssueStatus.Pending && c.reply.value.supervisorId == supervisor
            && rs.reply.Ok? && rs.reply.value.buyerResolved && rs.reply.value.sellerResolved
            && rs.after.trades[id].buyerFinished && rs.after.trades[id].sellerFinished
            && f.reply.Ok? && f.reply.value.status == Resolved
            && f.after.trades[id].status == UnderReview
  {
    var t1 := D.Report(t, Some(buyer), Some(id), Some("item damaged"), issueId, 1).after;
    assert TL.SellerOf(t1, t1.trades[id]) == Some(seller);
    assert seller != buyer by {
      assert TL.TradeWellFormed(t, t.trades[id]);
    }
  }

  /**
   * Dual bookkeeping: once both parties have acknowledged an issue, the mirrored flags
   * let any finishTrade call, by anyone at all, complete the trade under review.
   */
  lemma AcknowledgedDisputeCompletesOnAnyFinish(t: Tables, buyer: Id, seller: Id, issueId: Id,
                                                anyone: Option<Id>, now1: int, now2: int, now3: int)
    requires TL.Consistent(t)
    requires issueId in t.issues
    requires var tr := t.trades[t.issues[issueId].tradeId];
             tr.buyerId == buyer && TL.SellerOf(t, tr) == Some(seller)
    ensures var id := t.issues[issueId].tradeId;
            var rb := D.ResolveParty(t, Some(buyer), issueId, now1);
            var rs := D.ResolveParty(rb.after, Some(seller), issueId, now2);
            var f := TL.Finish(rs.after, anyone, id, now3);
            f.reply.Ok? && f.reply.value.status == Completed
  {
    var id := t.issues[issueId].tradeId;
    assert TL.TradeWellFormed(t, t.trades[id]);
    var rb := D.ResolveParty(t, Some(buyer), issueId, now1);
    assert TL.SellerOf(rb.after, rb.after.trades[id]) == Some(seller);
    var rs := D.ResolveParty(rb.after, Some(seller), issueId, now2);
    assert TL.SellerOf(rs.after, rs.after.trades[id]) == Some(seller);
  }

  /** Anyone signed in can put even a COMPLETED trade back under review. */
  lemma StrangerReopensCompletedTrade(t: Tables, stranger: Id, id: Id, issueId: Id, now: int)
    requires id in t.trades && t.trades[id].status == Completed && issueId !in t.issues
    requires stranger != t.trades[id].buyerId && TL.SellerOf(t, t.trades[id]) != Some(stranger)
    ensures var r := D.Report(t, Some(stranger), Some(id), Some(""), issueId, now);
            r.reply.Ok? && r.after.trades[id].status == UnderReview
  {
  }

  /** Claiming a RESOLVED issue moves it back to PENDING. */
  lemma ClaimReopensResolvedIssue(t: Tables, supervisor: Id, id: Id)
    requires id in t.issues && t.issues[id].status == Resolved
    ensures var c := D.Claim(t, Some(supervisor), id);
            c.reply.Ok? && c.reply.value.status == IssueStatus.Pending && c.reply.value.supervisorId == supervisor
  {
  }
}
