/**
 * The client's trade store in its mock form: no request reaches the server; each
 * action rewrites the in-memory active trade directly, whatever state it is in.
 */
module TradeStore {

  import opened Wrappers
  import opened Entities

  const MockSellerId := "mock-seller-789"
  const MockBuyerId := "mock-user-123"
  const MockTradeId := "mock-trade-456"

  /** The terms the client passes to proposeDeal; a term it leaves out is `undefined` in the record. */
  datatype ClientTerms = ClientTerms(money: Option<int>, barter: Option<string>, commitment: Option<string>)

  /** A chat line as the client keeps it, with the sender's display name. */
  datatype ClientMessage = ClientMessage(senderId: Id, senderName: string, content: string, createdAt: int)

  /** The part of the client's trade record the actions read or write. */
  datatype ClientTrade = ClientTrade(
    id: Id,
    status: TradeStatus,
    sellerId: Id,
    buyerId: Id,
    moneyProposal: Option<int>,
    barterProposal: Option<string>,
    commitmentProposal: Option<string>,
    proposerId: Option<Id>,
    messages: seq<ClientMessage>)

  /** The display name the mock gives a sender: the buyer's, or else the seller's. */
  function SenderName(senderId: Id): string {
    if senderId == MockBuyerId then "Demo Inhabitant" else "Aryan Sharma"
  }

  /** The canned trade `fetchTrade` shows for any id: NEGOTIATING, with two opening messages. */
  function MockTrade(tradeId: Id, now: int): (tr: ClientTrade)
    ensures tr.id == tradeId && tr.status == Negotiating
    ensures tr.sellerId == MockSellerId && tr.buyerId == MockBuyerId
    ensures |tr.messages| == 2 && tr.messages[0].senderId == tr.sellerId && tr.messages[1].senderId == tr.buyerId
    ensures tr.messages[0].createdAt < tr.messages[1].createdAt < now
  {
    ClientTrade(tradeId, Negotiating, MockSellerId, MockBuyerId, None, None, None, None,
                [ClientMessage(MockSellerId, "Aryan Sharma",
                               "Hi! I saw you are interested in the laptop. What is your offer?", now - 3600000),
                 ClientMessage(MockBuyerId, "Demo Inhabitant",
                               "Hey Aryan! I have an iPad Pro and can add some cash. Interested?", now - 1800000)])
  }

  class Store {
    var activeTrade: Option<ClientTrade>
    var issues: seq<Issue>
    var loading: bool

    constructor ()
      ensures activeTrade.None? && issues == [] && !loading
    {
      activeTrade, issues, loading := None, [], false;
    }

    /** startTrade: always the same mock trade id; nothing changes. */
    method StartTrade(listingId: Id) returns (id: Id)
      ensures id == MockTradeId
    {
      id := MockTradeId;
    }

    /** fetchTrade: loading is raised, the mock trade becomes active, and loading ends false. */
    method FetchTrade(tradeId: Id, now: int)
      modifies this
      ensures activeTrade == Some(MockTrade(tradeId, now))
      ensures !loading && issues == old(issues)
    {
      loading := true;
      activeTrade, loading := Some(MockTrade(tradeId, now)), false;
    }

    /** fetchIssues: the issue list is emptied, whatever the status asked for. */
    method FetchIssues(status: string)
      modifies this
      ensures issues == [] && activeTrade == old(activeTrade) && loading == old(loading)
    {
      issues := [];
    }

    /** sendMessage: one message appended at the end of the active trade's chat; nothing without an active trade. */
    method SendMessage(tradeId: Id, senderId: Id, content: string, now: int)
      modifies this
      ensures old(activeTrade).None? ==> activeTrade.None?
      ensures old(activeTrade).Some? ==>
                activeTrade == Some(old(activeTrade).value.(messages := old(activeTrade).value.messages
                                                              + [ClientMessage(senderId, SenderName(senderId), content, now)]))
      ensures issues == old(issues) && loading == old(loading)
    {
      if activeTrade.Some? {
        var tr := activeTrade.value;
        activeTrade := Some(tr.(messages := tr.messages + [ClientMessage(senderId, SenderName(senderId), content, now)]));
      }
    }

    /** proposeDeal: PROPOSED with the three terms; the proposer is not recorded. */
    method ProposeDeal(tradeId: Id, terms: ClientTerms)
      modifies this
      ensures old(activeTrade).None? ==> activeTrade.None?
      ensures old(activeTrade).Some? ==>
                activeTrade == Some(old(activeTrade).value.(status := Proposed, moneyProposal := terms.money,
                                                            barterProposal := terms.barter,
                                                            commitmentProposal := terms.commitment))
      ensures issues == old(issues) && loading == old(loading)
    {
      if activeTrade.Some? {
        activeTrade := Some(activeTrade.value.(status := Proposed, moneyProposal := terms.money,
                                               barterProposal := terms.barter, commitmentProposal := terms.commitment));
      }
    }

    /** Replaces only the active trade's status, if there is an active trade. */
    method SetActiveStatus(status: TradeStatus)
      modifies this
      ensures old(activeTrade).None? ==> activeTrade.None?
      ensures old(activeTrade).Some? ==> activeTrade == Some(old(activeTrade).value.(status := status))
      ensures issues == old(issues) && loading == old(loading)
    {
      if activeTrade.Some? {
        activeTrade := Some(activeTrade.value.(status := status));
      }
    }

    /** acceptDeal: ACCEPTED from any status; nothing else changes. */
    method AcceptDeal(tradeId: Id)
      modifies this
      ensures old(activeTrade).None? ==> activeTrade.None?
      ensures old(activeTrade).Some? ==> activeTrade == Some(old(activeTrade).value.(status := Accepted))
      ensures issues == old(issues) && loading == old(loading)
    {
      SetActiveStatus(Accepted);
    }

    /** declineDeal: NEGOTIATING again, with the proposal fields left in place. */
    method DeclineDeal(tradeId: Id)
      modifies this
      ensures old(activeTrade).None? ==> activeTrade.None?
      ensures old(activeTrade).Some? ==> activeTrade == Some(old(activeTrade).value.(status := Negotiating))
      ensures issues == old(issues) && loading == old(loading)
    {
      SetActiveStatus(Negotiating);
    }

    /** finishTrade: COMPLETED at once, whatever the status or the flags. */
    method FinishTrade(tradeId: Id)
      modifies this
      ensures old(activeTrade).None? ==> activeTrade.None?
      ensures old(activeTrade).Some? ==> activeTrade == Some(old(activeTrade).value.(status := Completed))
      ensures issues == old(issues) && loading == old(loading)
    {
      SetActiveStatus(Completed);
    }

    /** reportIssue: the active trade, which callers must have, goes UNDER_REVIEW. */
    method ReportIssue(tradeId: Id, description: string)
      requires activeTrade.Some?
      modifies this
      ensures activeTrade == Some(old(activeTrade).value.(status := UnderReview))
      ensures issues == old(issues) && loading == old(loading)
    {
      SetActiveStatus(UnderReview);
    }
  }
}
