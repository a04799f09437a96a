/**
 * The dispute sub-machine as pure transitions: reporting an issue against a trade,
 * claiming it, each party's acknowledgement (mirrored onto the trade's completion
 * flags) and the supervisor's final word.
 */
module Dispute {

  import opened Wrappers
  import opened Entities
  import opened Store
  import opened TradeLifecycle

  /**
   * reportIssue: any authenticated caller may report against any stored trade, whatever
   * its status. `None` is a body field left out: without a trade id the lookup throws,
   * and without a description the insert does (both 500). The new issue is OPEN,
   * assigned to the trade's supervisor ("" if none), and the trade is put UNDER_REVIEW;
   * nothing is emitted. A generated id that is already taken makes the insert fail.
   */
  function Report(t: Tables, caller: Option<Id>, tradeId: Option<Id>, description: Option<string>,
                  issueId: Id, now: int): (s: Step<Issue>)
    ensures caller.None? ==> Rejected(s, t, Unauthorized)
    ensures caller.Some? && tradeId.None? ==> Rejected(s, t, ServerError)
    ensures caller.Some? && tradeId.Some? && tradeId.value !in t.trades ==> Rejected(s, t, NotFound)
    ensures caller.Some? && tradeId.Some? && tradeId.value in t.trades && (description.None? || issueId in t.issues) ==>
              Rejected(s, t, ServerError)
    ensures s.reply.Ok? <==> caller.Some? && tradeId.Some? && tradeId.value in t.trades && description.Some? && issueId !in t.issues
    ensures s.emitted == None
    ensures s.reply.Ok? ==>
              var id := tradeId.value;
              && s.reply.value == Issue(issueId, id, caller.value,
                                        t.trades[id].supervisorId.GetOr(""), description.value,
                                        Open, false, false)
              && s.after.issues == t.issues[issueId := s.reply.value]
              && s.after.trades == t.trades[id := t.trades[id].(status := UnderReview, updatedAt := now)]
              && s.after.items == t.items
  {
    if caller.None? then Step(Fail(Unauthorized), t, None)
    else if tradeId.None? then Step(Fail(ServerError), t, None)
    else if tradeId.value !in t.trades then Step(Fail(NotFound), t, None)
    else if description.None? || issueId in t.issues then Step(Fail(ServerError), t, None)
    else
      var tr := t.trades[tradeId.value];
      var issue := Issue(issueId, tradeId.value, caller.value, tr.supervisorId.GetOr(""), description.value, Open, false, false);
      var tr' := tr.(status := UnderReview, updatedAt := now);
      Step(Ok(issue), t.(issues := t.issues[issueId := issue], trades := t.trades[tradeId.value := tr']), None)
  }

  /** A successful issue handler that wrote only issue `id`. */
  predicate IssueSaved(s: Step<Issue>, t: Tables, id: Id) {
    && s.reply.Ok?
    && s.after == t.(issues := t.issues[id := s.reply.value])
    && s.emitted == None
  }

  /**
   * claimIssue: the caller becomes the issue's supervisor and the issue PENDING, from
   * any status (a RESOLVED issue included) and whoever held it before.
   */
  function Claim(t: Tables, caller: Option<Id>, id: Id): (s: Step<Issue>)
    ensures id !in t.issues ==> Rejected(s, t, ServerError)
    ensures id in t.issues ==>
              && IssueSaved(s, t, id)
              && s.reply.value == t.issues[id].(status := IssueStatus.Pending,
                                                supervisorId := caller.GetOr(t.issues[id].supervisorId))
  {
    if id !in t.issues then Step(Fail(ServerError), t, None)
    else
      var issue := t.issues[id];
      var issue' := issue.(status := IssueStatus.Pending, supervisorId := caller.GetOr(issue.supervisorId));
      Step(Ok(issue'), t.(issues := t.issues[id := issue']), None)
  }

  /**
   * resolveIssueParty: the buyer acknowledges (issue.buyerResolved, trade.buyerFinished),
   * the seller acknowledges (issue.sellerResolved, trade.sellerFinished); anyone else
   * changes no flag. The trade's status is never touched. The seller test is
   * `listing?.sellerId === caller`, so with no caller a trade whose listing is gone
   * counts as the caller's.
   */
  function ResolveParty(t: Tables, caller: Option<Id>, id: Id, now: int): (s: Step<Issue>)
    ensures id !in t.issues ==> Rejected(s, t, NotFound)
    ensures id in t.issues && t.issues[id].tradeId !in t.trades ==> Rejected(s, t, NotFound)
    ensures s.reply.Ok? <==> id in t.issues && t.issues[id].tradeId in t.trades
    ensures s.emitted == None
    ensures s.reply.Ok? ==>
              var issue := t.issues[id];
              var tr := t.trades[issue.tradeId];
              var isBuyer := caller == Some(tr.buyerId);
              var isSeller := SellerOf(t, tr) == caller;
              && s.reply.value == issue.(buyerResolved := issue.buyerResolved || isBuyer,
                                         sellerResolved := issue.sellerResolved || isSeller)
              && s.after.issues == t.issues[id := s.reply.value]
              && s.after.items == t.items
              && (!isBuyer && !isSeller ==> s.after.trades == t.trades)
              && (isBuyer || isSeller ==>
                    s.after.trades == t.trades[issue.tradeId := tr.(buyerFinished := tr.buyerFinished || isBuyer,
                                                                    sellerFinished := tr.sellerFinished || isSeller,
                                                                    updatedAt := now)])
  {
    if id !in t.issues then Step(Fail(NotFound), t, None)
    else
      var issue := t.issues[id];
      if issue.tradeId !in t.trades then Step(Fail(NotFound), t, None)
      else
        var tr := t.trades[issue.tradeId];
        var isBuyer := caller == Some(tr.buyerId);
        var trades1 := if isBuyer then t.trades[issue.tradeId := tr.(buyerFinished := true, updatedAt := now)]
                       else t.trades;
        var isSeller := SellerOf(t, tr) == caller;
        var tr1 := trades1[issue.tradeId];
        var trades2 := if isSeller then trades1[issue.tradeId := tr1.(sellerFinished := true, updatedAt := now)]
                       else trades1;
        var issue' := issue.(buyerResolved := issue.buyerResolved || isBuyer,
                             sellerResolved := issue.sellerResolved || isSeller);
        Step(Ok(issue'), t.(trades := trades2, issues := t.issues[id := issue']), None)
  }

  /** finalizeIssue: the issue is RESOLVED, whatever the two parties acknowledged. */
  function Finalize(t: Tables, id: Id): (s: Step<Issue>)
    ensures id !in t.issues ==> Rejected(s, t, ServerError)
    ensures id in t.issues ==> IssueSaved(s, t, id) && s.reply.value == t.issues[id].(status := Resolved)
  {
    if id !in t.issues then Step(Fail(ServerError), t, None)
    else
      var issue' := t.issues[id].(status := Resolved);
      Step(Ok(issue'), t.(issues := t.issues[id := issue']), None)
  }
}
