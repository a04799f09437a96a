/**
 * The issue controller's handlers, each proved to do exactly what its transition in
 * `Dispute` says, and the supervisor-scoped issue listing.
 */
module IssueController {

  import opened Wrappers
  import opened Entities
  import opened Store
  import opened TradeLifecycle
  import opened Dispute
  import opened Collections

  /** reportIssue, as `Dispute.Report`: an insert, then the trade update; no emit. */
  method ReportIssue(db: Db, caller: Option<Id>, tradeId: Option<Id>, description: Option<string>,
                     issueId: Id, now: int) returns (r: Reply<Issue>)
    modifies db
    ensures Wrote(db, Report(old(db.Snapshot()), caller, tradeId, description, issueId, now), r)
  {
    if caller.None? {
      return Fail(Unauthorized);
    }
    if tradeId.None? {
      return Fail(ServerError);
    }
    var id := tradeId.value;
    if id !in db.trades {
      return Fail(NotFound);
    }
    if description.None? || issueId in db.issues {
      return Fail(ServerError);
    }
    var trade := db.trades[id];
    var issue := Issue(issueId, id, caller.value, trade.supervisorId.GetOr(""), description.value, Open, false, false);
    db.issues := db.issues[issueId := issue];
    db.trades := db.trades[id := trade.(status := UnderReview, updatedAt := now)];
    r := Ok(issue);
  }

  /** claimIssue, as `Dispute.Claim`. */
  method ClaimIssue(db: Db, caller: Option<Id>, id: Id) returns (r: Reply<Issue>)
    modifies db
    ensures Wrote(db, Claim(old(db.Snapshot()), caller, id), r)
  {
    if id !in db.issues {
      return Fail(ServerError);
    }
    var issue := db.issues[id];
    var updated := issue.(status := IssueStatus.Pending, supervisorId := caller.GetOr(issue.supervisorId));
    db.issues := db.issues[id := updated];
    r := Ok(updated);
  }

  /**
   * resolveIssueParty, as `Dispute.ResolveParty`: up to two trade updates (one per flag
   * mirrored) and then the issue update.
   */
  method ResolveIssueParty(db: Db, caller: Option<Id>, id: Id, now: int) returns (r: Reply<Issue>)
    modifies db
    ensures Wrote(db, ResolveParty(old(db.Snapshot()), caller, id, now), r)
  {
    if id !in db.issues {
      return Fail(NotFound);
    }
    var issue := db.issues[id];
    if issue.tradeId !in db.trades {
      return Fail(NotFound);
    }
    var trade := db.trades[issue.tradeId];
    var updated := issue;
    if caller == Some(trade.buyerId) {
      updated := updated.(buyerResolved := true);
      db.trades := db.trades[issue.tradeId := db.trades[issue.tradeId].(buyerFinished := true, updatedAt := now)];
    }
    var seller := if trade.listingId in db.items then Some(db.items[trade.listingId].sellerId) else None;
    if seller == caller {
      updated := updated.(sellerResolved := true);
      db.trades := db.trades[issue.tradeId := db.trades[issue.tradeId].(sellerFinished := true, updatedAt := now)];
    }
    db.issues := db.issues[id := updated];
    r := Ok(updated);
  }

  /** finalizeIssue, as `Dispute.Finalize`. */
  method FinalizeIssue(db: Db, id: Id) returns (r: Reply<Issue>)
    modifies db
    ensures Wrote(db, Finalize(old(db.Snapshot()), id), r)
  {
    if id !in db.issues {
      return Fail(ServerError);
    }
    var updated := db.issues[id].(status := Resolved);
    db.issues := db.issues[id := updated];
    r := Ok(updated);
  }

  /**
   * The listing's filter: the requested status, and the caller as supervisor (no
   * supervisor condition when there is no caller, as an undefined filter field is
   * ignored by the store).
   */
  predicate Listed(issue: Issue, caller: Option<Id>, status: IssueStatus) {
    issue.status == status && (caller.None? || issue.supervisorId == caller.value)
  }

  /** getIssuesByStatus: exactly the issues that pass the filter, once each, in no particular order. */
  method GetIssuesByStatus(db: Db, caller: Option<Id>, status: IssueStatus) returns (r: seq<Issue>)
    ensures forall i :: i in r <==> i in db.issues.Values && Listed(i, caller, status)
    ensures |r| == |set i | i in db.issues.Values && Listed(i, caller, status)|
  {
    r := Enumerate(set i | i in db.issues.Values && Listed(i, caller, status));
  }
}
