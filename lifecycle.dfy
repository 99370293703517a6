/**
 * How the three routes compose over one order's life: intake creates it
 * pending, a review approves or rejects it, the gate redeems its link.
 */
module Lifecycle {
  import opened Options
  import opened OrderModel
  import opened Store
  import opened AdminAuth
  import opened DownloadRoute
  import opened ApproveRoute
  import opened OrdersRoute
  import opened AdminPage

  const HourMs: int := 3600 * 1000

  /** `token` is held by the row `id` and by no other row. */
  predicate HeldOnlyBy(rows: map<string, Order>, id: string, token: string) {
    && id in rows && rows[id].downloadToken == Some(token)
    && forall other :: other in rows && other != id ==> rows[other].downloadToken != Some(token)
  }

  /**
   * A redemption of a token that exactly one row holds is that row's
   * `Redeem`, and the token is still held by that row alone afterwards.
   */
  lemma RedeemHeldToken(rows: map<string, Order>, id: string, token: string, now: int, originalThemeUrl: Option<string>)
    requires token != "" && HeldOnlyBy(rows, id, token)
    ensures var (resp, after) := Download(rows, Some(token), now, originalThemeUrl);
            var (resp', row) := Redeem(rows[id], now, originalThemeUrl);
            && resp == resp' && after == rows[id := row]
            && HeldOnlyBy(after, id, token)
  {
    RowByTokenUnique(rows, token, id);
  }

  /**
   * Approving an order with an allowance of 3 and no downloads yet gives it a
   * link that no other row holds, lapsing 48 hours after the approval, with
   * somewhere to redirect to when an original theme is configured.
   */
  lemma ApprovalGrantsLink(rows: map<string, Order>, id: string, authorization: Option<string>,
                           env: Environment, fx: ApprovalEffects)
    requires id != "" && id in rows && rows[id].downloadCount == 0 && rows[id].maxDownloads == 3
    requires IsAdmin(authorization, env.adminPassword) && Filled(env.originalThemeUrl)
    requires fx.freshToken != ""
    requires forall other :: other in rows && other != id ==> rows[other].downloadToken != Some(fx.freshToken)
    ensures var approved := Review(rows, ReviewRequest(authorization, Some(id), Some("approve")), env, fx).rows;
            && HeldOnlyBy(approved, id, fx.freshToken)
            && approved[id].downloadCount == 0 && approved[id].maxDownloads == 3
            && approved[id].downloadExpiresAt == Some(fx.now + 48 * HourMs)
            && RedirectTarget(approved[id], env.originalThemeUrl).Some?
  {
    ApproveFootprint(rows, ReviewRequest(authorization, Some(id), Some("approve")), env, fx);
  }

  /**
   * A link held by one row, with allowance 3, none used, lapsing at t+48h and
   * somewhere to redirect to: it redirects at t+1h, t+2h and t+3h, always to
   * the same place, with the counter at 1, 2 and 3; at t+4h the allowance is
   * spent (403); at t+49h the link has lapsed (410). Neither refusal writes.
   */
  lemma RedeemUntilRefused(rows: map<string, Order>, id: string, token: string, url: Option<string>, t: int)
    requires token != "" && HeldOnlyBy(rows, id, token)
    requires rows[id].downloadCount == 0 && rows[id].maxDownloads == 3
    requires rows[id].downloadExpiresAt == Some(t + 48 * HourMs) && RedirectTarget(rows[id], url).Some?
    ensures var (r1, s1) := Download(rows, Some(token), t + HourMs, url);
            var (r2, s2) := Download(s1, Some(token), t + 2 * HourMs, url);
            var (r3, s3) := Download(s2, Some(token), t + 3 * HourMs, url);
            var (r4, s4) := Download(s3, Some(token), t + 4 * HourMs, url);
            var (r5, s5) := Download(s4, Some(token), t + 49 * HourMs, url);
            && r1.Redirect? && r1 == r2 && r2 == r3
            && id in s1 && s1[id].downloadCount == 1
            && id in s2 && s2[id].downloadCount == 2
            && id in s3 && s3[id].downloadCount == 3
            && r4 == LimitReached(3) && r4.StatusCode() == 403 && s4 == s3
            && r5 == LinkExpired && r5.StatusCode() == 410 && s5 == s4
  {
    RedeemHeldToken(rows, id, token, t + HourMs, url);
    var s1 := Download(rows, Some(token), t + HourMs, url).1;
    RedeemHeldToken(s1, id, token, t + 2 * HourMs, url);
    var s2 := Download(s1, Some(token), t + 2 * HourMs, url).1;
    RedeemHeldToken(s2, id, token, t + 3 * HourMs, url);
    var s3 := Download(s2, Some(token), t + 3 * HourMs, url).1;
    RedeemHeldToken(s3, id, token, t + 4 * HourMs, url);
    var s4 := Download(s3, Some(token), t + 4 * HourMs, url).1;
    assert s3[id := s3[id]] == s3;
    RedeemHeldToken(s4, id, token, t + 49 * HourMs, url);
  }

  /**
   * The gate's walk-through from the approval on: an order approved at `t`
   * with an original theme configured is redeemed three times, then refused
   * for its spent allowance, then for its lapsed link.
   */
  lemma ApprovalScenario(rows: map<string, Order>, id: string, authorization: Option<string>,
                         env: Environment, fx: ApprovalEffects, t: int)
    requires id != "" && id in rows && rows[id].downloadCount == 0 && rows[id].maxDownloads == 3
    requires IsAdmin(authorization, env.adminPassword) && Filled(env.originalThemeUrl)
    requires fx.now == t && fx.freshToken != ""
    requires forall other :: other in rows && other != id ==> rows[other].downloadToken != Some(fx.freshToken)
    ensures var approved := Review(rows, ReviewRequest(authorization, Some(id), Some("approve")), env, fx).rows;
            var token := Some(fx.freshToken);
            var (r1, s1) := Download(approved, token, t + HourMs, env.originalThemeUrl);
            var (r2, s2) := Download(s1, token, t + 2 * HourMs, env.originalThemeUrl);
            var (r3, s3) := Download(s2, token, t + 3 * HourMs, env.originalThemeUrl);
            var (r4, s4) := Download(s3, token, t + 4 * HourMs, env.originalThemeUrl);
            var (r5, s5) := Download(s4, token, t + 49 * HourMs, env.originalThemeUrl);
            && r1.Redirect? && r1 == r2 && r2 == r3
            && id in s1 && s1[id].downloadCount == 1
            && id in s2 && s2[id].downloadCount == 2
            && id in s3 && s3[id].downloadCount == 3
            && r4 == LimitReached(3) && r4.StatusCode() == 403 && s4 == s3
            && r5 == LinkExpired && r5.StatusCode() == 410 && s5 == s4
  {
    ApprovalGrantsLink(rows, id, authorization, env, fx);
    var approved := Review(rows, ReviewRequest(authorization, Some(id), Some("approve")), env, fx).rows;
    RedeemUntilRefused(approved, id, fx.freshToken, env.originalThemeUrl, t);
  }

  /** No pending row carries a download link. */
  predicate PendingUnlinked(rows: map<string, Order>) {
    forall id :: id in rows && rows[id].status == Pending ==> rows[id].downloadToken.None?
  }

  /** Storing a row that is not pending, or has no link, keeps the invariant. */
  lemma PutKeepsPendingUnlinked(rows: map<string, Order>, id: string, o: Order)
    requires PendingUnlinked(rows) && (o.status != Pending || o.downloadToken.None?)
    ensures PendingUnlinked(rows[id := o])
  {
  }

  /** Intake inserts pending rows without a link. */
  lemma IntakeKeepsPendingUnlinked(rows: map<string, Order>, form: IntakeForm, uploadId: string,
                                   uploadedUrl: Option<string>, orderId: string, now: int)
    requires PendingUnlinked(rows)
    ensures PendingUnlinked(Intake(rows, form, uploadId, uploadedUrl, orderId, now).rows)
  {
    if Intake(rows, form, uploadId, uploadedUrl, orderId, now).response.Created? {
      IntakeInsertsOneRow(rows, form, uploadId, uploadedUrl, orderId, now);
      var o := NewOrderRow(form, orderId, uploadedUrl.value, now);
      PutKeepsPendingUnlinked(rows, orderId, o);
    } else {
      IntakeWritesOnlyOnCreate(rows, form, uploadId, uploadedUrl, orderId, now);
    }
  }

  /** A review either leaves a row alone or moves it out of pending. */
  lemma ReviewKeepsPendingUnlinked(rows: map<string, Order>, req: ReviewRequest, env: Environment, fx: ApprovalEffects)
    requires PendingUnlinked(rows)
    ensures PendingUnlinked(Review(rows, req, env, fx).rows)
  {
  }

  /** A redemption changes neither a status nor a token. */
  lemma DownloadKeepsPendingUnlinked(rows: map<string, Order>, token: Option<string>, now: int,
                                     originalThemeUrl: Option<string>)
    requires PendingUnlinked(rows)
    ensures PendingUnlinked(Download(rows, token, now, originalThemeUrl).1)
  {
  }

  /**
   * Rejecting a pending order leaves it without a link, given that no pending
   * row has one (which every route preserves, lemmas above).
   */
  lemma RejectPendingLeavesNoLink(rows: map<string, Order>, authorization: Option<string>, id: string,
                                  env: Environment, fx: ApprovalEffects)
    requires PendingUnlinked(rows) && id in rows && rows[id].status == Pending && id != ""
    requires IsAdmin(authorization, env.adminPassword)
    ensures var after := Review(rows, ReviewRequest(authorization, Some(id), Some("reject")), env, fx).rows;
            after[id].status == Rejected && after[id].downloadToken.None?
  {
  }

  /**
   * The route itself does not insist on a pending order: rejecting an
   * approved order keeps its token and expiry, and the link still redeems
   * while it is within its window and allowance.
   */
  lemma RejectAfterApprovalKeepsLink(rows: map<string, Order>, authorization: Option<string>, id: string,
                                     env: Environment, fx: ApprovalEffects, token: string, now: int)
    requires HeldOnlyBy(rows, id, token) && token != "" && id != ""
    requires rows[id].status == Approved && Filled(env.originalThemeUrl)
    requires IsAdmin(authorization, env.adminPassword)
    requires !IsExpired(rows[id], now) && rows[id].downloadCount < rows[id].maxDownloads
    ensures var rejected := Review(rows, ReviewRequest(authorization, Some(id), Some("reject")), env, fx).rows;
            && rejected[id].status == Rejected
            && rejected[id].downloadToken == Some(token)
            && Download(rejected, Some(token), now, env.originalThemeUrl).0.Redirect?
  {
    var rejected := Review(rows, ReviewRequest(authorization, Some(id), Some("reject")), env, fx).rows;
    assert HeldOnlyBy(rejected, id, token);
    RedeemHeldToken(rejected, id, token, now, env.originalThemeUrl);
  }

  /**
   * Through the dashboard, whose buttons appear only on pending orders, a
   * review is a single step out of pending, and the reviewed order offers no
   * further buttons.
   */
  lemma DashboardReviewIsFinal(rows: map<string, Order>, req: ReviewRequest, env: Environment, fx: ApprovalEffects)
    requires IsAdmin(req.authorization, env.adminPassword)
    requires Filled(req.orderId) && req.orderId.value in rows && ActionsOffered(rows[req.orderId.value])
    requires req.action == Some("approve") || req.action == Some("reject")
    ensures var o, o' := rows[req.orderId.value], Review(rows, req, env, fx).rows[req.orderId.value];
            && o.status == Pending
            && o'.status == (if req.action == Some("approve") then Approved else Rejected)
            && !ActionsOffered(o')
  {
  }
}
