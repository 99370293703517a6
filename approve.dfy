/**
 * The review endpoint: `POST /api/orders/approve`. An administrator rejects
 * an order, or approves it: a download token and a 48-hour expiry are issued,
 * a licence notice is written into a copy of the theme archive, the copy is
 * uploaded, the row is updated and the customer is emailed the link.
 * Watermarking, upload and email are best effort; only the row update is
 * required.
 */
module ApproveRoute {
  import opened Options
  import opened Text
  import opened OrderModel
  import opened Store
  import opened AdminAuth
  import opened Collections

  /** A theme archive: file path to text content. */
  type Archive = map<string, string>

  /** 48 hours, in milliseconds. */
  const ExpiryMs: int := 48 * 3600 * 1000

  const DefaultAppUrl: string := "http://localhost:3000"
  const DownloadPath: string := "/api/download?token="

  const RootLicense: string := "LICENSE.txt"
  const AssetsLicense: string := "assets/LICENSE.txt"

  /** The text assets that receive the notice at their head, when the archive has them. */
  const WatermarkTargets: seq<string> := ["assets/theme.js", "assets/theme.css", "layout/theme.liquid"]

  /** The configuration the route reads. */
  datatype Environment = Environment(
    adminPassword: Option<string>,
    originalThemeUrl: Option<string>,
    appUrl: Option<string>)

  /** The request: its `authorization` header and the two fields of its JSON body. */
  datatype ReviewRequest = ReviewRequest(
    authorization: Option<string>,
    orderId: Option<string>,
    action: Option<string>)

  /**
   * What the clock, the UUID generator and the outside services produce
   * during one request.
   */
  datatype ApprovalEffects = ApprovalEffects(
    now: int,                 // the instant of the request
    nowIso: string,           // the same instant as the notice prints it
    freshToken: string,       // the UUID drawn for the download token
    theme: Option<Archive>,   // the original archive fetched and opened; None when that failed
    packed: bool,             // re-zipping the watermarked archive succeeded
    blobUrl: Option<string>,  // the URL the upload returned; None when the upload failed
    emailSent: bool)          // whether the email provider accepted the message; the route's catch
                              // discards this outcome, so no answer or write reads it

  datatype ReviewResponse =
    | Unauthorized                        // 401
    | MissingFields                       // 400 "Missing orderId or action"
    | OrderNotFound                       // 404
    | InvalidAction                       // 400 "Invalid action"
    | OrderRejected                       // 200
    | OrderApproved(downloadUrl: string)  // 200, with the link
  {
    function StatusCode(): int {
      match this
      case Unauthorized => 401
      case MissingFields => 400
      case OrderNotFound => 404
      case InvalidAction => 400
      case OrderRejected => 200
      case OrderApproved(_) => 200
    }
  }

  /** An archive written to blob storage. */
  datatype BlobPut = BlobPut(path: string, content: Archive)

  /** The message handed to the email provider. */
  datatype DownloadEmail = DownloadEmail(to: string, customerName: string, downloadUrl: string, expiresAt: int)

  /** Everything a review request produces: the response, the table afterwards, the upload and the email it attempts. */
  datatype ReviewResult = ReviewResult(
    response: ReviewResponse,
    rows: map<string, Order>,
    upload: Option<BlobPut>,
    email: Option<DownloadEmail>)

  // ---------------------------------------------------------------- notice

  /** A rule of 63 box-drawing characters behind the comment margin. */
  function RuleLine(): string {
    " * " + seq(63, _ => '\U{2550}')
  }

  function NameLine(o: Order): string { " * Name: " + o.name + "\n" }
  function EmailLine(o: Order): string { " * Email: " + o.email + "\n" }
  function PhoneLine(o: Order): string { " * Phone: " + o.phone + "\n" }

  /** The business line: its label and value when a business name is recorded, otherwise just the margin. */
  function BusinessLine(o: Order): string {
    if Filled(o.businessName) then " * Business: " + o.businessName.value + "\n" else " * \n"
  }

  /** The blank margin line of the comment. */
  const MarginLine: string := " * \n"

  function IdLine(o: Order): string { " * Purchase ID: " + o.id + "\n" }
  function DateLine(purchaseDate: string): string { " * Purchase Date: " + purchaseDate + "\n" }

  /** The banner that opens the notice. */
  const NoticeHead: string :=
    "\n/*\n" + RuleLine() + "\n * APEX THEME - LICENSED COPY\n" + RuleLine() + "\n * \n * This theme is licensed to:\n"

  /** The licence terms and closing rule. */
  const NoticeTail: string :=
    " * \n * This is a single-use license. Redistribution is prohibited.\n"
    + " * Any unauthorized sharing will result in license revocation.\n * \n" + RuleLine() + "\n */\n"

  /** The lines of the notice, in order. */
  function NoticeLines(o: Order, purchaseDate: string): seq<string> {
    [NoticeHead, NameLine(o), EmailLine(o), PhoneLine(o), BusinessLine(o),
     MarginLine, IdLine(o), DateLine(purchaseDate), NoticeTail]
  }

  /** The licence notice for an order, stamped with the purchase date. */
  function Notice(o: Order, purchaseDate: string): string {
    Concat(NoticeLines(o, purchaseDate))
  }

  /** The notice names the customer, their email and phone, and the order id, each on its own line. */
  lemma NoticeIdentifiesBuyer(o: Order, purchaseDate: string)
    ensures Contains(Notice(o, purchaseDate), " * Name: " + o.name + "\n")
    ensures Contains(Notice(o, purchaseDate), " * Email: " + o.email + "\n")
    ensures Contains(Notice(o, purchaseDate), " * Phone: " + o.phone + "\n")
    ensures Contains(Notice(o, purchaseDate), " * Purchase ID: " + o.id + "\n")
  {
    var lines := NoticeLines(o, purchaseDate);
    ContainsPiece(lines, 1);
    ContainsPiece(lines, 2);
    ContainsPiece(lines, 3);
    ContainsPiece(lines, 6);
  }

  /** With a business name recorded, the business line comes right after the phone line. */
  lemma NoticeWithBusiness(o: Order, purchaseDate: string)
    requires Filled(o.businessName)
    ensures Contains(Notice(o, purchaseDate), PhoneLine(o) + (" * Business: " + o.businessName.value + "\n") + MarginLine)
  {
    ContainsThree(NoticeLines(o, purchaseDate), 3);
  }

  /**
   * Without a business name the phone line is followed by two bare margins,
   * and the notice is the one for an order with no business column at all.
   */
  lemma NoticeWithoutBusiness(o: Order, purchaseDate: string)
    requires !Filled(o.businessName)
    ensures Contains(Notice(o, purchaseDate), PhoneLine(o) + MarginLine + MarginLine)
    ensures Notice(o, purchaseDate) == Notice(o.(businessName := None), purchaseDate)
  {
    ContainsThree(NoticeLines(o, purchaseDate), 3);
    assert NoticeLines(o, purchaseDate) == NoticeLines(o.(businessName := None), purchaseDate);
  }

  // ------------------------------------------------------------- watermark

  /**
   * The archive after watermarking: both licence files hold the notice, each
   * listed asset the archive has starts with the notice and a newline before
   * its old text, listed assets it lacks stay absent, and every other file is
   * left as it was.
   */
  function Watermarked(zip: Archive, notice: string): (out: Archive)
    ensures out.Keys == zip.Keys + {RootLicense, AssetsLicense}
    ensures out[RootLicense] == notice && out[AssetsLicense] == notice
    ensures forall p :: p in zip && p in WatermarkTargets ==> out[p] == notice + "\n" + zip[p]
    ensures forall p :: p in WatermarkTargets && p !in zip ==> p !in out
    ensures forall p :: p in zip && p !in WatermarkTargets && p != RootLicense && p != AssetsLicense ==>
                        out[p] == zip[p]
  {
    map p | p in zip.Keys + {RootLicense, AssetsLicense} ::
      if p == RootLicense || p == AssetsLicense then notice
      else if p in WatermarkTargets then notice + "\n" + zip[p]
      else zip[p]
  }

  /** Writes the two licence files, then prepends the notice to each listed asset present, one path at a time. */
  method WatermarkArchive(zip: Archive, notice: string) returns (out: Archive)
    ensures out == Watermarked(zip, notice)
  {
    out := zip[RootLicense := notice];
    out := out[AssetsLicense := notice];
    var i := 0;
    while i < |WatermarkTargets|
      invariant 0 <= i <= |WatermarkTargets|
      invariant out.Keys == zip.Keys + {RootLicense, AssetsLicense}
      invariant forall p :: p in out ==>
                  out[p] == if p == RootLicense || p == AssetsLicense then notice
                            else if p in WatermarkTargets[..i] then notice + "\n" + zip[p]
                            else zip[p]
    {
      var path := WatermarkTargets[i];
      TargetsAreDistinct(i);
      TakeOneMore(WatermarkTargets, i);
      if path in out {
        out := out[path := notice + "\n" + out[path]];
      }
      i := i + 1;
    }
    assert WatermarkTargets[..i] == WatermarkTargets;
    WatermarkedPointwise(zip, notice, out);
  }

  /** An archive that agrees with `Watermarked` on its keys and at every path is `Watermarked`. */
  lemma WatermarkedPointwise(zip: Archive, notice: string, out: Archive)
    requires out.Keys == zip.Keys + {RootLicense, AssetsLicense}
    requires forall p :: p in out ==>
               out[p] == if p == RootLicense || p == AssetsLicense then notice
                         else if p in WatermarkTargets then notice + "\n" + zip[p]
                         else zip[p]
    ensures out == Watermarked(zip, notice)
  {
  }

  /** The listed assets are neither licence file, and each is listed once. */
  lemma TargetsAreDistinct(i: nat)
    requires i < |WatermarkTargets|
    ensures WatermarkTargets[i] != RootLicense && WatermarkTargets[i] != AssetsLicense
    ensures WatermarkTargets[i] !in WatermarkTargets[..i]
  {
    var t := WatermarkTargets;
    assert |t[0]| == 15 && |t[1]| == 16 && |t[2]| == 19;
    assert |RootLicense| == 11 && |AssetsLicense| == 18;
  }

  /** The blob path of an order's personalised archive. */
  function WatermarkedPath(id: string): string {
    "downloads/" + id + "-apex-theme.zip"
  }

  // -------------------------------------------------------------- approval

  /** The upload the approval attempts: the watermarked copy, once the original was fetched, opened and re-zipped. */
  function AttemptedUpload(o: Order, originalThemeUrl: Option<string>, fx: ApprovalEffects): Option<BlobPut> {
    if Filled(originalThemeUrl) && fx.theme.Some? && fx.packed then
      Some(BlobPut(WatermarkedPath(o.id), Watermarked(fx.theme.value, Notice(o, fx.nowIso))))
    else None
  }

  /**
   * The artifact URL the approval records: empty when no original is
   * configured, the uploaded copy when the whole watermarking pipeline
   * succeeded, and the original itself after any failure on the way.
   */
  function ArtifactUrl(originalThemeUrl: Option<string>, fx: ApprovalEffects): (url: string)
    ensures !Filled(originalThemeUrl) ==> url == ""
    ensures Filled(originalThemeUrl) && fx.theme.Some? && fx.packed && fx.blobUrl.Some? ==> url == fx.blobUrl.value
    ensures Filled(originalThemeUrl) && !(fx.theme.Some? && fx.packed && fx.blobUrl.Some?) ==>
              url == originalThemeUrl.value
  {
    var url := "";
    if !Filled(originalThemeUrl) then url
    else if fx.theme.None? || !fx.packed then originalThemeUrl.value
    else match fx.blobUrl
      case Some(uploaded) => uploaded
      case None => originalThemeUrl.value
  }

  /** The link emailed to the customer and returned to the administrator. */
  function DownloadUrl(appUrl: Option<string>, token: string): string {
    (if Filled(appUrl) then appUrl.value else DefaultAppUrl) + DownloadPath + token
  }

  function RejectedRow(o: Order, now: int): Order {
    o.(status := Rejected, updatedAt := now)
  }

  function ApprovedRow(o: Order, fx: ApprovalEffects, artifactUrl: string): Order {
    o.(status := Approved,
       downloadToken := Some(fx.freshToken),
       downloadExpiresAt := Some(fx.now + ExpiryMs),
       watermarkedFileUrl := Some(artifactUrl),
       approvedAt := Some(fx.now),
       updatedAt := fx.now)
  }

  /** The whole request against the table. */
  function Review(rows: map<string, Order>, req: ReviewRequest, env: Environment, fx: ApprovalEffects): ReviewResult {
    if !IsAdmin(req.authorization, env.adminPassword) then ReviewResult(Unauthorized, rows, None, None)
    else if !Filled(req.orderId) || !Filled(req.action) then ReviewResult(MissingFields, rows, None, None)
    else if req.orderId.value !in rows then ReviewResult(OrderNotFound, rows, None, None)
    else
      var id := req.orderId.value;
      var o := rows[id];
      if req.action.value == "reject" then
        ReviewResult(OrderRejected, rows[id := RejectedRow(o, fx.now)], None, None)
      else if req.action.value == "approve" then
        var link := DownloadUrl(env.appUrl, fx.freshToken);
        ReviewResult(OrderApproved(link),
                     rows[id := ApprovedRow(o, fx, ArtifactUrl(env.originalThemeUrl, fx))],
                     AttemptedUpload(o, env.originalThemeUrl, fx),
                     Some(DownloadEmail(o.email, o.name, link, fx.now + ExpiryMs)))
      else ReviewResult(InvalidAction, rows, None, None)
  }

  /**
   * The best-effort phase of an approval: fetch the original, stamp it with
   * the buyer's notice, upload it, and fall back to the original's URL when
   * any step fails. Returns the URL to record and the upload attempted.
   */
  method Personalize(order: Order, originalThemeUrl: Option<string>, fx: ApprovalEffects)
      returns (watermarkedFileUrl: string, upload: Option<BlobPut>)
    ensures watermarkedFileUrl == ArtifactUrl(originalThemeUrl, fx)
    ensures upload == AttemptedUpload(order, originalThemeUrl, fx)
  {
    watermarkedFileUrl, upload := "", None;
    if originalThemeUrl.Some? && originalThemeUrl.value != "" {
      if fx.theme.None? {
        watermarkedFileUrl := originalThemeUrl.value;
      } else {
        var zip := WatermarkArchive(fx.theme.value, Notice(order, fx.nowIso));
        if !fx.packed {
          watermarkedFileUrl := originalThemeUrl.value;
        } else {
          upload := Some(BlobPut(WatermarkedPath(order.id), zip));
          if fx.blobUrl.None? {
            watermarkedFileUrl := originalThemeUrl.value;
          } else {
            watermarkedFileUrl := fx.blobUrl.value;
          }
        }
      }
    }
  }

  /** Handles one review request; the table, the upload and the email are as `Review` says. */
  method Post(store: OrderStore, req: ReviewRequest, env: Environment, fx: ApprovalEffects)
      returns (resp: ReviewResponse, upload: Option<BlobPut>, email: Option<DownloadEmail>)
    requires store.Valid()
    modifies store
    ensures store.Valid()
    ensures ReviewResult(resp, store.rows, upload, email) == Review(old(store.rows), req, env, fx)
  {
    upload, email := None, None;
    if env.adminPassword.None? || env.adminPassword.value == ""
       || req.authorization != Some(BearerPrefix + env.adminPassword.value) {
      return Unauthorized, upload, email;
    }
    if req.orderId.None? || req.orderId.value == "" || req.action.None? || req.action.value == "" {
      return MissingFields, upload, email;
    }
    var orderId, action := req.orderId.value, req.action.value;
    if orderId !in store.rows {
      return OrderNotFound, upload, email;
    }
    var order := store.rows[orderId];

    if action == "reject" {
      PutKeepsWellFormed(store.rows, RejectedRow(order, fx.now));
      store.rows := store.rows[orderId := order.(status := Rejected, updatedAt := fx.now)];
      return OrderRejected, upload, email;
    }

    if action == "approve" {
      var downloadToken := fx.freshToken;
      var expiresAt := fx.now;
      expiresAt := expiresAt + ExpiryMs;

      var watermarkedFileUrl;
      watermarkedFileUrl, upload := Personalize(order, env.originalThemeUrl, fx);

      PutKeepsWellFormed(store.rows, ApprovedRow(order, fx, watermarkedFileUrl));
      store.rows := store.rows[orderId := order.(
        status := Approved,
        downloadToken := Some(downloadToken),
        downloadExpiresAt := Some(expiresAt),
        watermarkedFileUrl := Some(watermarkedFileUrl),
        approvedAt := Some(fx.now),
        updatedAt := fx.now)];

      var appUrl := if env.appUrl.Some? && env.appUrl.value != "" then env.appUrl.value else DefaultAppUrl;
      var downloadUrl := appUrl + DownloadPath + downloadToken;
      email := Some(DownloadEmail(order.email, order.name, downloadUrl, expiresAt));
      return OrderApproved(downloadUrl), upload, email;
    }

    return InvalidAction, upload, email;
  }

  // ---------------------------------------------------------------- lemmas

  /**
   * Refusals write nothing, upload nothing and send nothing: a bad credential
   * is 401 before the body is read; a missing id or action is 400; an unknown
   * id is 404; an existing order with any action other than the two is 400.
   */
  lemma ReviewRefusals(rows: map<string, Order>, req: ReviewRequest, env: Environment, fx: ApprovalEffects)
    ensures var r := Review(rows, req, env, fx);
            && (!IsAdmin(req.authorization, env.adminPassword) <==> r.response == Unauthorized)
            && (r.response == MissingFields <==>
                  IsAdmin(req.authorization, env.adminPassword) && (!Filled(req.orderId) || !Filled(req.action)))
            && (r.response == OrderNotFound <==>
                  IsAdmin(req.authorization, env.adminPassword) && Filled(req.orderId) && Filled(req.action)
                  && req.orderId.value !in rows)
            && (r.response == InvalidAction <==>
                  IsAdmin(req.authorization, env.adminPassword) && Filled(req.orderId) && Filled(req.action)
                  && req.orderId.value in rows && req.action.value != "reject" && req.action.value != "approve")
            && (r.response.StatusCode() != 200 ==> r.rows == rows && r.upload.None? && r.email.None?)
  {
  }

  /**
   * Rejection changes only the status and the update time of the named row,
   * whatever its status was: token, expiry, counters and artifact URL stay.
   */
  lemma RejectFootprint(rows: map<string, Order>, req: ReviewRequest, env: Environment, fx: ApprovalEffects)
    requires IsAdmin(req.authorization, env.adminPassword)
    requires Filled(req.orderId) && req.orderId.value in rows && req.action == Some("reject")
    ensures var r, id := Review(rows, req, env, fx), req.orderId.value;
            && r.response == OrderRejected && r.upload.None? && r.email.None?
            && r.rows.Keys == rows.Keys
            && r.rows[id].status == Rejected && r.rows[id].updatedAt == fx.now
            && r.rows[id] == rows[id].(status := r.rows[id].status, updatedAt := r.rows[id].updatedAt)
            && (forall other :: other in rows && other != id ==> r.rows[other] == rows[other])
  {
    var id := req.orderId.value;
    assert Review(rows, req, env, fx) == ReviewResult(OrderRejected, rows[id := RejectedRow(rows[id], fx.now)], None, None);
  }

  /**
   * Approval sets the status, a fresh token, an expiry 48 hours after the
   * approval instant, the artifact URL and the approval time in one update,
   * leaves the download counter and allowance alone, returns and emails the
   * same link, which carries the token, and sends the email to the order's
   * address.
   */
  lemma ApproveFootprint(rows: map<string, Order>, req: ReviewRequest, env: Environment, fx: ApprovalEffects)
    requires IsAdmin(req.authorization, env.adminPassword)
    requires Filled(req.orderId) && req.orderId.value in rows && req.action == Some("approve")
    ensures var r, id := Review(rows, req, env, fx), req.orderId.value;
            var o, o' := rows[id], r.rows[id];
            && r.rows.Keys == rows.Keys
            && (forall other :: other in rows && other != id ==> r.rows[other] == rows[other])
            && o'.status == Approved && o'.downloadToken == Some(fx.freshToken)
            && o'.downloadExpiresAt == Some(fx.now + 48 * 60 * 60 * 1000)
            && o'.approvedAt == Some(fx.now) && o'.updatedAt == fx.now
            && o'.downloadCount == o.downloadCount && o'.maxDownloads == o.maxDownloads
            && o'.(status := o.status, downloadToken := o.downloadToken, downloadExpiresAt := o.downloadExpiresAt,
                   watermarkedFileUrl := o.watermarkedFileUrl, approvedAt := o.approvedAt, updatedAt := o.updatedAt) == o
            && r.response.OrderApproved?
            && r.response.downloadUrl == (if Filled(env.appUrl) then env.appUrl.value else "http://localhost:3000")
                                         + "/api/download?token=" + fx.freshToken
            && r.email == Some(DownloadEmail(o.email, o.name, r.response.downloadUrl, fx.now + ExpiryMs))
  {
    var id, o := req.orderId.value, rows[req.orderId.value];
    var link := DownloadUrl(env.appUrl, fx.freshToken);
    var o' := ApprovedRow(o, fx, ArtifactUrl(env.originalThemeUrl, fx));
    assert Review(rows, req, env, fx) == ReviewResult(OrderApproved(link), rows[id := o'],
                                                      AttemptedUpload(o, env.originalThemeUrl, fx),
                                                      Some(DownloadEmail(o.email, o.name, link, fx.now + ExpiryMs)));
  }

  /**
   * Whether the email is delivered changes neither the response, nor the table,
   * nor the upload. The route catches a failed send, logs it and carries on, so
   * the outcome is discarded; this is why no result of `Review` depends on
   * `emailSent`.
   */
  lemma EmailOutcomeIrrelevant(rows: map<string, Order>, req: ReviewRequest, env: Environment, fx: ApprovalEffects,
                               delivered: bool)
    ensures Review(rows, req, env, fx.(emailSent := delivered)) == Review(rows, req, env, fx)
  {
    var fx' := fx.(emailSent := delivered);
    if IsAdmin(req.authorization, env.adminPassword) && Filled(req.orderId) && Filled(req.action)
       && req.orderId.value in rows {
      var o := rows[req.orderId.value];
      assert ArtifactUrl(env.originalThemeUrl, fx') == ArtifactUrl(env.originalThemeUrl, fx);
      assert AttemptedUpload(o, env.originalThemeUrl, fx') == AttemptedUpload(o, env.originalThemeUrl, fx);
      assert ApprovedRow(o, fx', ArtifactUrl(env.originalThemeUrl, fx)) == ApprovedRow(o, fx, ArtifactUrl(env.originalThemeUrl, fx));
    }
  }

  /**
   * What an approval records as the artifact, and what it uploads. The upload,
   * when attempted, is the original archive watermarked with this order's
   * notice, filed under the order's id.
   */
  lemma ApproveArtifact(rows: map<string, Order>, req: ReviewRequest, env: Environment, fx: ApprovalEffects)
    requires IsAdmin(req.authorization, env.adminPassword)
    requires Filled(req.orderId) && req.orderId.value in rows && req.action == Some("approve")
    ensures var r, o := Review(rows, req, env, fx), rows[req.orderId.value];
            var url := r.rows[req.orderId.value].watermarkedFileUrl;
            && (!Filled(env.originalThemeUrl) ==> url == Some("") && r.upload.None?)
            && (Filled(env.originalThemeUrl) && fx.theme.Some? && fx.packed && fx.blobUrl.Some? ==>
                  url == fx.blobUrl)
            && (Filled(env.originalThemeUrl) && !(fx.theme.Some? && fx.packed && fx.blobUrl.Some?) ==>
                  url == env.originalThemeUrl)
            && (r.upload.Some? <==> Filled(env.originalThemeUrl) && fx.theme.Some? && fx.packed)
            && (r.upload.Some? ==>
                  r.upload.value.path == "downloads/" + o.id + "-apex-theme.zip"
                  && r.upload.value.content[RootLicense] == Notice(o, fx.nowIso))
  {
  }

  /** No review takes a counter out of its allowance or files a row under another id. */
  lemma ReviewKeepsWellFormed(rows: map<string, Order>, req: ReviewRequest, env: Environment, fx: ApprovalEffects)
    requires WellFormed(rows)
    ensures WellFormed(Review(rows, req, env, fx).rows)
  {
  }
}
