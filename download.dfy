/**
 * The download gate: `GET /api/download?token=...`. A linear chain of checks
 * on the one row that carries the token, ending in a counter increment and a
 * redirect to the customer's copy of the theme.
 */
module DownloadRoute {
  import opened Options
  import opened OrderModel
  import opened Store

  datatype DownloadResponse =
    | MissingToken             // 400 "Missing download token"
    | InvalidLink              // 404 invalid-link page
    | LinkExpired              // 410 link-expired page
    | LimitReached(max: int)   // 403 limit page naming the allowance
    | Redirect(url: string)    // 307 to the theme archive
    | ThemeNotFound            // 404 "Theme file not found"
  {
    function StatusCode(): int {
      match this
      case MissingToken => 400
      case InvalidLink => 404
      case LinkExpired => 410
      case LimitReached(_) => 403
      case Redirect(_) => 307
      case ThemeNotFound => 404
    }
  }

  /** The link has lapsed: an expiry is recorded and lies strictly before `now`. */
  predicate IsExpired(o: Order, now: int) {
    o.downloadExpiresAt.Some? && o.downloadExpiresAt.value < now
  }

  /**
   * Where a redeemed link sends the browser: the personalised archive when the
   * row records one, otherwise the configured original, otherwise nowhere.
   */
  function RedirectTarget(o: Order, originalThemeUrl: Option<string>): (r: Option<string>)
    ensures r.Some? ==> r.value != "" && (r == o.watermarkedFileUrl || r == originalThemeUrl)
    ensures Filled(o.watermarkedFileUrl) ==> r == o.watermarkedFileUrl
    ensures r.None? <==> !Filled(o.watermarkedFileUrl) && !Filled(originalThemeUrl)
  {
    if Filled(o.watermarkedFileUrl) then o.watermarkedFileUrl
    else if Filled(originalThemeUrl) then originalThemeUrl
    else None
  }

  /** One redemption against the row the token found: the response and the row as stored afterwards. */
  function Redeem(o: Order, now: int, originalThemeUrl: Option<string>): (DownloadResponse, Order) {
    if IsExpired(o, now) then (LinkExpired, o)
    else if o.downloadCount >= o.maxDownloads then (LimitReached(o.maxDownloads), o)
    else
      var counted := o.(downloadCount := o.downloadCount + 1, updatedAt := now);
      match RedirectTarget(o, originalThemeUrl)
      case Some(url) => (Redirect(url), counted)
      case None => (ThemeNotFound, counted)
  }

  /** The whole request against the table: the response and the table afterwards. */
  ghost function Download(rows: map<string, Order>, token: Option<string>, now: int,
                          originalThemeUrl: Option<string>): (DownloadResponse, map<string, Order>)
  {
    if !Filled(token) then (MissingToken, rows)
    else
      match RowByToken(rows, token.value)
      case None => (InvalidLink, rows)
      case Some(id) =>
        var (resp, row) := Redeem(rows[id], now, originalThemeUrl);
        (resp, rows[id := row])
  }

  /** Handles one download request; the table changes only as `Download` says. */
  method Get(store: OrderStore, token: Option<string>, now: int, originalThemeUrl: Option<string>)
      returns (resp: DownloadResponse)
    requires store.Valid()
    modifies store
    ensures store.Valid()
    ensures (resp, store.rows) == Download(old(store.rows), token, now, originalThemeUrl)
  {
    if token.None? || token.value == "" {
      return MissingToken;
    }
    var found := store.FindByToken(token.value);
    if found.None? {
      return InvalidLink;
    }
    var order := store.rows[found.value];
    if order.downloadExpiresAt.Some? && order.downloadExpiresAt.value < now {
      assert store.rows[found.value := order] == store.rows;
      return LinkExpired;
    }
    if order.downloadCount >= order.maxDownloads {
      assert store.rows[found.value := order] == store.rows;
      return LimitReached(order.maxDownloads);
    }
    store.rows := store.rows[order.id := order.(downloadCount := order.downloadCount + 1, updatedAt := now)];
    if order.watermarkedFileUrl.Some? && order.watermarkedFileUrl.value != "" {
      return Redirect(order.watermarkedFileUrl.value);
    }
    if originalThemeUrl.Some? && originalThemeUrl.value != "" {
      return Redirect(originalThemeUrl.value);
    }
    return ThemeNotFound;
  }

  /**
   * The failure answers, in the order they are checked; none of them writes.
   * A missing token is refused before any lookup; a token no single row holds
   * is an invalid link; a lapsed link is refused whatever its counter says; the
   * allowance is checked only on a link that has not lapsed.
   */
  lemma DownloadRefusals(rows: map<string, Order>, token: Option<string>, now: int, originalThemeUrl: Option<string>)
    ensures var (resp, after) := Download(rows, token, now, originalThemeUrl);
            && (!Filled(token) ==> resp == MissingToken && resp.StatusCode() == 400)
            && (Filled(token) && |TokenMatches(rows, token.value)| != 1 ==> resp == InvalidLink && resp.StatusCode() == 404)
            && (resp == LinkExpired ==> RowByToken(rows, token.value).Some?
                                        && IsExpired(rows[RowByToken(rows, token.value).value], now))
            && (resp.LimitReached? ==> var o := rows[RowByToken(rows, token.value).value];
                                       !IsExpired(o, now) && o.downloadCount >= o.maxDownloads && resp.max == o.maxDownloads)
            && (resp.StatusCode() in {400, 410, 403} || resp == InvalidLink ==> after == rows)
  {
  }

  /**
   * The refusals of a found row, for every input: a lapsed link is refused
   * with 410 whatever its counter says, and a live link whose counter reached
   * the allowance is refused with 403 naming it; neither writes.
   */
  lemma FoundRowRefusals(rows: map<string, Order>, token: string, now: int, originalThemeUrl: Option<string>,
                         id: string)
    requires token != "" && RowByToken(rows, token) == Some(id)
    ensures IsExpired(rows[id], now) ==> Download(rows, Some(token), now, originalThemeUrl) == (LinkExpired, rows)
    ensures !IsExpired(rows[id], now) && rows[id].downloadCount >= rows[id].maxDownloads ==>
              Download(rows, Some(token), now, originalThemeUrl) == (LimitReached(rows[id].maxDownloads), rows)
  {
    assert rows[id := rows[id]] == rows;
  }

  /**
   * A successful check raises exactly the found row's counter by one and
   * stamps its update time; every other column and every other row is kept.
   * The counter is raised even when there is no file to redirect to.
   */
  lemma DownloadSuccessFootprint(rows: map<string, Order>, token: string, now: int, originalThemeUrl: Option<string>,
                                 id: string)
    requires token != ""
    requires RowByToken(rows, token) == Some(id)
    requires !IsExpired(rows[id], now) && rows[id].downloadCount < rows[id].maxDownloads
    ensures var (resp, after) := Download(rows, Some(token), now, originalThemeUrl);
            && (match RedirectTarget(rows[id], originalThemeUrl)
                case Some(url) => resp == Redirect(url)
                case None => resp == ThemeNotFound)
            && after.Keys == rows.Keys
            && after[id] == rows[id].(downloadCount := rows[id].downloadCount + 1, updatedAt := now)
            && (forall other :: other in rows && other != id ==> after[other] == rows[other])
            && (resp == ThemeNotFound <==> !Filled(rows[id].watermarkedFileUrl) && !Filled(originalThemeUrl))
  {
  }

  /** Under sequential requests no redemption takes a counter past its allowance or below zero. */
  lemma DownloadKeepsWellFormed(rows: map<string, Order>, token: Option<string>, now: int, originalThemeUrl: Option<string>)
    requires WellFormed(rows)
    ensures WellFormed(Download(rows, token, now, originalThemeUrl).1)
  {
  }

  /** A lapsed link stays lapsed at every later instant, and a link without an expiry never lapses. */
  lemma ExpiryLasts(o: Order, now: int, later: int)
    requires now <= later
    ensures IsExpired(o, now) ==> IsExpired(o, later)
    ensures o.downloadExpiresAt.None? ==> !IsExpired(o, later)
  {
  }

  /** The expiry comparison is strict: a link is still good at the very instant it expires. */
  lemma ExpiryIsStrict(o: Order, now: int)
    requires o.downloadExpiresAt == Some(now)
    ensures !IsExpired(o, now)
    ensures o.downloadCount < o.maxDownloads ==> Redeem(o, now, None).1.downloadCount == o.downloadCount + 1
  {
  }
}
