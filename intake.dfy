/**
 * The orders endpoint: `POST /api/orders` takes a customer's order with a
 * payment screenshot, and `GET /api/orders` lists every order for the
 * administrator, newest first.
 */
module OrdersRoute {
  import opened Options
  import opened Text
  import opened OrderModel
  import opened Store
  import opened AdminAuth
  import opened Collections

  // ------------------------------------------------------- email pattern

  /** One or more characters of the class `[^\s@]`. */
  predicate IsRun(s: string) {
    |s| > 0 && forall k :: 0 <= k < |s| ==> !IsSpace(s[k]) && s[k] != '@'
  }

  /** The intake's email test `^[^\s@]+@[^\s@]+\.[^\s@]+$`: a run, an '@', a run, a '.', a run. */
  predicate MatchesEmailPattern(s: string) {
    exists i, j :: 0 < i < j < |s| - 1 && s[i] == '@' && s[j] == '.'
                   && IsRun(s[..i]) && IsRun(s[i + 1..j]) && IsRun(s[j + 1..])
  }

  /** Index `i` holds the only '@' of `s`. */
  predicate OnlyAtSign(s: string, i: int) {
    0 <= i < |s| && s[i] == '@' && forall k :: 0 <= k < |s| && k != i ==> s[k] != '@'
  }

  /**
   * The same test stated on characters: no white space anywhere, exactly one
   * '@' and not at the start, and a '.' in the domain with at least one
   * character on each side of it.
   */
  predicate EmailCharacters(s: string) {
    && NoSpace(s)
    && exists i :: 0 < i < |s| && OnlyAtSign(s, i) && exists j :: i + 1 < j < |s| - 1 && s[j] == '.'
  }

  lemma EmailPatternIsCharacterTest(s: string)
    ensures MatchesEmailPattern(s) <==> EmailCharacters(s)
  {
    if MatchesEmailPattern(s) {
      PatternGivesCharacters(s);
    }
    if EmailCharacters(s) {
      CharactersGivePattern(s);
    }
  }

  lemma PatternGivesCharacters(s: string)
    requires MatchesEmailPattern(s)
    ensures EmailCharacters(s)
  {
    var i, j :| 0 < i < j < |s| - 1 && s[i] == '@' && s[j] == '.'
                && IsRun(s[..i]) && IsRun(s[i + 1..j]) && IsRun(s[j + 1..]);
    forall k | 0 <= k < |s| && k != i && k != j
      ensures !IsSpace(s[k]) && s[k] != '@'
    {
      if k < i {
        assert s[..i][k] == s[k];
      } else if k < j {
        assert s[i + 1..j][k - i - 1] == s[k];
      } else {
        assert s[j + 1..][k - j - 1] == s[k];
      }
    }
    assert OnlyAtSign(s, i);
    assert NoSpace(s);
  }

  lemma CharactersGivePattern(s: string)
    requires EmailCharacters(s)
    ensures MatchesEmailPattern(s)
  {
    var i :| 0 < i < |s| && OnlyAtSign(s, i) && exists j :: i + 1 < j < |s| - 1 && s[j] == '.';
    var j :| i + 1 < j < |s| - 1 && s[j] == '.';
    assert IsRun(s[..i]);
    assert IsRun(s[i + 1..j]);
    assert IsRun(s[j + 1..]);
  }

  // ------------------------------------------------------------ the form

  /** The uploaded payment proof: its original file name and media type. */
  datatype Screenshot = Screenshot(fileName: string, mediaType: string)

  /** The multipart fields, each absent when the form lacks it. */
  datatype IntakeForm = IntakeForm(
    name: Option<string>,
    email: Option<string>,
    phone: Option<string>,
    businessName: Option<string>,
    paymentMethod: Option<string>,
    screenshot: Option<Screenshot>)

  datatype IntakeError = MissingRequiredFields | InvalidEmailFormat

  datatype IntakeResponse =
    | Created(orderId: string)    // 200 with the new id
    | BadRequest(error: IntakeError)  // 400
    | InternalError               // 500 "Internal server error": the upload failed
    | CreateFailed                // 500 "Failed to create order": the insert was refused
  {
    function StatusCode(): int {
      match this
      case Created(_) => 200
      case BadRequest(_) => 400
      case InternalError => 500
      case CreateFailed => 500
    }
  }

  /** Name, email, phone and payment method are non-empty and a screenshot is attached. */
  predicate HasRequiredFields(form: IntakeForm) {
    Filled(form.name) && Filled(form.email) && Filled(form.phone) && Filled(form.paymentMethod)
    && form.screenshot.Some?
  }

  /**
   * Why the form is refused, if it is: missing fields are reported before a
   * malformed email. An accepted email contains no white space.
   */
  function CheckIntake(form: IntakeForm): (r: Option<IntakeError>)
    ensures r == Some(MissingRequiredFields) <==> !HasRequiredFields(form)
    ensures r == Some(InvalidEmailFormat) <==> HasRequiredFields(form) && !EmailCharacters(form.email.value)
    ensures r.None? ==> HasRequiredFields(form) && NoSpace(form.email.value)
  {
    if !HasRequiredFields(form) then Some(MissingRequiredFields)
    else
      EmailPatternIsCharacterTest(form.email.value);
      if !MatchesEmailPattern(form.email.value) then Some(InvalidEmailFormat)
      else None
  }

  /** The business name as stored: trimmed, and NULL when absent or only white space. */
  function NormalizeBusiness(b: Option<string>): (r: Option<string>)
    ensures r.None? <==> b.None? || AllSpace(b.value)
    ensures r.Some? ==> b.Some? && r.value == Trim(b.value)
    ensures r.Some? ==> r.value != [] && !IsSpace(r.value[0]) && !IsSpace(r.value[|r.value| - 1])
  {
    match b
    case None => None
    case Some(v) =>
      TrimEmptyIff(v);
      TrimSlice(v);
      if Trim(v) == "" then None else Some(Trim(v))
  }

  /** The blob path of the payment screenshot. */
  function ScreenshotPath(uploadId: string, fileName: string): string {
    "screenshots/" + uploadId + "-" + fileName
  }

  /**
   * The row an accepted form becomes: pending, no downloads used out of the
   * default allowance, no token, expiry or artifact; the email lower-cased
   * (the trim that follows can change nothing, since an accepted email has no
   * white space); name and phone trimmed; the payment method as submitted.
   */
  function NewOrderRow(form: IntakeForm, id: string, screenshotUrl: string, now: int): (o: Order)
    requires CheckIntake(form).None?
    ensures o.id == id && o.status == Pending && o.downloadCount == 0 && o.maxDownloads == 3
    ensures o.downloadToken.None? && o.downloadExpiresAt.None? && o.watermarkedFileUrl.None?
    ensures o.approvedAt.None? && o.approvedBy.None?
    ensures o.email == ToLower(form.email.value)
    ensures o.name == Trim(form.name.value) && o.phone == Trim(form.phone.value)
    ensures o.businessName == NormalizeBusiness(form.businessName)
    ensures o.paymentMethod == form.paymentMethod.value && o.screenshotUrl == screenshotUrl
    ensures o.createdAt == now && o.updatedAt == now
  {
    TrimLowerWithoutSpace(form.email.value);
    Order(
      id := id,
      email := Trim(ToLower(form.email.value)),
      name := Trim(form.name.value),
      phone := Trim(form.phone.value),
      businessName := NormalizeBusiness(form.businessName),
      paymentMethod := form.paymentMethod.value,
      screenshotUrl := screenshotUrl,
      status := Pending,
      downloadCount := 0,
      maxDownloads := DefaultMaxDownloads,
      downloadToken := None,
      downloadExpiresAt := None,
      watermarkedFileUrl := None,
      createdAt := now,
      updatedAt := now,
      approvedAt := None,
      approvedBy := None)
  }

  /** The response, the table afterwards, and the blob path the screenshot was sent to (if it was). */
  datatype IntakeResult = IntakeResult(response: IntakeResponse, rows: map<string, Order>, uploadPath: Option<string>)

  /**
   * The whole request. `uploadId` and `orderId` are the two UUIDs drawn;
   * `uploadedUrl` is what the upload returned, `None` when it failed. The
   * table's primary key refuses an id already in use.
   */
  function Intake(rows: map<string, Order>, form: IntakeForm, uploadId: string, uploadedUrl: Option<string>,
                  orderId: string, now: int): IntakeResult
  {
    match CheckIntake(form)
    case Some(err) => IntakeResult(BadRequest(err), rows, None)
    case None =>
      var path := ScreenshotPath(uploadId, form.screenshot.value.fileName);
      match uploadedUrl
      case None => IntakeResult(InternalError, rows, Some(path))
      case Some(url) =>
        if orderId in rows then IntakeResult(CreateFailed, rows, Some(path))
        else IntakeResult(Created(orderId), rows[orderId := NewOrderRow(form, orderId, url, now)], Some(path))
  }

  /** Handles one order submission; the table and the upload are as `Intake` says. */
  method Post(store: OrderStore, form: IntakeForm, uploadId: string, uploadedUrl: Option<string>,
              orderId: string, now: int) returns (resp: IntakeResponse, uploadPath: Option<string>)
    requires store.Valid()
    modifies store
    ensures store.Valid()
    ensures IntakeResult(resp, store.rows, uploadPath) == Intake(old(store.rows), form, uploadId, uploadedUrl, orderId, now)
  {
    uploadPath := None;
    var problem := CheckIntake(form);
    if problem.Some? {
      return BadRequest(problem.value), uploadPath;
    }
    uploadPath := Some(ScreenshotPath(uploadId, form.screenshot.value.fileName));
    if uploadedUrl.None? {
      return InternalError, uploadPath;
    }
    if orderId in store.rows {
      return CreateFailed, uploadPath;
    }
    var row := NewOrderRow(form, orderId, uploadedUrl.value, now);
    PutKeepsWellFormed(store.rows, row);
    store.rows := store.rows[orderId := row];
    return Created(orderId), uploadPath;
  }

  /** A refused form is answered 400 and nothing is uploaded or inserted. */
  lemma IntakeRefusal(rows: map<string, Order>, form: IntakeForm, uploadId: string, uploadedUrl: Option<string>,
                      orderId: string, now: int)
    ensures var r := Intake(rows, form, uploadId, uploadedUrl, orderId, now);
            && (r.response.StatusCode() == 400 <==> !HasRequiredFields(form) || !EmailCharacters(form.email.value))
            && (r.response == BadRequest(MissingRequiredFields) <==> !HasRequiredFields(form))
            && (r.response.StatusCode() == 400 ==> r.rows == rows && r.uploadPath.None?)
  {
  }

  /**
   * An accepted form is uploaded under its fresh path before anything is
   * inserted; the order is created exactly when the upload returned a URL and
   * the id is new, and otherwise the table is kept.
   */
  lemma IntakeUploadsFirst(rows: map<string, Order>, form: IntakeForm, uploadId: string, uploadedUrl: Option<string>,
                           orderId: string, now: int)
    requires CheckIntake(form).None?
    ensures var r := Intake(rows, form, uploadId, uploadedUrl, orderId, now);
            && r.uploadPath == Some("screenshots/" + uploadId + "-" + form.screenshot.value.fileName)
            && (r.response.Created? <==> uploadedUrl.Some? && orderId !in rows)
            && (!r.response.Created? ==> r.rows == rows)
  {
  }

  /** A created order is one new pending row under the new id, pointing at the uploaded screenshot; no other row changes. */
  lemma IntakeInsertsOneRow(rows: map<string, Order>, form: IntakeForm, uploadId: string, uploadedUrl: Option<string>,
                            orderId: string, now: int)
    requires Intake(rows, form, uploadId, uploadedUrl, orderId, now).response.Created?
    ensures var r := Intake(rows, form, uploadId, uploadedUrl, orderId, now);
            && r.response.orderId == orderId
            && r.rows.Keys == rows.Keys + {orderId}
            && (forall id :: id in rows ==> r.rows[id] == rows[id])
            && r.rows[orderId].status == Pending && r.rows[orderId].downloadCount == 0
            && uploadedUrl.Some? && r.rows[orderId].screenshotUrl == uploadedUrl.value
            && CheckIntake(form).None? && orderId !in rows
            && r.rows == rows[orderId := NewOrderRow(form, orderId, uploadedUrl.value, now)]
  {
    IntakeCreatedCase(rows, form, uploadId, uploadedUrl, orderId, now);
    InsertFresh(rows, orderId, NewOrderRow(form, orderId, uploadedUrl.value, now));
  }

  /** An order is created exactly when the form passes, the upload succeeded and the id is unused. */
  lemma IntakeCreatedCase(rows: map<string, Order>, form: IntakeForm, uploadId: string, uploadedUrl: Option<string>,
                          orderId: string, now: int)
    requires Intake(rows, form, uploadId, uploadedUrl, orderId, now).response.Created?
    ensures CheckIntake(form).None? && uploadedUrl.Some? && orderId !in rows
    ensures Intake(rows, form, uploadId, uploadedUrl, orderId, now)
            == IntakeResult(Created(orderId), rows[orderId := NewOrderRow(form, orderId, uploadedUrl.value, now)],
                            Some(ScreenshotPath(uploadId, form.screenshot.value.fileName)))
  {
  }

  /** Only a created order writes to the table. */
  lemma IntakeWritesOnlyOnCreate(rows: map<string, Order>, form: IntakeForm, uploadId: string,
                                 uploadedUrl: Option<string>, orderId: string, now: int)
    requires !Intake(rows, form, uploadId, uploadedUrl, orderId, now).response.Created?
    ensures Intake(rows, form, uploadId, uploadedUrl, orderId, now).rows == rows
  {
  }

  /** Submissions never break the table's invariant. */
  lemma IntakeKeepsWellFormed(rows: map<string, Order>, form: IntakeForm, uploadId: string, uploadedUrl: Option<string>,
                              orderId: string, now: int)
    requires WellFormed(rows)
    ensures WellFormed(Intake(rows, form, uploadId, uploadedUrl, orderId, now).rows)
  {
    if Intake(rows, form, uploadId, uploadedUrl, orderId, now).response.Created? {
      IntakeInsertsOneRow(rows, form, uploadId, uploadedUrl, orderId, now);
      var o := NewOrderRow(form, orderId, uploadedUrl.value, now);
      PutKeepsWellFormed(rows, o);
    } else {
      IntakeWritesOnlyOnCreate(rows, form, uploadId, uploadedUrl, orderId, now);
    }
  }

  /**
   * Any non-empty payment method is accepted and stored as submitted, whether
   * or not it names one of the three rails: "paypal", which names none, is
   * stored as it is.
   */
  lemma PaymentMethodUnchecked(form: IntakeForm, id: string, url: string, now: int)
    requires Filled(form.name) && Filled(form.email) && EmailCharacters(form.email.value)
    requires Filled(form.phone) && Filled(form.paymentMethod) && form.screenshot.Some?
    ensures CheckIntake(form).None?
    ensures NewOrderRow(form, id, url, now).paymentMethod == form.paymentMethod.value
    ensures form.paymentMethod.value == "paypal" ==> ParsePaymentMethod(NewOrderRow(form, id, url, now).paymentMethod).None?
  {
    PaypalIsNoRail();
  }

  /** The required-field test looks only for non-empty text, so any name of blanks is accepted and stored empty. */
  lemma BlankNameAccepted(form: IntakeForm, id: string, url: string, now: int)
    requires Filled(form.name) && AllSpace(form.name.value)
    requires Filled(form.email) && EmailCharacters(form.email.value)
    requires Filled(form.phone) && Filled(form.paymentMethod) && form.screenshot.Some?
    ensures CheckIntake(form).None?
    ensures NewOrderRow(form, id, url, now).name == ""
  {
    TrimEmptyIff(form.name.value);
  }

  // ------------------------------------------------------------- listing

  /** Newest first by creation time. */
  predicate NewestFirst(s: seq<Order>) {
    forall i, j :: 0 <= i < j < |s| ==> s[i].createdAt >= s[j].createdAt
  }

  /** Inserts `o` into a newest-first list, before the first row that is not newer than it. */
  function InsertNewestFirst(s: seq<Order>, o: Order): (r: seq<Order>)
    requires NewestFirst(s)
    ensures NewestFirst(r)
    ensures multiset(r) == multiset(s) + multiset{o}
    ensures |r| == |s| + 1 && forall x :: x in r <==> x in s || x == o
  {
    if s == [] then [o]
    else if s[0].createdAt <= o.createdAt then
      HeadIsNewest(s);
      PrependKeepsNewestFirst(o, s);
      [o] + s
    else
      var rest := InsertNewestFirst(s[1..], o);
      HeadIsNewest(s);
      PrependKeepsNewestFirst(s[0], rest);
      assert s == [s[0]] + s[1..];
      [s[0]] + rest
  }

  /** The head of a newest-first list is at least as new as every element. */
  lemma HeadIsNewest(s: seq<Order>)
    requires NewestFirst(s) && s != []
    ensures forall y :: y in s ==> y.createdAt <= s[0].createdAt
    ensures forall y :: y in s[1..] ==> y.createdAt <= s[0].createdAt
  {
    forall y | y in s ensures y.createdAt <= s[0].createdAt {
      var k :| 0 <= k < |s| && s[k] == y;
    }
    forall y | y in s[1..] ensures y.createdAt <= s[0].createdAt {
      var k :| 0 <= k < |s| - 1 && s[1..][k] == y;
      assert s[k + 1] == y;
    }
  }

  /** An order at least as new as every element of a newest-first list can go in front of it. */
  lemma PrependKeepsNewestFirst(x: Order, s: seq<Order>)
    requires NewestFirst(s)
    requires forall y :: y in s ==> y.createdAt <= x.createdAt
    ensures NewestFirst([x] + s)
  {
    var t := [x] + s;
    forall i, j | 0 <= i < j < |t| ensures t[i].createdAt >= t[j].createdAt {
      assert t[j] == s[j - 1];
      if i == 0 {
        assert s[j - 1] in s;
      } else {
        assert t[i] == s[i - 1];
      }
    }
  }

  /** Inserting one more row keeps the listing equal, as a set, to the rows taken so far, one entry per row. */
  lemma ListingStep(rows: map<string, Order>, done: set<string>, listed: seq<Order>, id: string)
    requires WellFormed(rows) && id in rows && id !in done && NewestFirst(listed) && |listed| == |done|
    requires forall d :: d in done ==> d in rows && rows[d] in listed
    requires forall o :: o in listed ==> o.id in done && rows[o.id] == o && multiset(listed)[o] == 1
    ensures var next := InsertNewestFirst(listed, rows[id]);
            && |next| == |done + {id}|
            && (forall d :: d in done + {id} ==> rows[d] in next)
            && (forall o :: o in next ==> o.id in done + {id} && rows[o.id] == o && multiset(next)[o] == 1)
  {
    var o := rows[id];
    assert o.id == id && o !in listed;
    var next := InsertNewestFirst(listed, o);
    assert multiset(next) == multiset(listed) + multiset{o};
    forall x | x in next
      ensures x.id in done + {id} && rows[x.id] == x && multiset(next)[x] == 1
    {
      if x != o {
        assert x in multiset(next);
        assert x in listed;
      }
    }
  }

  datatype ListResponse = ListUnauthorized | OrderList(orders: seq<Order>) {
    function StatusCode(): int {
      if ListUnauthorized? then 401 else 200
    }
  }

  /** Lists every order, newest first, to the administrator; anyone else gets 401. */
  method Get(store: OrderStore, authorization: Option<string>, adminPassword: Option<string>)
      returns (resp: ListResponse)
    requires store.Valid()
    ensures resp == ListUnauthorized <==> !IsAdmin(authorization, adminPassword)
    ensures resp.OrderList? ==>
              && NewestFirst(resp.orders)
              && |resp.orders| == |store.rows|
              && (forall o :: o in resp.orders <==> o in store.rows.Values)
              && (forall o :: o in resp.orders ==> multiset(resp.orders)[o] == 1)
  {
    if adminPassword.None? || adminPassword.value == "" || authorization != Some(BearerPrefix + adminPassword.value) {
      return ListUnauthorized;
    }
    var rows := store.rows;
    var pending := rows.Keys;
    var listed: seq<Order> := [];
    ghost var done: set<string> := {};
    while pending != {}
      invariant pending + done == rows.Keys && pending !! done
      invariant NewestFirst(listed)
      invariant |listed| == |done|
      invariant forall id :: id in done ==> rows[id] in listed
      invariant forall o :: o in listed ==> o.id in done && rows[o.id] == o && multiset(listed)[o] == 1
      decreases |pending|
    {
      var id :| id in pending;
      ListingStep(rows, done, listed, id);
      MoveOne(pending, done, rows.Keys, id);
      listed := InsertNewestFirst(listed, rows[id]);
      pending := pending - {id};
      done := done + {id};
    }
    assert done == rows.Keys;
    forall o | o in listed
      ensures o in rows.Values
    {
      assert o.id in rows && rows[o.id] == o;
    }
    return OrderList(listed);
  }
}
