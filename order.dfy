/**
 * One row of the `orders` table and its enumerations. Timestamps are
 * milliseconds since the epoch; NULL columns are `None`.
 */
module OrderModel {
  import opened Options

  /** The manual payment rails the storefront offers. */
  datatype PaymentMethod = VodafoneCash | InstaPay | Telda {

    /** The identifier the storefront submits for this rail. */
    function Name(): string {
      match this
      case VodafoneCash => "vodafone_cash"
      case InstaPay => "instapay"
      case Telda => "telda"
    }
  }

  /** The rail a submitted identifier names, if any. */
  function ParsePaymentMethod(s: string): (r: Option<PaymentMethod>)
    ensures r.Some? ==> r.value.Name() == s
    ensures forall p: PaymentMethod :: p.Name() == s ==> r == Some(p)
  {
    if s == "vodafone_cash" then Some(VodafoneCash)
    else if s == "instapay" then Some(InstaPay)
    else if s == "telda" then Some(Telda)
    else None
  }

  /** "paypal" names none of the rails. */
  lemma PaypalIsNoRail()
    ensures ParsePaymentMethod("paypal").None?
  {
    assert |"paypal"| == 6;
  }

  datatype OrderStatus = Pending | Approved | Rejected

  /**
   * An order row. `paymentMethod` holds whatever identifier the intake form
   * carried: the column is typed as a `PaymentMethod` but nothing checks it.
   */
  datatype Order = Order(
    id: string,
    email: string,
    name: string,
    phone: string,
    businessName: Option<string>,
    paymentMethod: string,
    screenshotUrl: string,
    status: OrderStatus,
    downloadCount: int,
    maxDownloads: int,
    downloadToken: Option<string>,
    downloadExpiresAt: Option<int>,
    watermarkedFileUrl: Option<string>,
    createdAt: int,
    updatedAt: int,
    approvedAt: Option<int>,
    approvedBy: Option<string>)

  /** The download allowance every new order receives. */
  const DefaultMaxDownloads: int := 3

  /** An optional text column or form value that JavaScript treats as truthy: present and not empty. */
  predicate Filled(v: Option<string>) {
    v.Some? && v.value != ""
  }
}
