/** The notification texts: the ones the automatic check-in and check-out
    send, and the operator's manual send with its three message kinds. */
module Messages {
  import opened Wrappers

  /** The academy name used when the configuration gives none. */
  const DefaultAcademy := "OO학원"

  /** The check-in notification: `"<name>"님이 "<academy>"에 등원하였습니다.` */
  function CheckinMessage(name: string, academy: string): string {
    "\"" + name + "\"님이 \"" + academy + "\"에 등원하였습니다."
  }

  /** The check-out notification: `"<name>"님이 "<academy>"에서 하원하였습니다.` */
  function CheckoutMessage(name: string, academy: string): string {
    "\"" + name + "\"님이 \"" + academy + "\"에서 하원하였습니다."
  }

  /** Both notifications quote the student's name first and the academy's
      name after it, and for the same student they never coincide. */
  lemma NotificationsNameStudent(name: string, academy: string)
    ensures CheckinMessage(name, academy)[1..|name| + 1] == name
    ensures CheckoutMessage(name, academy)[1..|name| + 1] == name
    ensures CheckinMessage(name, academy)[|name| + 6..|name| + 6 + |academy|] == academy
    ensures CheckoutMessage(name, academy)[|name| + 6..|name| + 6 + |academy|] == academy
    ensures |CheckoutMessage(name, academy)| == |CheckinMessage(name, academy)| + 1
    ensures CheckinMessage(name, academy) != CheckoutMessage(name, academy)
  {
  }

  /** The kinds of message an operator can send by hand. */
  datatype Kind = CheckIn | CheckOut | PaymentRequest

  /** The request's `type` value that selects each kind. */
  function KindName(k: Kind): string {
    match k
    case CheckIn => "checkin"
    case CheckOut => "checkout"
    case PaymentRequest => "payment_request"
  }

  /** Reads the request's `type`; anything but the three names, or no type
      at all, is an invalid request. */
  function ParseKind(t: Option<string>): (r: Option<Kind>)
    ensures r.Some? ==> t == Some(KindName(r.value))
    ensures forall k :: t == Some(KindName(k)) ==> r == Some(k)
  {
    match t
    case Some("checkin") => Some(CheckIn)
    case Some("checkout") => Some(CheckOut)
    case Some("payment_request") => Some(PaymentRequest)
    case _ => None
  }

  /** The default payment reminder:
      `안녕하세요, <academy>입니다.\n<name>님의 이번 달 원비 납입을 부탁드립니다.` */
  function PaymentRequestMessage(name: string, academy: string): string {
    "안녕하세요, " + academy + "입니다.\n" + name + "님의 이번 달 원비 납입을 부탁드립니다."
  }

  /** The text of a manual send. Check-in and check-out give exactly the
      automatic notification; a payment request gives the operator's text
      verbatim when it is non-empty (even if it is only white space), and
      the default reminder otherwise. */
  function ManualText(k: Kind, name: string, academy: string, custom: Option<string>): (m: string)
    ensures k == CheckIn ==> m == CheckinMessage(name, academy)
    ensures k == CheckOut ==> m == CheckoutMessage(name, academy)
    ensures k == PaymentRequest && custom.Some? && custom.value != "" ==> m == custom.value
    ensures k == PaymentRequest && (custom.None? || custom.value == "") ==> m == PaymentRequestMessage(name, academy)
  {
    match k
    case CheckIn => "\"" + name + "\"님이 \"" + academy + "\"에 등원하였습니다."
    case CheckOut => "\"" + name + "\"님이 \"" + academy + "\"에서 하원하였습니다."
    case PaymentRequest =>
      if custom.Some? && custom.value != "" then custom.value
      else "안녕하세요, " + academy + "입니다.\n" + name + "님의 이번 달 원비 납입을 부탁드립니다."
  }
}
