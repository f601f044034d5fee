/** The payment gateway as the services see it: the checkout-session request they
    build, and what a session lookup reports. The gateway itself is an oracle passed
    to the operations that call it (a `None` answer means the call threw). */
module Gateway {
  import opened Common

  /** One `line_items` entry, in euros, priced per unit in cents. */
  datatype SessionLine = SessionLine(name: string, images: seq<string>, unitAmount: real, quantity: int)

  datatype Metadata = NoMetadata | Metadata(userId: string, orderId: int)

  /** A card-payment checkout session request in `payment` mode. */
  datatype SessionRequest = SessionRequest(lines: seq<SessionLine>, successUrl: string, cancelUrl: string, metadata: Metadata)

  /** A retrieved session: its id, `payment_status`, customer e-mail and `amount_total` in cents. */
  datatype Session = Session(id: string, paymentStatus: string, customerEmail: Option<string>, amountTotal: int)
}
