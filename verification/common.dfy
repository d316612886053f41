/** Shared vocabulary of the shop's data store: the option type and the
    enumerations declared for the database (app_role, delivery_status,
    game_mode, payment_status). */
module Common {

  datatype Option<+T> = None | Some(value: T)

  datatype Result<+T, +E> = Ok(value: T) | Err(error: E)

  /** An octet, as held by a Uint8Array. */
  newtype byte = x: int | 0 <= x < 256

  /** Timestamps are opaque: the model only copies them from the request or
      the clock into rows, it never computes with them. */
  type Timestamp = int

  datatype AppRole = Admin | Manager

  datatype DeliveryStatus = Pending | Queued | Processing | Delivered | Failed

  datatype GameMode = Survival | Lifesteal

  datatype PaymentStatus = PaymentPending | Completed | PaymentFailed | Refunded

  /** The text a game mode is stored as. */
  function ModeName(m: GameMode): (r: string)
    ensures |r| > 0
  {
    match m
    case Survival => "survival"
    case Lifesteal => "lifesteal"
  }

  /** JavaScript truthiness of an optional string: absent and "" are both false. */
  predicate Truthy(s: Option<string>)
  {
    s.Some? && s.value != ""
  }
}
