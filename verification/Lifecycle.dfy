/** The life of an order: its statuses, and how long a pending one keeps its
    goods reserved. */
module Lifecycle {

  datatype Status = PENDING | CONFIRMED | PROCESSING | SHIPPED | DELIVERED | CANCELLED

  /** In clock ticks of a microsecond: a day. */
  const RESERVATION_LIFETIME := 86_400_000_000
}
