/** The booking record shared by the chat widget, the local store and the
    admin dashboard. */
module Records {

  /** One booking as the chat widget writes it and the dashboard receives it.
      `created` and `updatedAt` are ISO timestamps in the program; here they
      are the instants they denote, as integers, so that comparing them is
      comparing the `Date`s they parse to. */
  datatype Booking = Booking(
    id: string,
    stylist: string,
    service: string,
    date: string,
    time: string,
    clientName: string,
    clientEmail: string,
    clientPhone: string,
    status: string,
    created: int,
    updatedAt: int)
}
