/**
 * The records the frontend receives from the booking API. A field the server
 * leaves out is the empty string, which JavaScript treats as falsy just like
 * `undefined`.
 */
module Records {
  import opened Wrappers

  /** A booking as `GET /hair-artists/bookings` returns it; `date` is `YYYY-MM-DD`, `time` is `HH:MM`. */
  datatype Booking = Booking(
    id: int,
    name: string,
    email: string,
    phone: string,
    date: string,
    time: string,
    service: string,
    status: string,
    hairArtistId: int)

  /**
   * A salon service. A missing, null or zero `duration` is 0; `lastFetched`
   * is the `_lastFetched` stamp (milliseconds) the service layer adds.
   */
  datatype Service = Service(id: int, name: string, duration: int, lastFetched: Option<int>)
}
