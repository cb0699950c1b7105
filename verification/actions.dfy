/** Which status actions the dashboard offers (admin.js): the appointment
    card's two buttons and the booking modal's action row, and what using
    them does to the mirror. */
module Actions {
  import opened Records
  import opened Mirror

  /** The card's buttons: "confirm" and "cancel", each enabled or not. */
  datatype CardButtons = CardButtons(confirm: bool, cancel: bool)

  /** `createAppointmentCard`: a button is disabled only when the booking
      already has the status it would set. */
  function CardActions(b: Booking): CardButtons {
    CardButtons(b.status != "confirmed", b.status != "cancelled")
  }

  /** `openBookingModal`: confirm and cancel are offered only for a pending
      booking; "close" always is. */
  predicate ModalOffersActions(b: Booking) {
    b.status == "pending"
  }

  /** Whatever the modal offers, the card offers too; the card also offers
      both buttons for statuses the modal does not act on, and never has
      both disabled. */
  lemma ModalImpliesCard(b: Booking)
    ensures CardActions(b).confirm || CardActions(b).cancel
    ensures ModalOffersActions(b) ==> CardActions(b) == CardButtons(true, true)
    ensures b.status != "pending" && b.status != "confirmed" && b.status != "cancelled"
      ==> !ModalOffersActions(b) && CardActions(b) == CardButtons(true, true)
  {
  }

  /** A card button click: a disabled button does nothing, an enabled one runs
      `updateBookingStatus` with the card's booking id. */
  function ClickCard(m: seq<Booking>, b: Booking, confirm: bool, now: int): seq<Booking> {
    var buttons := CardActions(b);
    if confirm then
      if buttons.confirm then UpdateBookingStatus(m, b.id, "confirmed", now).mirror else m
    else
      if buttons.cancel then UpdateBookingStatus(m, b.id, "cancelled", now).mirror else m
  }

  /** A card button is enabled exactly when using it would change the
      booking's status: the buttons never offer an update that does
      nothing, and never hide one that does something. */
  lemma EnabledIffEffective(m: seq<Booking>, b: Booking, now: int)
    requires HasId(m, b.id) && m[FindIndex(m, b.id)] == b
    ensures var k := FindIndex(m, b.id);
      && (CardActions(b).confirm <==> UpdateBookingStatus(m, b.id, "confirmed", now).mirror[k].status != b.status)
      && (CardActions(b).cancel <==> UpdateBookingStatus(m, b.id, "cancelled", now).mirror[k].status != b.status)
  {
    UpdateOnlyTouchesTarget(m, b.id, "confirmed", now);
    UpdateOnlyTouchesTarget(m, b.id, "cancelled", now);
  }

  /** `handleModalAction`: the modal's booking gets the chosen status. */
  function ModalAction(m: seq<Booking>, b: Booking, status: string, now: int): seq<Booking> {
    UpdateBookingStatus(m, b.id, status, now).mirror
  }

  /** After a click, the card drawn again from the mirror has that button
      disabled, so clicking it again changes nothing. */
  lemma {:induction false} ClickThenDisabled(m: seq<Booking>, b: Booking, confirm: bool, now: int, later: int)
    requires HasId(m, b.id) && m[FindIndex(m, b.id)] == b
    ensures var r := ClickCard(m, b, confirm, now);
      var k := FindIndex(m, b.id);
      var redrawn := r[k];
      && (confirm ==> !CardActions(redrawn).confirm && CardActions(redrawn).cancel)
      && (!confirm ==> !CardActions(redrawn).cancel && CardActions(redrawn).confirm)
      && ClickCard(r, redrawn, confirm, later) == r
  {
    var k := FindIndex(m, b.id);
    var status := if confirm then "confirmed" else "cancelled";
    UpdateOnlyTouchesTarget(m, b.id, status, now);
    var r := ClickCard(m, b, confirm, now);
    if r != m {
      assert r[k].status == status;
    }
    FindIndexIs(r, b.id, k);
  }

  /** Confirming or cancelling from the modal takes the booking out of the
      pending count when it is still pending in the mirror, and the modal
      then offers no more actions for it. The modal keeps the copy it was
      opened with, which may since have been replaced in the mirror. */
  lemma ModalActionLeavesPending(m: seq<Booking>, b: Booking, status: string, now: int)
    requires HasId(m, b.id) && ModalOffersActions(b) && m[FindIndex(m, b.id)].status == "pending"
    requires status == "confirmed" || status == "cancelled"
    ensures PendingCount(ModalAction(m, b, status, now)) == PendingCount(m) - 1
    ensures !ModalOffersActions(ModalAction(m, b, status, now)[FindIndex(m, b.id)])
  {
    PendingAfterUpdate(m, b.id, status, now);
    UpdateOnlyTouchesTarget(m, b.id, status, now);
  }

  /** A modal opened on a pending booking is not redrawn when a replicated
      update changes that booking, so it still offers both actions. Using one
      then overwrites whatever status the mirror holds (a "confirmed" booking
      can be cancelled this way), and the pending count does not move. */
  lemma StaleModalAction(m: seq<Booking>, b: Booking, status: string, now: int)
    requires HasId(m, b.id) && ModalOffersActions(b) && m[FindIndex(m, b.id)].status != "pending"
    requires status == "confirmed" || status == "cancelled"
    ensures PendingCount(ModalAction(m, b, status, now)) == PendingCount(m)
    ensures ModalAction(m, b, status, now)[FindIndex(m, b.id)].status == status
  {
    PendingAfterUpdate(m, b.id, status, now);
    UpdateOnlyTouchesTarget(m, b.id, status, now);
  }
}
