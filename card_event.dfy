/** The event card: its prop defaults, the fully-booked test and the choice of footer button. */
module CardEvent {
  import opened Common

  /** The card's props; optional ones are `None` when the caller leaves them out. */
  datatype EventCardProps = EventCardProps(
    id: string,
    title: string,
    date: string,
    time: string,
    location: string,
    description: string,
    category: Option<string>,
    attendees: Option<int>,
    maxAttendees: Option<int>,
    thumbnailUrl: Option<string>,
    isRegistered: Option<bool>)

  /** `attendees` after its default of 0 is applied. */
  function Attendees(p: EventCardProps): (n: int)
    ensures p.attendees.None? ==> n == 0
    ensures p.attendees.Some? ==> n == p.attendees.value
  {
    match p.attendees
    case None => 0
    case Some(n) => n
  }

  /** `isRegistered` after its default of false is applied. */
  function IsRegistered(p: EventCardProps): (b: bool)
    ensures b <==> p.isRegistered == Some(true)
  {
    match p.isRegistered
    case None => false
    case Some(b) => b
  }

  /** `isFullyBooked`: a capacity is given and the attendees have reached it. An event without a
      capacity is never full; one whose attendee count is left out is full only at a capacity of 0 or
      below. */
  function IsFullyBooked(p: EventCardProps): (b: bool)
    ensures p.maxAttendees.None? ==> !b
    ensures p.attendees.None? ==> (b <==> p.maxAttendees.Some? && p.maxAttendees.value <= 0)
    ensures p.maxAttendees.Some? ==> (b <==> Attendees(p) >= p.maxAttendees.value)
  {
    p.maxAttendees.Some? && Attendees(p) >= p.maxAttendees.value
  }

  /** The attendee-count line is rendered only when `maxAttendees` is truthy (given and not 0). */
  function ShowsAttendeeCount(p: EventCardProps): (b: bool)
    ensures b ==> p.maxAttendees.Some?
    ensures p.maxAttendees == Some(0) ==> !b
    ensures p.maxAttendees.Some? && p.maxAttendees.value != 0 ==> b
  {
    p.maxAttendees.Some? && p.maxAttendees.value != 0
  }

  /** The footer: a "View Details" link, a disabled "Fully Booked" button, or a "Register Now" link. */
  datatype FooterButton = ViewDetails(link: string) | FullyBooked | RegisterNow(link: string)

  /** A registered event always offers "View Details", even when it is full; an unregistered full
      event offers the disabled "Fully Booked" button; any other event links to its registration page. */
  function Footer(p: EventCardProps): (b: FooterButton)
    ensures b.ViewDetails? <==> IsRegistered(p)
    ensures b.FullyBooked? <==> !IsRegistered(p) && IsFullyBooked(p)
    ensures b.RegisterNow? <==> !IsRegistered(p) && !IsFullyBooked(p)
    ensures b.ViewDetails? ==> b.link == "/events/" + p.id
    ensures b.RegisterNow? ==> b.link == "/events/" + p.id + "/register"
  {
    if IsRegistered(p) then ViewDetails("/events/" + p.id)
    else if IsFullyBooked(p) then FullyBooked
    else RegisterNow("/events/" + p.id + "/register")
  }

  /** A capacity of 0 hides the attendee-count line, yet the card counts the event as fully booked. */
  lemma ZeroCapacityIsBookedButUncounted(p: EventCardProps)
    requires p.maxAttendees == Some(0) && Attendees(p) >= 0
    ensures IsFullyBooked(p) && !ShowsAttendeeCount(p)
  {
  }
}
