/** The campus events listing: the search / category / view filter. */
module Events {
  import opened Common
  import Seqs
  import Text
  import CardEvent

  /** An event of the listing; the listing hands each one to the event card unchanged. */
  datatype EventItem = EventItem(
    id: string,
    title: string,
    date: string,
    time: string,
    location: string,
    description: string,
    category: string,
    attendees: int,
    maxAttendees: Option<int>,
    thumbnailUrl: Option<string>,
    isRegistered: Option<bool>)

  /** `event.isRegistered` is truthy. */
  predicate Registered(e: EventItem)
  {
    e.isRegistered == Some(true)
  }

  /** `attendees < (maxAttendees || Infinity)`: an absent or zero capacity is unbounded. */
  predicate HasRoom(e: EventItem)
  {
    match e.maxAttendees
    case None => true
    case Some(m) => m == 0 || e.attendees < m
  }

  /** Only the title and the description are searched, case-insensitively. */
  predicate MatchesSearch(e: EventItem, searchTerm: string)
  {
    var q := Text.Lower(searchTerm);
    Text.Contains(Text.Lower(e.title), q) || Text.Contains(Text.Lower(e.description), q)
  }

  predicate MatchesCategory(e: EventItem, selectedCategory: string)
  {
    selectedCategory == "All Categories" || e.category == selectedCategory
  }

  /** The view tab: "all", "registered" or "available"; any other value admits no event. */
  predicate MatchesView(e: EventItem, eventView: string)
  {
    eventView == "all"
    || (eventView == "registered" && Registered(e))
    || (eventView == "available" && !Registered(e) && HasRoom(e))
  }

  predicate EventMatches(e: EventItem, searchTerm: string, selectedCategory: string, eventView: string)
  {
    MatchesSearch(e, searchTerm) && MatchesCategory(e, selectedCategory) && MatchesView(e, eventView)
  }

  /** `filteredEvents`: exactly the events that pass the search, category and view tests, in list order. */
  function FilteredEvents(events: seq<EventItem>, searchTerm: string, selectedCategory: string, eventView: string)
    : (r: seq<EventItem>)
    ensures Seqs.IsSubsequence(r, events)
    ensures forall x :: multiset(r)[x]
                        == if EventMatches(x, searchTerm, selectedCategory, eventView) then multiset(events)[x] else 0
  {
    var p := (x: EventItem) => EventMatches(x, searchTerm, selectedCategory, eventView);
    Seqs.FilterSelects(p, events);
    Seqs.Filter(p, events)
  }

  /** The search looks at nothing but the title and the description. */
  lemma SearchSeesTitleAndDescriptionOnly(a: EventItem, b: EventItem, searchTerm: string)
    requires a.title == b.title && a.description == b.description
    ensures MatchesSearch(a, searchTerm) == MatchesSearch(b, searchTerm)
  {
  }

  /** No event is listed under both "registered" and "available". */
  lemma RegisteredAndAvailableDisjoint(events: seq<EventItem>, searchTerm: string, selectedCategory: string)
    ensures multiset(FilteredEvents(events, searchTerm, selectedCategory, "registered"))
            * multiset(FilteredEvents(events, searchTerm, selectedCategory, "available")) == multiset{}
  {
    var reg := FilteredEvents(events, searchTerm, selectedCategory, "registered");
    var avail := FilteredEvents(events, searchTerm, selectedCategory, "available");
    forall x ensures (multiset(reg) * multiset(avail))[x] == multiset{}[x] {
      assert EventMatches(x, searchTerm, selectedCategory, "registered") ==> Registered(x);
      assert EventMatches(x, searchTerm, selectedCategory, "available") ==> !Registered(x);
    }
    assert multiset(reg) * multiset(avail) == multiset{};
  }

  /** With no search term, "All Categories" and "all", the listing shows every event in order. */
  lemma UnfilteredListingIsEverything(events: seq<EventItem>)
    ensures FilteredEvents(events, "", "All Categories", "all") == events
  {
    forall i | 0 <= i < |events| ensures EventMatches(events[i], "", "All Categories", "all") {
      Text.ContainsEmpty(Text.Lower(events[i].title));
    }
    Seqs.FilterKeepsAll((x: EventItem) => EventMatches(x, "", "All Categories", "all"), events);
  }

  /** `<EventCard {...event} />`: the card receives the event's fields as its props. */
  function CardProps(e: EventItem): CardEvent.EventCardProps
  {
    CardEvent.EventCardProps(e.id, e.title, e.date, e.time, e.location, e.description,
                             Some(e.category), Some(e.attendees), e.maxAttendees, e.thumbnailUrl, e.isRegistered)
  }

  /** With a positive capacity the listing and the card agree: an unregistered event is listed as
      "available" exactly when its card offers "Register Now". */
  lemma AvailableMeansRegisterNow(e: EventItem)
    requires e.maxAttendees.Some? ==> e.maxAttendees.value > 0
    requires !Registered(e)
    ensures MatchesView(e, "available") <==> CardEvent.Footer(CardProps(e)).RegisterNow?
  {
  }

  /** With a capacity of 0 they disagree: the listing counts the event as available (unbounded) while
      its card shows the disabled "Fully Booked" button. */
  lemma ZeroCapacityAvailableButFullyBooked(e: EventItem)
    requires e.maxAttendees == Some(0) && !Registered(e) && e.attendees >= 0
    ensures MatchesView(e, "available")
    ensures CardEvent.Footer(CardProps(e)) == CardEvent.FullyBooked
  {
  }
}
