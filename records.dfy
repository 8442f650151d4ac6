/** The two kinds of record the site stores, the request bodies that
  create and change them, and how a record is built from a body. */
module Records {
  import opened Js

  /** A captured lead, as written to `users.json` and `users.csv`. */
  datatype Lead = Lead(
    fullName: string,
    email: string,
    mobile: string,
    college: string,
    city: string,
    state: string,
    createdAt: string)

  /** The body of POST /ebook-access. */
  datatype LeadForm = LeadForm(
    fullName: Option<string>,
    email: Option<string>,
    mobile: Option<string>,
    college: Option<string>,
    city: Option<string>,
    state: Option<string>)

  /** The required-field test `!fullName || !email || !mobile`, negated. */
  predicate LeadFormComplete(f: LeadForm)
  {
    Truthy(f.fullName) && Truthy(f.email) && Truthy(f.mobile)
  }

  /** A lead whose required fields are non-empty. */
  predicate ValidLead(l: Lead)
  {
    l.fullName != "" && l.email != "" && l.mobile != ""
  }

  /** The record a complete submission becomes, stamped `now`. */
  function NewLead(f: LeadForm, now: string): (l: Lead)
    requires LeadFormComplete(f)
    ensures ValidLead(l)
    ensures l.fullName == f.fullName.value && l.email == f.email.value && l.mobile == f.mobile.value
    ensures Truthy(f.college) ==> l.college == f.college.value
    ensures Truthy(f.city) ==> l.city == f.city.value
    ensures Truthy(f.state) ==> l.state == f.state.value
    ensures !Truthy(f.college) ==> l.college == ""
    ensures !Truthy(f.city) ==> l.city == ""
    ensures !Truthy(f.state) ==> l.state == ""
    ensures l.createdAt == now
  {
    Lead(f.fullName.value, f.email.value, f.mobile.value,
         Or(f.college, ""), Or(f.city, ""), Or(f.state, ""), now)
  }

  /** An event, as stored in `events.json`; `updatedAt` is absent until the
    first update. */
  datatype Event = Event(
    id: string,
    title: string,
    description: string,
    date: string,
    venue: string,
    speaker: string,
    createdAt: string,
    updatedAt: Option<string>)

  /** The body of POST /admin/events/add and /admin/events/update/:id. */
  datatype EventForm = EventForm(
    title: Option<string>,
    description: Option<string>,
    date: Option<string>,
    venue: Option<string>,
    speaker: Option<string>)

  /** The required-field test `!title || !date || !venue`, negated. */
  predicate EventFormComplete(f: EventForm)
  {
    Truthy(f.title) && Truthy(f.date) && Truthy(f.venue)
  }

  /** An event whose required fields are non-empty. */
  predicate ValidEvent(e: Event)
  {
    e.title != "" && e.date != "" && e.venue != ""
  }

  /** The event a complete add request becomes, with the id and timestamp
    the clock supplies. */
  function NewEvent(f: EventForm, id: string, now: string): (e: Event)
    requires EventFormComplete(f)
    ensures ValidEvent(e)
    ensures e.id == id && e.createdAt == now && e.updatedAt == None
    ensures e.title == f.title.value && e.date == f.date.value && e.venue == f.venue.value
    ensures Truthy(f.description) ==> e.description == f.description.value
    ensures Truthy(f.speaker) ==> e.speaker == f.speaker.value
    ensures !Truthy(f.description) ==> e.description == ""
    ensures !Truthy(f.speaker) ==> e.speaker == ""
  {
    Event(id, f.title.value, Or(f.description, ""), f.date.value, f.venue.value,
          Or(f.speaker, ""), now, None)
  }

  const SeedTitle: string := "Emergency Management In Ayurveda"
  const SeedDescription: string :=
    "Join us for an exclusive offline seminar in Bhopal designed for Ayurveda students and practitioners. "
    + "Learn how to effectively bridge classical Ayurvedic wisdom with modern medical tools and diagnostic techniques."
  const SeedDate: string := "9th November 2025"
  const SeedVenue: string := "Vigyan Bhawan, MPCST"
  const SeedSpeaker: string := "Dr. Anuj Jain"

  /** The single event a fresh events store is seeded with. */
  function SeedEvent(id: string, now: string): (e: Event)
    ensures ValidEvent(e)
    ensures e.id == id && e.createdAt == now && e.updatedAt == None
  {
    Event(id, SeedTitle, SeedDescription, SeedDate, SeedVenue, SeedSpeaker, now, None)
  }

  /** The record an update request leaves at the matched index: the old
    record spread, then title, date and venue replaced only by a truthy
    input, description and speaker replaced by any input that is not
    `undefined` (so `''` clears them), and `updatedAt` stamped. */
  function Merge(e: Event, f: EventForm, now: string): (r: Event)
    ensures r.id == e.id && r.createdAt == e.createdAt && r.updatedAt == Some(now)
    ensures r.title == (if Truthy(f.title) then f.title.value else e.title)
    ensures r.date == (if Truthy(f.date) then f.date.value else e.date)
    ensures r.venue == (if Truthy(f.venue) then f.venue.value else e.venue)
    ensures r.description == f.description.GetOr(e.description)
    ensures r.speaker == f.speaker.GetOr(e.speaker)
    ensures ValidEvent(e) ==> ValidEvent(r)
  {
    e.(title := Or(f.title, e.title),
       description := if f.description != None then f.description.value else e.description,
       date := Or(f.date, e.date),
       venue := Or(f.venue, e.venue),
       speaker := if f.speaker != None then f.speaker.value else e.speaker,
       updatedAt := Some(now))
  }

  /** Re-sending the same update body changes nothing more. */
  lemma MergeIdempotent(e: Event, f: EventForm, now: string)
    ensures Merge(Merge(e, f, now), f, now) == Merge(e, f, now)
  {
  }

  /** An update whose body is empty only stamps `updatedAt`. */
  lemma MergeEmptyBody(e: Event, now: string)
    ensures Merge(e, EventForm(None, None, None, None, None), now) == e.(updatedAt := Some(now))
  {
  }
}
