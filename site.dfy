/** The server's state and its request handlers: the lead store
  (`users.json` and `users.csv`), the events store (`events.json`), one
  browser session, and the handlers that read and rewrite them. */
module Site {
  import opened Js
  import opened Records
  import opened Csv
  import opened EventList
  import opened Gates

  /** A JSON collection file: not there, there but not a JSON array, or
    the array it holds. */
  datatype Stored<T> = Absent | Unparsable | Records(items: seq<T>)

  /** `readJsonDb` / `readEventsDb`: a parsed file reads as its own array; a
    missing or unparsable file reads as the empty collection. */
  function ReadCollection<T>(f: Stored<T>): (r: seq<T>)
    ensures f.Records? ==> r == f.items
    ensures !f.Records? ==> r == []
  {
    if f.Records? then f.items else []
  }

  /** The CSV log `lines` (one entry per appended row, the header first) is
    the header followed by one row per lead of `leads`, in the same order. */
  predicate LogMatches(leads: seq<Lead>, lines: seq<string>)
  {
    && |lines| == |leads| + 1
    && lines[0] == Header
    && forall i :: 0 <= i < |leads| ==> lines[i + 1] == LeadRow(leads[i])
  }

  /** In a matching log, entry `i + 1` (the row appended for lead `i`)
    decodes to the seven fields of lead `i`. */
  lemma MatchingLogDecodes(leads: seq<Lead>, lines: seq<string>, i: nat)
    requires LogMatches(leads, lines) && i < |leads|
    ensures DecodeRow(lines[i + 1]) == Some([leads[i].fullName, leads[i].email, leads[i].mobile,
      leads[i].college, leads[i].city, leads[i].state, leads[i].createdAt])
  {
    LeadRowRoundTrip(leads[i]);
  }

  /** A log matches at most one lead collection: the CSV file alone
    determines the JSON collection it is consistent with. */
  lemma MatchingLogDetermines(a: seq<Lead>, b: seq<Lead>, lines: seq<string>)
    requires LogMatches(a, lines) && LogMatches(b, lines)
    ensures a == b
  {
    forall i | 0 <= i < |a|
      ensures a[i] == b[i]
    {
      LeadRowInjective(a[i], b[i]);
    }
  }

  /** Appending a lead to the collection and its row to the log keeps them
    matching. */
  lemma AppendKeepsMatch(leads: seq<Lead>, lines: seq<string>, l: Lead)
    requires LogMatches(leads, lines)
    ensures LogMatches(leads + [l], lines + [LeadRow(l)])
  {
  }

  class Server {
    /** The admin credentials. `process.env` is read on every login, but
      nothing writes it after `dotenv` has loaded it, so the values are the
      same on every request and are fixed here when the server is built. */
    const admin: Credentials
    /** data/users.json */
    var users: Stored<Lead>
    /** data/users.csv, one entry per appended row (the header being the
      first); `None` when the file is absent. A row may hold line breaks
      inside its quoted cells, so an entry is not always one line of the file. */
    var usersCsv: Option<seq<string>>
    /** data/events.json */
    var events: Stored<Event>
    /** The session of the browser making the requests. */
    var session: Session

    /** The leads a handler reads. */
    function Leads(): seq<Lead>
      reads this
    {
      ReadCollection(users)
    }

    /** The events a handler reads. */
    function Events(): seq<Event>
      reads this
    {
      ReadCollection(events)
    }

    /** The appended rows of the CSV log (none when the file is absent). */
    function CsvLines(): seq<string>
      reads this
    {
      usersCsv.GetOr([])
    }

    /** The two lead stores agree: the log is the header followed by the
      row of each lead of the JSON collection, in the same order. */
    predicate LeadLogConsistent()
      reads this
    {
      users.Records? && usersCsv.Some? && LogMatches(users.items, usersCsv.value)
    }

    /** Every stored event has its required fields. */
    predicate EventsValid()
      reads this
    {
      forall e :: e in Events() ==> ValidEvent(e)
    }

    /** Server start: `ensureDataFiles` fills in whichever of the three files
      is absent (an empty collection, the header line, the seed event) and
      keeps the others as they are; the session starts with no flags. */
    constructor (envUser: Option<string>, envPass: Option<string>,
                 usersFile: Stored<Lead>, csvFile: Option<seq<string>>, eventsFile: Stored<Event>,
                 seedId: string, now: string)
      ensures admin == ConfiguredCredentials(envUser, envPass)
      ensures users == if usersFile.Absent? then Records([]) else usersFile
      ensures usersCsv == if csvFile.None? then Some([Header]) else csvFile
      ensures events == if eventsFile.Absent? then Records([SeedEvent(seedId, now)]) else eventsFile
      ensures session == NewSession
      ensures usersFile.Absent? && csvFile.None? ==> LeadLogConsistent()
      ensures eventsFile.Absent? ==> EventsValid()
    {
      admin := ConfiguredCredentials(envUser, envPass);
      users := if usersFile.Absent? then Records([]) else usersFile;
      usersCsv := if csvFile.None? then Some([Header]) else csvFile;
      events := if eventsFile.Absent? then Records([SeedEvent(seedId, now)]) else eventsFile;
      session := NewSession;
    }

    /** `appendToCsv`: one formatted row added at the end of the log. */
    method AppendToCsv(row: Lead)
      modifies this
      ensures usersCsv == Some(old(CsvLines()) + [LeadRow(row)])
      ensures users == old(users) && events == old(events) && session == old(session)
    {
      usersCsv := Some(CsvLines() + [LeadRow(row)]);
    }

    /** POST /ebook-access. */
    method SubmitLead(form: LeadForm, now: string) returns (resp: Response)
      modifies this
      ensures !LeadFormComplete(form) ==>
        resp == Page(400, "ebook-access", Some(LeadFieldsMissing)) && unchanged(this)
      ensures LeadFormComplete(form) ==>
        && users == Records(old(Leads()) + [NewLead(form, now)])
        && usersCsv == Some(old(CsvLines()) + [LeadRow(NewLead(form, now))])
        && events == old(events)
        && session == old(session).(canViewEbook := true)
        && resp == Redirect(EbookPath)
      ensures old(LeadLogConsistent()) ==> LeadLogConsistent()
    {
      if !LeadFormComplete(form) {
        return Page(400, "ebook-access", Some(LeadFieldsMissing));
      }
      var record := NewLead(form, now);
      var records := Leads();
      records := records + [record];
      users := Records(records);
      AppendToCsv(record);
      session := session.(canViewEbook := true);
      resp := Redirect(EbookPath);
    }

    /** POST /admin/login. */
    method Login(username: Option<string>, password: Option<string>) returns (resp: Response)
      modifies this
      ensures CredentialsMatch(admin, username, password) ==>
        && session == old(session).(isAdmin := true)
        && users == old(users) && usersCsv == old(usersCsv) && events == old(events)
        && resp == Redirect(AdminPath)
      ensures !CredentialsMatch(admin, username, password) ==>
        resp == Page(401, "admin-login", Some(InvalidCredentials)) && unchanged(this)
    {
      if CredentialsMatch(admin, username, password) {
        session := session.(isAdmin := true);
        return Redirect(AdminPath);
      }
      resp := Page(401, "admin-login", Some(InvalidCredentials));
    }

    /** GET /admin/logout. */
    method Logout() returns (resp: Response)
      modifies this
      ensures session == old(session).(isAdmin := false)
      ensures users == old(users) && usersCsv == old(usersCsv) && events == old(events)
      ensures resp == Redirect(LoginPath)
    {
      session := session.(isAdmin := false);
      resp := Redirect(LoginPath);
    }

    /** POST /admin/events/add, behind `requireAdmin`. */
    method AddEvent(form: EventForm, newId: string, now: string) returns (resp: Response)
      modifies this
      ensures !old(session.isAdmin) ==> resp == Redirect(LoginPath) && unchanged(this)
      ensures old(session.isAdmin) && !EventFormComplete(form) ==>
        resp == Json(400, Failure(EventFieldsMissing)) && unchanged(this)
      ensures old(session.isAdmin) && EventFormComplete(form) ==>
        && events == Records(old(Events()) + [NewEvent(form, newId, now)])
        && users == old(users) && usersCsv == old(usersCsv) && session == old(session)
        && resp == Json(200, Success(Some(NewEvent(form, newId, now))))
      ensures old(EventsValid()) ==> EventsValid()
    {
      var gate := RequireAdmin(session);
      if gate.Deny? {
        return gate.response;
      }
      if !EventFormComplete(form) {
        return Json(400, Failure(EventFieldsMissing));
      }
      var list := Events();
      var newEvent := NewEvent(form, newId, now);
      list := list + [newEvent];
      events := Records(list);
      resp := Json(200, Success(Some(newEvent)));
    }

    /** POST /admin/events/update/:id, behind `requireAdmin`. */
    method UpdateEvent(id: string, form: EventForm, now: string) returns (resp: Response)
      modifies this
      ensures !old(session.isAdmin) ==> resp == Redirect(LoginPath) && unchanged(this)
      ensures old(session.isAdmin) && FindIndex(old(Events()), id) == -1 ==>
        resp == Json(404, Failure(EventNotFound)) && unchanged(this)
      ensures old(session.isAdmin) && FindIndex(old(Events()), id) != -1 ==>
        var k := FindIndex(old(Events()), id);
        var updated := Merge(old(Events())[k], form, now);
        && events == Records(old(Events())[k := updated])
        && users == old(users) && usersCsv == old(usersCsv) && session == old(session)
        && resp == Json(200, Success(Some(updated)))
      ensures old(EventsValid()) ==> EventsValid()
    {
      var gate := RequireAdmin(session);
      if gate.Deny? {
        return gate.response;
      }
      var list := Events();
      var index := FindIndex(list, id);
      if index == -1 {
        return Json(404, Failure(EventNotFound));
      }
      list := list[index := Merge(list[index], form, now)];
      events := Records(list);
      resp := Json(200, Success(Some(list[index])));
    }

    /** POST /admin/events/delete/:id, behind `requireAdmin`. */
    method DeleteEvent(id: string) returns (resp: Response)
      modifies this
      ensures !old(session.isAdmin) ==> resp == Redirect(LoginPath) && unchanged(this)
      ensures old(session.isAdmin) && FindIndex(old(Events()), id) == -1 ==>
        resp == Json(404, Failure(EventNotFound)) && unchanged(this)
      ensures old(session.isAdmin) && FindIndex(old(Events()), id) != -1 ==>
        && events == Records(WithoutId(old(Events()), id))
        && |Events()| < |old(Events())|
        && users == old(users) && usersCsv == old(usersCsv) && session == old(session)
        && resp == Json(200, Success(None))
      ensures old(EventsValid()) ==> EventsValid()
    {
      var gate := RequireAdmin(session);
      if gate.Deny? {
        return gate.response;
      }
      var list := Events();
      var filtered := WithoutId(list, id);
      WithoutIdSameLength(list, id);
      if |filtered| == |list| {
        return Json(404, Failure(EventNotFound));
      }
      events := Records(filtered);
      resp := Json(200, Success(None));
      forall e | e in filtered
        ensures e in list
      {
        WithoutIdMembers(list, id, e);
      }
    }
  }
}
