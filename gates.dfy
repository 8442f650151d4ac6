/** Responses, the per-browser session, and the two gates that read it:
  the eBook gate (`canViewEbook`) and the admin gate (`isAdmin`). */
module Gates {
  import opened Js
  import opened Records

  /** The JSON body of an admin event request's reply. */
  datatype Reply = Success(event: Option<Event>) | Failure(error: string)

  /** What a handler sends back: a rendered view with a status and an
    optional error message, a redirect, or a JSON reply with a status. */
  datatype Response =
    | Page(status: nat, view: string, error: Option<string>)
    | Redirect(location: string)
    | Json(status: nat, reply: Reply)

  const EbookPath: string := "/ebook"
  const EbookAccessPath: string := "/ebook-access"
  const AdminPath: string := "/admin"
  const LoginPath: string := "/admin/login"

  const LeadFieldsMissing: string := "Please fill required fields."
  const InvalidCredentials: string := "Invalid credentials"
  const EventFieldsMissing: string := "Title, date, and venue are required"
  const EventNotFound: string := "Event not found"

  /** The two flags a browser session carries; both start unset (falsy). */
  datatype Session = Session(canViewEbook: bool, isAdmin: bool)

  const NewSession: Session := Session(false, false)

  /** GET /ebook: the eBook for a session that submitted a lead, otherwise
    back to the form. */
  function EbookPage(s: Session): (r: Response)
    ensures r.Page? <==> s.canViewEbook
    ensures r.Page? ==> r.status == 200 && r.view == "ebook"
    ensures r.Redirect? ==> r.location == EbookAccessPath
  {
    if !s.canViewEbook then Redirect(EbookAccessPath) else Page(200, "ebook", None)
  }

  /** The outcome of `requireAdmin`: pass the request on, or answer it. */
  datatype Gate = Next | Deny(response: Response)

  /** `requireAdmin`: only an admin session reaches the handler; any other
    is redirected to the login page. */
  function RequireAdmin(s: Session): (g: Gate)
    ensures g.Next? <==> s.isAdmin
    ensures g.Deny? ==> g.response == Redirect(LoginPath)
  {
    if s.isAdmin then Next else Deny(Redirect(LoginPath))
  }

  /** The admin credentials as a login compares them. */
  datatype Credentials = Credentials(user: string, pass: string)

  /** `process.env.ADMIN_USER || 'admin'` and `process.env.ADMIN_PASS ||
    'password'`: an unset or empty variable gives the default, so neither
    credential is ever empty. */
  function ConfiguredCredentials(envUser: Option<string>, envPass: Option<string>): (c: Credentials)
    ensures c.user != "" && c.pass != ""
    ensures !Truthy(envUser) ==> c.user == "admin"
    ensures !Truthy(envPass) ==> c.pass == "password"
    ensures Truthy(envUser) ==> c.user == envUser.value
    ensures Truthy(envPass) ==> c.pass == envPass.value
  {
    Credentials(Or(envUser, "admin"), Or(envPass, "password"))
  }

  /** The login test: both submitted fields strictly equal to the
    configured values. */
  predicate CredentialsMatch(c: Credentials, username: Option<string>, password: Option<string>)
  {
    username == Some(c.user) && password == Some(c.pass)
  }

  /** A login with a missing or empty username or password never succeeds. */
  lemma FalsyCredentialsRejected(envUser: Option<string>, envPass: Option<string>,
                                 username: Option<string>, password: Option<string>)
    requires !Truthy(username) || !Truthy(password)
    ensures !CredentialsMatch(ConfiguredCredentials(envUser, envPass), username, password)
  {
  }
}
