/** Inbound mail (smtp-server.js): the session hooks the SMTP server is
    configured with, and the `onData` hook that turns one received message into
    at most one stored `received` email. The protocol engine and the MIME parser
    are not modelled: the hook receives the parser's result and the envelope the
    engine collected. The account lookup is a function parameter; `db.js` has no
    `getAccount`, and `OnDataAsWritten` shows what the hook does with that call. */
module Inbound {
  import opened Wrappers
  import Js
  import Store

  /** What the parser extracted; absent or `false` parts are `None`. */
  datatype ParsedMail = ParsedMail(
    subject: Option<string>,
    text: Option<string>,
    html: Option<string>,
    fromText: Option<string>)

  /** The SMTP envelope: the MAIL FROM address, if any, and the RCPT TO addresses in order. */
  datatype Envelope = Envelope(mailFrom: Option<string>, rcptTo: seq<string>)

  datatype Account = Account(id: string)

  /** The values `onData` stores. */
  datatype Fields = Fields(toEmail: string, subject: string, text: string, html: string, fromEmail: string)

  datatype SessionEvent =
    | Connect(remoteAddress: string)
    | Auth(username: string, password: string)
    | MailFrom(address: string)
    | RcptTo(address: string)

  /** The answer of a hook: accept, with the authenticated user for AUTH, or reject with a message. */
  datatype Reply = Accept(user: Option<string>) | Reject(message: string)

  const NoSubject := "(no subject)"
  const UnknownSender := "unknown"
  const ParseFailure := "Failed to parse email"

  /** `onConnect`, `onAuth`, `onMailFrom` and `onRcptTo`: every event is accepted,
      and any credentials authenticate as the user they name. */
  function OnSessionEvent(event: SessionEvent): (reply: Reply)
    ensures reply.Accept?
    ensures event.Auth? ==> reply.user == Some(event.username)
    ensures !event.Auth? ==> reply.user == None
  {
    match event
    case Auth(username, _) => Accept(Some(username))
    case _ => Accept(None)
  }

  /** The fields `onData` derives from the parsed message and the envelope. */
  function Extract(parsed: ParsedMail, envelope: Envelope): (f: Fields)
    ensures envelope.rcptTo == [] ==> f.toEmail == ""
    ensures envelope.rcptTo != [] ==> f.toEmail == envelope.rcptTo[0]
    ensures Js.Truthy(parsed.subject) ==> f.subject == parsed.subject.value
    ensures !Js.Truthy(parsed.subject) ==> f.subject == NoSubject
    ensures f.text == (if parsed.text.Some? then parsed.text.value else "")
    ensures f.html == (if parsed.html.Some? then parsed.html.value else "")
    ensures Js.Truthy(envelope.mailFrom) ==> f.fromEmail == envelope.mailFrom.value
    ensures !Js.Truthy(envelope.mailFrom) && Js.Truthy(parsed.fromText) ==> f.fromEmail == parsed.fromText.value
    ensures !Js.Truthy(envelope.mailFrom) && !Js.Truthy(parsed.fromText) ==> f.fromEmail == UnknownSender
    ensures f.subject != "" && f.fromEmail != ""
  {
    Fields(
      if envelope.rcptTo == [] then "" else Js.Or(Some(envelope.rcptTo[0]), ""),
      Js.Or(parsed.subject, NoSubject),
      Js.Or(parsed.text, ""),
      Js.Or(parsed.html, ""),
      if Js.Truthy(envelope.mailFrom) then envelope.mailFrom.value else Js.Or(parsed.fromText, UnknownSender))
  }

  /** Only the first recipient is routed: what follows it in the envelope changes nothing. */
  lemma OnlyFirstRecipientRouted(parsed: ParsedMail, mailFrom: Option<string>, first: string,
                                 rest1: seq<string>, rest2: seq<string>)
    ensures Extract(parsed, Envelope(mailFrom, [first] + rest1)) == Extract(parsed, Envelope(mailFrom, [first] + rest2))
    ensures Extract(parsed, Envelope(mailFrom, [first] + rest1)).toEmail == first
  {
  }

  /** The email row `onData` stores for an account. */
  function ReceivedRow(f: Fields, account: Account, emailId: string, now: int): Store.EmailRow {
    Store.EmailRow(emailId, account.id, f.fromEmail, f.toEmail, f.subject, Some(f.text), Some(f.html),
                   Store.Received, false, now)
  }

  /** `onData`: parse, route to the first recipient's account, store one
      `received` email when there is an account; every failure rejects the
      transaction with the same message. */
  method OnData(db: Store.Database, parsed: Result<ParsedMail, string>, envelope: Envelope,
                findAccount: string -> Result<Option<Account>, string>,
                emailId: string, now: int, fault: Option<string>)
    returns (reply: Reply)
    modifies db
    ensures db.drafts == old(db.drafts) && db.domains == old(db.domains)
    ensures parsed.Failure? ==> reply == Reject(ParseFailure) && db.emails == old(db.emails)
    ensures parsed.Success? ==> (
      var f := Extract(parsed.value, envelope);
      var account := findAccount(f.toEmail);
      && (account.Failure? ==> reply == Reject(ParseFailure) && db.emails == old(db.emails))
      && (account == Success(None) ==> reply == Accept(None) && db.emails == old(db.emails))
      && (account.Success? && account.value.Some? && fault.None? ==>
            reply == Accept(None) && db.emails == old(db.emails) + [ReceivedRow(f, account.value.value, emailId, now)])
      && (account.Success? && account.value.Some? && fault.Some? ==>
            reply == Reject(ParseFailure) && db.emails == old(db.emails)))
    ensures reply.Accept? ==> reply.user == None
    ensures |db.emails| <= |old(db.emails)| + 1
  {
    if parsed.Failure? {
      return Reject(ParseFailure);
    }
    var f := Extract(parsed.value, envelope);
    var account := findAccount(f.toEmail);
    if account.Failure? {
      return Reject(ParseFailure);
    }
    if account.value.Some? {
      var saved := db.SaveEmail(emailId, account.value.value.id, f.fromEmail, f.toEmail, f.subject,
                                Some(f.text), Some(f.html), Store.Received, now, fault);
      if saved.Fail? {
        return Reject(ParseFailure);
      }
    }
    reply := Accept(None);
  }

  /** The `db.getAccount` the hook calls: the database object has no such
      method, so the call throws a TypeError. */
  function MissingGetAccount(address: string): Result<Option<Account>, string> {
    Failure("db.getAccount is not a function")
  }

  /** `onData` as written: whatever arrives, the transaction is rejected and nothing is stored. */
  method OnDataAsWritten(db: Store.Database, parsed: Result<ParsedMail, string>, envelope: Envelope,
                         emailId: string, now: int, fault: Option<string>)
    returns (reply: Reply)
    modifies db
    ensures reply == Reject(ParseFailure)
    ensures db.emails == old(db.emails) && db.drafts == old(db.drafts) && db.domains == old(db.domains)
  {
    reply := OnData(db, parsed, envelope, MissingGetAccount, emailId, now, fault);
  }
}
