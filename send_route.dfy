/** The `/send` handler (api-routes.js): validate the request, resolve the
    caller, hand the message to the relay, and then record either a `sent`
    email or, when the relay or that record fails, a draft. The identity
    provider's answer, the relay's answer, the new ids, the store's timestamp
    and the store's faults are all parameters. */
module SendRoute {
  import opened Wrappers
  import Js
  import Store
  import Mailer

  /** The user the identity provider resolves from the request's token. */
  datatype User = User(id: string, email: string)

  /** The JSON body of the request. */
  datatype SendRequest = SendRequest(
    userId: Option<string>,
    to: Option<string>,
    subject: Option<string>,
    body: Option<string>,
    html: Option<string>)

  /** 400, 401, 200 with the email id, 500 with the draft id, 500 with the error. */
  datatype SendResponse =
    | MissingFields
    | Unauthorized
    | Sent(emailId: string)
    | SavedAsDraft(draftId: string)
    | ServerError(message: string)

  /** The errors the two possible store writes report, if any. */
  datatype StoreFaults = StoreFaults(saveEmail: Option<string>, saveDraft: Option<string>)

  /** `userId`, `to` and `subject` are all present and not empty. */
  predicate Complete(req: SendRequest) {
    Js.Truthy(req.userId) && Js.Truthy(req.to) && Js.Truthy(req.subject)
  }

  /** The request goes as far as the relay: it is complete and the caller resolved to a user. */
  predicate Attempted(req: SendRequest, user: Result<Option<User>, string>) {
    Complete(req) && user.Success? && user.value.Some?
  }

  /** The row a successful send records. */
  function SentRow(req: SendRequest, u: User, emailId: string, now: int): Store.EmailRow
    requires Complete(req)
  {
    Store.EmailRow(emailId, req.userId.value, u.email, req.to.value, req.subject.value,
                   req.body, req.html, Store.Sent, false, now)
  }

  /** The row a deferred send records: no HTML part. */
  function DeferredDraft(req: SendRequest, draftId: string, now: int): Store.DraftRow
    requires Complete(req)
  {
    Store.DraftRow(draftId, req.userId.value, req.to, req.subject, req.body, now)
  }

  /** The `/send` handler. `relay` answers for the transport the sender uses. */
  method Send(db: Store.Database, sender: Mailer.EmailSender, req: SendRequest, user: Result<Option<User>, string>,
              env: Mailer.SenderEnv, relay: (Mailer.TransportOptions, Mailer.MailOptions) -> Result<string, string>,
              emailId: string, draftId: string, now: int, faults: StoreFaults)
    returns (r: SendResponse)
    modifies db, sender
    ensures db.domains == old(db.domains)
    ensures r.MissingFields? <==> !Complete(req)
    ensures r.Unauthorized? <==> Complete(req) && user == Success(None)
    ensures Complete(req) && user.Failure? ==> r == ServerError(user.error)
    ensures !Attempted(req, user) ==>
      db.emails == old(db.emails) && db.drafts == old(db.drafts) && sender.transporters == old(sender.transporters)
    ensures Attempted(req, user) ==> Mailer.DefaultProvider in sender.transporters
    // The relay path reuses a cached default transport, or adds exactly that one entry.
    ensures Attempted(req, user) && Mailer.DefaultProvider in old(sender.transporters) ==>
      sender.transporters == old(sender.transporters)
    ensures Attempted(req, user) && Mailer.DefaultProvider !in old(sender.transporters) ==>
      sender.transporters == old(sender.transporters)[Mailer.DefaultProvider := sender.transporters[Mailer.DefaultProvider]]
      && sender.transporters[Mailer.DefaultProvider].options == Mailer.OptionsFrom(env)
    ensures Attempted(req, user) ==> (
      var u := user.value.value;
      var relayed := relay(sender.transporters[Mailer.DefaultProvider].options,
                           Mailer.ComposeMail(u.email, req.to.value, req.subject.value, req.body, req.html));
      && (r.Sent? <==> relayed.Success? && faults.saveEmail.None?)
      && (r.Sent? ==> r.emailId == emailId
                      && db.emails == old(db.emails) + [SentRow(req, u, emailId, now)]
                      && db.drafts == old(db.drafts))
      && (!r.Sent? ==> db.emails == old(db.emails))
      && (r.SavedAsDraft? <==> !r.Sent? && faults.saveDraft.None?)
      && (r.SavedAsDraft? ==> r.draftId == draftId && db.drafts == old(db.drafts) + [DeferredDraft(req, draftId, now)])
      && (!r.Sent? && !r.SavedAsDraft? ==> r == ServerError(faults.saveDraft.value) && db.drafts == old(db.drafts)))
    // Exactly one artifact (a sent email or a draft) per send that reaches the relay, unless the draft write fails.
    ensures |db.emails| + |db.drafts| == |old(db.emails)| + |old(db.drafts)| + (if r.Sent? || r.SavedAsDraft? then 1 else 0)
    ensures Attempted(req, user) && faults.saveDraft.None? ==> r.Sent? || r.SavedAsDraft?
  {
    if !Js.Truthy(req.userId) || !Js.Truthy(req.to) || !Js.Truthy(req.subject) {
      return MissingFields;
    }
    if user.Failure? {
      return ServerError(user.error);
    }
    if user.value.None? {
      return Unauthorized;
    }
    var u := user.value.value;

    var relayed := sender.SendEmail(u.email, req.to.value, req.subject.value, req.body, req.html, env, relay);
    if relayed.Success? {
      var saved := db.SaveEmail(emailId, req.userId.value, u.email, req.to.value, req.subject.value,
                                req.body, req.html, Store.Sent, now, faults.saveEmail);
      if saved.Pass? {
        return Sent(emailId);
      }
    }
    // The relay or the sent-email record failed: keep the message as a draft.
    var drafted := db.SaveDraft(draftId, req.userId.value, req.to, req.subject, req.body,
                                now, faults.saveDraft);
    if drafted.Pass? {
      r := SavedAsDraft(draftId);
    } else {
      r := ServerError(drafted.error);
    }
  }
}
