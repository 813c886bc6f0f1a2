/** The outbound sender (email-sender.js): a lazily filled cache of transports
    keyed by provider name, and the two operations that use the default one.
    The transport library and the relay behind it are not modelled: creating a
    transport is allocating a `Transporter` that holds its options, and the
    relay's answer to a message is a function parameter. */
module Mailer {
  import opened Wrappers
  import Js

  /** The environment variables the transport options are read from. */
  datatype SenderEnv = SenderEnv(
    smtpHost: Option<string>,
    smtpPort: Option<string>,
    smtpUser: Option<string>,
    smtpPass: Option<string>)

  /** `process.env.SMTP_PORT || 587`: the configured text, or the number 587. */
  datatype Port = PortText(text: string) | PortNumber(number: nat)

  datatype Credentials = Credentials(user: string, pass: Option<string>)

  datatype TransportOptions = TransportOptions(
    host: string,
    port: Port,
    secure: bool,
    auth: Option<Credentials>)

  /** What `sendMail` is handed. */
  datatype MailOptions = MailOptions(
    from: string,
    to: string,
    subject: string,
    text: Option<string>,
    html: Option<string>)

  const DefaultProvider := "local"
  const DefaultHost := "localhost"
  const DefaultPort: nat := 587

  /** The options `getTransporter` builds from the environment on a cache miss:
      `auth` is present exactly when SMTP_USER is set and not empty. */
  function OptionsFrom(env: SenderEnv): (o: TransportOptions)
    ensures o.host != "" && !o.secure
    ensures Js.Truthy(env.smtpHost) ==> o.host == env.smtpHost.value
    ensures !Js.Truthy(env.smtpHost) ==> o.host == DefaultHost
    ensures Js.Truthy(env.smtpPort) ==> o.port == PortText(env.smtpPort.value)
    ensures !Js.Truthy(env.smtpPort) ==> o.port == PortNumber(DefaultPort)
    ensures o.auth.Some? <==> Js.Truthy(env.smtpUser)
    ensures o.auth.Some? ==> o.auth.value.user == env.smtpUser.value && o.auth.value.pass == env.smtpPass
  {
    TransportOptions(
      Js.Or(env.smtpHost, DefaultHost),
      if Js.Truthy(env.smtpPort) then PortText(env.smtpPort.value) else PortNumber(DefaultPort),
      false,
      if Js.Truthy(env.smtpUser) then Some(Credentials(env.smtpUser.value, env.smtpPass)) else None)
  }

  /** The message `sendEmail` hands to the transport: the HTML part is `html`
      when it is set and not empty, and otherwise the plain text. */
  function ComposeMail(from: string, to: string, subject: string, text: Option<string>, html: Option<string>)
    : (m: MailOptions)
    ensures m.from == from && m.to == to && m.subject == subject && m.text == text
    ensures Js.Truthy(html) ==> m.html == html
    ensures !Js.Truthy(html) ==> m.html == text
  {
    MailOptions(from, to, subject, text, if Js.Truthy(html) then html else text)
  }

  /** A transport created by the library. */
  class Transporter {
    const options: TransportOptions

    constructor (options: TransportOptions)
      ensures this.options == options
    {
      this.options := options;
    }
  }

  /** The `EmailSender` singleton. */
  class EmailSender {
    var transporters: map<string, Transporter>

    constructor ()
      ensures transporters == map[]
    {
      transporters := map[];
    }

    /** `getTransporter(provider)`: a cache hit returns the stored transport and
        changes nothing; a miss creates one transport from the environment,
        stores it under `provider` and returns it. */
    method GetTransporter(provider: string, env: SenderEnv) returns (t: Transporter)
      modifies this
      ensures provider in transporters && transporters[provider] == t
      ensures provider in old(transporters) ==> t == old(transporters)[provider] && transporters == old(transporters)
      ensures provider !in old(transporters) ==>
        fresh(t) && t.options == OptionsFrom(env) && transporters == old(transporters)[provider := t]
    {
      if provider in transporters {
        return transporters[provider];
      }
      t := new Transporter(OptionsFrom(env));
      transporters := transporters[provider := t];
    }

    /** `sendEmail`: sends the composed message over the default transport and
        returns the relay's answer, a failure included. */
    method SendEmail(from: string, to: string, subject: string, text: Option<string>, html: Option<string>,
                     env: SenderEnv, relay: (TransportOptions, MailOptions) -> Result<string, string>)
      returns (r: Result<string, string>)
      modifies this
      ensures DefaultProvider in transporters
      ensures DefaultProvider in old(transporters) ==> transporters == old(transporters)
      ensures DefaultProvider !in old(transporters) ==>
        transporters.Keys == old(transporters).Keys + {DefaultProvider}
        && transporters[DefaultProvider].options == OptionsFrom(env)
        && forall p :: p in old(transporters) ==> transporters[p] == old(transporters)[p]
      ensures r == relay(transporters[DefaultProvider].options, ComposeMail(from, to, subject, text, html))
    {
      var t := GetTransporter(DefaultProvider, env);
      r := relay(t.options, ComposeMail(from, to, subject, text, html));
    }

    /** `verifyTransporter`: true exactly when the default transport verifies. */
    method VerifyTransporter(env: SenderEnv, verify: TransportOptions -> Outcome<string>) returns (ok: bool)
      modifies this
      ensures DefaultProvider in transporters
      ensures DefaultProvider in old(transporters) ==> transporters == old(transporters)
      ensures DefaultProvider !in old(transporters) ==>
        transporters == old(transporters)[DefaultProvider := transporters[DefaultProvider]]
        && transporters[DefaultProvider].options == OptionsFrom(env)
      ensures ok <==> verify(transporters[DefaultProvider].options).Pass?
    {
      var t := GetTransporter(DefaultProvider, env);
      ok := verify(t.options).Pass?;
    }
  }

  /** Two requests for the same provider get the same transport, and only the
      first can add an entry to the cache. */
  method GetTransporterTwice(sender: EmailSender, provider: string, env1: SenderEnv, env2: SenderEnv)
    returns (t1: Transporter, t2: Transporter)
    modifies sender
    ensures t1 == t2
    ensures sender.transporters == old(sender.transporters)[provider := t1]
    ensures |sender.transporters| <= |old(sender.transporters)| + 1
  {
    t1 := sender.GetTransporter(provider, env1);
    t2 := sender.GetTransporter(provider, env2);
    if provider in old(sender.transporters) {
      assert sender.transporters == old(sender.transporters);
    } else {
      assert sender.transporters.Keys == old(sender.transporters).Keys + {provider};
    }
  }
}
