/** The decision logic of the web server (server.js): the `/api/check-dns`
    handler that runs four independent DNS lookups, the DNS settings handed to
    the app pages, and the responses of forwarding-rule and mailbox creation.
    Environment variables are `Option<string>` values; `Date.now()` and
    `new Date()` are parameters. */
module Server {
  import opened Wrappers
  import Js
  import opened Dns

  // ---------------------------------------------------------------- settings

  /** The environment variables `getDnsConfig` reads. */
  datatype Env = Env(
    supabaseUrl: Option<string>,
    supabaseAnonKey: Option<string>,
    mailServerHost: Option<string>,
    mailServerIp: Option<string>,
    spfRecord: Option<string>,
    dkimSelector: Option<string>,
    dkimPublicKey: Option<string>,
    dmarcRecord: Option<string>,
    mxPriority: Option<string>)

  datatype DnsConfig = DnsConfig(
    supabaseUrl: string,
    supabaseAnonKey: string,
    mailServerHost: string,
    mailServerIp: string,
    spfRecord: string,
    dkimSelector: string,
    dkimPublicKey: string,
    dmarcRecord: string,
    mxPriority: string)

  const DefaultMailServerHost := "mail.example.com"
  const DefaultMailServerIp := "192.0.2.1"
  const DefaultSpfRecord := "v=spf1 -all"
  const DefaultDkimSelector := "default"
  const DefaultMxPriority := "10"

  /** `value` is the variable's text when it is set and not empty, and `fallback` otherwise. */
  predicate Setting(value: string, variable: Option<string>, fallback: string) {
    (Js.Truthy(variable) ==> value == variable.value) && (!Js.Truthy(variable) ==> value == fallback)
  }

  /** `getDnsConfig()`. */
  function GetDnsConfig(env: Env): (c: DnsConfig)
    ensures Setting(c.supabaseUrl, env.supabaseUrl, "")
    ensures Setting(c.supabaseAnonKey, env.supabaseAnonKey, "")
    ensures Setting(c.mailServerHost, env.mailServerHost, DefaultMailServerHost)
    ensures Setting(c.mailServerIp, env.mailServerIp, DefaultMailServerIp)
    ensures Setting(c.spfRecord, env.spfRecord, DefaultSpfRecord)
    ensures Setting(c.dkimSelector, env.dkimSelector, DefaultDkimSelector)
    ensures Setting(c.dkimPublicKey, env.dkimPublicKey, "")
    ensures Setting(c.dmarcRecord, env.dmarcRecord, "")
    ensures Setting(c.mxPriority, env.mxPriority, DefaultMxPriority)
    ensures c.mailServerHost != "" && c.mailServerIp != "" && c.spfRecord != ""
    ensures c.dkimSelector != "" && c.mxPriority != ""
  {
    DnsConfig(
      Js.Or(env.supabaseUrl, ""),
      Js.Or(env.supabaseAnonKey, ""),
      Js.Or(env.mailServerHost, DefaultMailServerHost),
      Js.Or(env.mailServerIp, DefaultMailServerIp),
      Js.Or(env.spfRecord, DefaultSpfRecord),
      Js.Or(env.dkimSelector, DefaultDkimSelector),
      Js.Or(env.dkimPublicKey, ""),
      Js.Or(env.dmarcRecord, ""),
      Js.Or(env.mxPriority, DefaultMxPriority))
  }

  // --------------------------------------------------------------- check-dns

  /** A result field: the records, or `{ error: message }`. */
  datatype Answer<T> = Records(records: T) | LookupError(message: string)

  datatype DnsResults = DnsResults(
    mx: Answer<seq<MxRecord>>,
    txt: Answer<seq<string>>,
    dmarc: Answer<seq<string>>,
    dkim: Answer<seq<string>>)

  datatype CheckDnsResponse = DomainQueryRequired | Resolved(results: DnsResults)

  /** `txt.map(r => r.join(''))`: every record's segments joined, nothing filtered out. */
  function JoinAll(records: seq<seq<string>>): (r: seq<string>)
    ensures |r| == |records|
    ensures forall i :: 0 <= i < |r| ==> r[i] == Js.Concat(records[i])
  {
    if records == [] then [] else [Js.Concat(records[0])] + JoinAll(records[1..])
  }

  /** What one TXT lookup contributes to the results. */
  function TxtAnswer(answer: Result<seq<seq<string>>, string>): Answer<seq<string>> {
    match answer
    case Success(records) => Records(JoinAll(records))
    case Failure(message) => LookupError(message)
  }

  /** `(req.query.domain || '').trim()`. */
  function QueriedDomain(query: Option<string>): string {
    Js.Trim(Js.Or(query, ""))
  }

  /** The DKIM selector the handler looks up: DKIM_SELECTOR, or `"default"`. */
  function Selector(dkimSelector: Option<string>): string {
    Js.Or(dkimSelector, DefaultDkimSelector)
  }

  /** The `/api/check-dns` handler. `lookups` lists the resolver calls in the order made. */
  method CheckDns(query: Option<string>, dkimSelector: Option<string>, resolveMx: MxResolver, resolveTxt: TxtResolver)
    returns (r: CheckDnsResponse, lookups: seq<Lookup>)
    ensures r.DomainQueryRequired? <==> QueriedDomain(query) == ""
    ensures r.DomainQueryRequired? ==> lookups == []
    ensures r.Resolved? ==> lookups == [
      MxLookup(QueriedDomain(query)),
      TxtLookup(QueriedDomain(query)),
      TxtLookup("_dmarc." + QueriedDomain(query)),
      TxtLookup(Selector(dkimSelector) + "._domainkey." + QueriedDomain(query))]
    ensures r.Resolved? ==> (r.results.mx == match resolveMx(QueriedDomain(query))
      case Success(records) => Records(records)
      case Failure(message) => LookupError(message))
    ensures r.Resolved? ==> r.results.txt == TxtAnswer(resolveTxt(QueriedDomain(query)))
    ensures r.Resolved? ==> r.results.dmarc == TxtAnswer(resolveTxt("_dmarc." + QueriedDomain(query)))
    ensures r.Resolved? ==>
      r.results.dkim == TxtAnswer(resolveTxt(Selector(dkimSelector) + "._domainkey." + QueriedDomain(query)))
  {
    var domain := QueriedDomain(query);
    if domain == "" {
      return DomainQueryRequired, [];
    }
    var results := DnsResults(LookupError(""), LookupError(""), LookupError(""), LookupError(""));

    lookups := [MxLookup(domain)];
    var mx := resolveMx(domain);
    if mx.Success? {
      results := results.(mx := Records(mx.value));
    } else {
      results := results.(mx := LookupError(mx.error));
    }

    lookups := lookups + [TxtLookup(domain)];
    var txt := resolveTxt(domain);
    if txt.Success? {
      results := results.(txt := Records(JoinAll(txt.value)));
    } else {
      results := results.(txt := LookupError(txt.error));
    }

    var dmarcName := "_dmarc." + domain;
    lookups := lookups + [TxtLookup(dmarcName)];
    var dmarc := resolveTxt(dmarcName);
    if dmarc.Success? {
      results := results.(dmarc := Records(JoinAll(dmarc.value)));
    } else {
      results := results.(dmarc := LookupError(dmarc.error));
    }

    var dkimName := Selector(dkimSelector) + "._domainkey." + domain;
    lookups := lookups + [TxtLookup(dkimName)];
    var dkim := resolveTxt(dkimName);
    if dkim.Success? {
      results := results.(dkim := Records(JoinAll(dkim.value)));
    } else {
      results := results.(dkim := LookupError(dkim.error));
    }

    r := Resolved(results);
  }

  /** A lookup's failure changes only its own field: if two resolvers agree on
      every name but the MX answer, the TXT, DMARC and DKIM fields are the same. */
  method MxFailureIsolated(query: Option<string>, dkimSelector: Option<string>,
                           resolveMx1: MxResolver, resolveMx2: MxResolver, resolveTxt: TxtResolver)
    returns (r1: CheckDnsResponse, r2: CheckDnsResponse)
    ensures r1.Resolved? <==> r2.Resolved?
    ensures r1.Resolved? ==> r1.results.(mx := r2.results.mx) == r2.results
  {
    var lookups1, lookups2;
    r1, lookups1 := CheckDns(query, dkimSelector, resolveMx1, resolveTxt);
    r2, lookups2 := CheckDns(query, dkimSelector, resolveMx2, resolveTxt);
  }

  // ------------------------------------------------------- forwarding rules

  datatype ForwardingRule = ForwardingRule(id: int, from: string, to: string, enabled: bool, keepCopy: bool, created: int)

  datatype RuleResponse = FromAndToRequired | RuleCreated(rule: ForwardingRule)

  /** `POST /api/forwarding-rules`: `enabled` and `keepCopy` are on unless sent as `false`. */
  function CreateForwardingRule(from: Option<string>, to: Option<string>, enabled: Option<bool>,
                                keepCopy: Option<bool>, now: int, created: int)
    : (r: RuleResponse)
    ensures r.FromAndToRequired? <==> !Js.Truthy(from) || !Js.Truthy(to)
    ensures r.RuleCreated? ==> r.rule.from == from.value && r.rule.to == to.value
    ensures r.RuleCreated? ==> (r.rule.enabled <==> enabled != Some(false))
    ensures r.RuleCreated? ==> (r.rule.keepCopy <==> keepCopy != Some(false))
    ensures r.RuleCreated? ==> r.rule.id == now && r.rule.created == created
  {
    if !Js.Truthy(from) || !Js.Truthy(to) then FromAndToRequired
    else RuleCreated(ForwardingRule(now, from.value, to.value, enabled != Some(false), keepCopy != Some(false), created))
  }

  // ---------------------------------------------------------------- mailboxes

  const MailboxQuota: nat := 512

  datatype Mailbox = Mailbox(id: int, email: string, name: string, status: string, created: int, quota: nat, used: nat)

  datatype MailboxResponse = EmailAndPasswordRequired | MailboxCreated(mailbox: Mailbox)

  /** `POST /api/mailboxes`: a new active, empty mailbox; without a name, the
      name is the local part of the address (the text before its first `@`). */
  function CreateMailbox(email: Option<string>, name: Option<string>, password: Option<string>, now: int, created: int)
    : (r: MailboxResponse)
    ensures r.EmailAndPasswordRequired? <==> !Js.Truthy(email) || !Js.Truthy(password)
    ensures r.MailboxCreated? ==> r.mailbox.email == email.value && r.mailbox.id == now && r.mailbox.created == created
    ensures r.MailboxCreated? ==> r.mailbox.status == "active" && r.mailbox.quota == MailboxQuota && r.mailbox.used == 0
    ensures r.MailboxCreated? && Js.Truthy(name) ==> r.mailbox.name == name.value
    ensures r.MailboxCreated? && !Js.Truthy(name) ==>
      '@' !in r.mailbox.name
      && |r.mailbox.name| <= |email.value| && email.value[..|r.mailbox.name|] == r.mailbox.name
      && ('@' in email.value ==> |r.mailbox.name| < |email.value| && email.value[|r.mailbox.name|] == '@')
      && ('@' !in email.value ==> r.mailbox.name == email.value)
  {
    if !Js.Truthy(email) || !Js.Truthy(password) then EmailAndPasswordRequired
    else
      var mailboxName := if Js.Truthy(name) then name.value else Js.BeforeFirst(email.value, '@');
      MailboxCreated(Mailbox(now, email.value, mailboxName, "active", created, MailboxQuota, 0))
  }
}
