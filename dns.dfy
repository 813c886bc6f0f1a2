/** What the DNS resolver hands back, shared by the two domain-check handlers.
    The resolver itself is not modelled: each handler receives `resolveMx` and
    `resolveTxt` as functions from a name to the resolver's answer or the
    message of the error it raised. A TXT answer is a list of records, each
    a list of character-string segments. */
module Dns {
  import opened Wrappers

  datatype MxRecord = MxRecord(exchange: string, priority: nat)

  /** One resolver call a handler issues. */
  datatype Lookup = MxLookup(name: string) | TxtLookup(name: string)

  type MxResolver = string -> Result<seq<MxRecord>, string>
  type TxtResolver = string -> Result<seq<seq<string>>, string>
}
