/** The `/dns/check` handler (api-routes.js): an authentication report for a
    domain built from one MX lookup and one TXT lookup, each of which may fail
    without stopping the other. SPF and DMARC are both picked out of the
    domain's own TXT records; DKIM is never looked up. */
module DnsReport {
  import opened Wrappers
  import Js
  import opened Dns

  /** A report field as the JSON answer shows it: `null`, left `undefined` by a
      `find` that matched nothing (the key is then absent from the JSON), or a value. */
  datatype Field<T> = Null | Undefined | Value(value: T)

  datatype Report = Report(
    domain: string,
    mx: Field<seq<MxRecord>>,
    spf: Field<seq<string>>,
    dkim: Field<seq<string>>,
    dmarc: Field<seq<string>>,
    errors: seq<string>)

  datatype CheckResponse = DomainRequired | Checked(report: Report)

  const SpfPrefix := "v=spf1"
  const DmarcPrefix := "v=DMARC1"

  /** The record passes the `find` callback: its segments, joined, start with `prefix`. */
  predicate Matches(record: seq<string>, prefix: string) {
    Js.StartsWith(Js.Concat(record), prefix)
  }

  /** `records.find(record => record.join('').startsWith(prefix))`. */
  function FindRecord(records: seq<seq<string>>, prefix: string): Option<seq<string>> {
    if records == [] then None
    else if Matches(records[0], prefix) then Some(records[0])
    else FindRecord(records[1..], prefix)
  }

  /** Record `k` is the first record that matches `prefix`. */
  ghost predicate FirstMatch(records: seq<seq<string>>, prefix: string, k: nat) {
    k < |records| && Matches(records[k], prefix)
    && forall i :: 0 <= i < k ==> !Matches(records[i], prefix)
  }

  /** `find` returns the first matching record, and nothing exactly when no record matches. */
  lemma {:induction false} FindRecordIsFirstMatch(records: seq<seq<string>>, prefix: string)
    ensures FindRecord(records, prefix).Some? ==>
      exists k: nat :: FirstMatch(records, prefix, k) && FindRecord(records, prefix).value == records[k]
    ensures FindRecord(records, prefix).None? <==>
      forall i :: 0 <= i < |records| ==> !Matches(records[i], prefix)
  {
    if records != [] && !Matches(records[0], prefix) {
      FindRecordIsFirstMatch(records[1..], prefix);
      if FindRecord(records, prefix).Some? {
        var k: nat :| FirstMatch(records[1..], prefix, k) && FindRecord(records[1..], prefix).value == records[1..][k];
        assert FirstMatch(records, prefix, k + 1);
      }
      assert forall i :: 1 <= i < |records| ==> records[i] == records[1..][i - 1];
    } else if records != [] {
      assert FirstMatch(records, prefix, 0);
    }
  }

  /** No record qualifies as both SPF and DMARC: the prefixes differ at their third character. */
  lemma SpfAndDmarcDiffer(records: seq<seq<string>>)
    ensures FindRecord(records, SpfPrefix).Some? && FindRecord(records, DmarcPrefix).Some? ==>
      FindRecord(records, SpfPrefix).value != FindRecord(records, DmarcPrefix).value
  {
    FindRecordIsFirstMatch(records, SpfPrefix);
    FindRecordIsFirstMatch(records, DmarcPrefix);
    if FindRecord(records, SpfPrefix).Some? && FindRecord(records, DmarcPrefix).Some? {
      var s := Js.Concat(FindRecord(records, SpfPrefix).value);
      var d := Js.Concat(FindRecord(records, DmarcPrefix).value);
      assert s[2] == SpfPrefix[2] == 's';
      assert d[2] == DmarcPrefix[2] == 'D';
    }
  }

  /** A value split across segments is recognised: `["v=spf", "1 -all"]` is an SPF record. */
  lemma SplitSpfRecordQualifies()
    ensures Js.Concat(["v=spf", "1 -all"]) == "v=spf1 -all"
    ensures FindRecord([["v=DMARC1; p=none"], ["v=spf", "1 -all"]], SpfPrefix) == Some(["v=spf", "1 -all"])
  {
    var dmarc, spf := ["v=DMARC1; p=none"], ["v=spf", "1 -all"];
    assert Js.Concat(dmarc) == "v=DMARC1; p=none";
    assert Js.Concat(dmarc)[2] != SpfPrefix[2];
    assert Js.Concat(spf) == "v=spf1 -all";
    assert Js.Concat(spf)[..|SpfPrefix|] == SpfPrefix;
    assert [dmarc, spf][1..] == [spf];
  }

  /** What a successful `find` stores in the report. */
  function FoundField(found: Option<seq<string>>): Field<seq<string>> {
    if found.Some? then Value(found.value) else Undefined
  }

  /** The `/dns/check` handler. `lookups` lists the resolver calls in the order made. */
  method CheckDomain(domain: Option<string>, resolveMx: MxResolver, resolveTxt: TxtResolver)
    returns (r: CheckResponse, lookups: seq<Lookup>)
    ensures r.DomainRequired? <==> !Js.Truthy(domain)
    ensures r.DomainRequired? ==> lookups == []
    ensures r.Checked? ==> lookups == [MxLookup(domain.value), TxtLookup(domain.value)]
    ensures r.Checked? ==> r.report.domain == domain.value && r.report.dkim == Null
    ensures r.Checked? ==> (r.report.mx ==
      if resolveMx(domain.value).Success? then Value(resolveMx(domain.value).value) else Null)
    ensures r.Checked? && resolveTxt(domain.value).Success? ==>
      r.report.spf == FoundField(FindRecord(resolveTxt(domain.value).value, SpfPrefix))
      && r.report.dmarc == FoundField(FindRecord(resolveTxt(domain.value).value, DmarcPrefix))
    ensures r.Checked? && resolveTxt(domain.value).Failure? ==> r.report.spf == Null && r.report.dmarc == Null
    ensures r.Checked? ==> (r.report.errors ==
      (if resolveMx(domain.value).Failure? then ["MX: " + resolveMx(domain.value).error] else [])
      + (if resolveTxt(domain.value).Failure? then ["TXT: " + resolveTxt(domain.value).error] else []))
    ensures r.Checked? ==> |r.report.errors| <= 2
    ensures r.Checked? && r.report.spf.Value? && r.report.dmarc.Value? ==> r.report.spf.value != r.report.dmarc.value
  {
    if !Js.Truthy(domain) {
      return DomainRequired, [];
    }
    var name := domain.value;
    var results := Report(name, Null, Null, Null, Null, []);

    lookups := [MxLookup(name)];
    var mx := resolveMx(name);
    if mx.Success? {
      results := results.(mx := Value(mx.value));
    } else {
      results := results.(errors := results.errors + ["MX: " + mx.error]);
    }

    lookups := lookups + [TxtLookup(name)];
    var txt := resolveTxt(name);
    if txt.Success? {
      results := results.(spf := FoundField(FindRecord(txt.value, SpfPrefix)));
      results := results.(dmarc := FoundField(FindRecord(txt.value, DmarcPrefix)));
      SpfAndDmarcDiffer(txt.value);
    } else {
      results := results.(errors := results.errors + ["TXT: " + txt.error]);
    }
    r := Checked(results);
  }
}
