/** The `emails`, `drafts` and `domains` tables of the persistent store and the
    operations of the `Database` object (db.js) that insert, update, delete and
    query them. Every store call may fail: its `fault` argument is the error the
    store reports (`Some(message)`), and a faulting call throws that error and
    leaves the tables as they were. */
module Store {
  import opened Wrappers

  datatype Direction = Sent | Received

  /** A row of `emails`. `isRead` is the `is_read` column, false on insert;
      `createdAt` is the `created_at` timestamp the store assigns on insert. */
  datatype EmailRow = EmailRow(
    id: string,
    userId: string,
    fromAddress: string,
    toAddress: string,
    subject: string,
    body: Option<string>,
    htmlBody: Option<string>,
    direction: Direction,
    isRead: bool,
    createdAt: int)

  /** A row of `drafts`: a draft may not have a recipient or a subject yet. */
  datatype DraftRow = DraftRow(
    id: string,
    userId: string,
    toAddress: Option<string>,
    subject: Option<string>,
    body: Option<string>,
    createdAt: int)

  /** A row of `domains`. */
  datatype DomainRow = DomainRow(id: string, userId: string, domain: string, verified: bool)

  datatype EmailStats = EmailStats(total: nat, unread: nat)

  /** The default page of `getEmails(userId, limit = 50, offset = 0)`. */
  const DefaultLimit: nat := 50
  const DefaultOffset: nat := 0

  // The columns the queries filter and order by, as function values.
  function EmailId(e: EmailRow): string { e.id }
  function EmailOwner(e: EmailRow): string { e.userId }
  function EmailCreated(e: EmailRow): int { e.createdAt }
  function DraftId(d: DraftRow): string { d.id }
  function DraftOwner(d: DraftRow): string { d.userId }
  function DraftCreated(d: DraftRow): int { d.createdAt }
  function DomainOwner(d: DomainRow): string { d.userId }

  /** `.eq(column, v)` on a select: the rows whose column equals `v`, in table order. */
  function Select<R(==,!new)>(rows: seq<R>, column: R -> string, v: string): (r: seq<R>)
    ensures |r| <= |rows|
    ensures forall x :: x in r <==> x in rows && column(x) == v
  {
    if rows == [] then []
    else if column(rows[0]) == v then [rows[0]] + Select(rows[1..], column, v)
    else Select(rows[1..], column, v)
  }

  /** `.delete().eq(column, v)`: the rows that remain, in table order. */
  function Reject<R(==,!new)>(rows: seq<R>, column: R -> string, v: string): (r: seq<R>)
    ensures |r| <= |rows|
    ensures forall x :: x in r <==> x in rows && column(x) != v
  {
    if rows == [] then []
    else if column(rows[0]) == v then Reject(rows[1..], column, v)
    else [rows[0]] + Reject(rows[1..], column, v)
  }

  /** A delete removes exactly the rows a select with the same filter returns. */
  lemma {:induction false} SelectRejectPartition<R(!new)>(rows: seq<R>, column: R -> string, v: string)
    ensures multiset(Select(rows, column, v)) + multiset(Reject(rows, column, v)) == multiset(rows)
  {
    if rows != [] {
      SelectRejectPartition(rows[1..], column, v);
      assert rows == [rows[0]] + rows[1..];
    }
  }

  /** `.order(created, { ascending: false })` holds of `s`. */
  ghost predicate NewestFirstOrder<R>(s: seq<R>, created: R -> int) {
    forall i, j :: 0 <= i < j < |s| ==> created(s[i]) >= created(s[j])
  }

  /** Puts `x` before the first row of `s` that is not newer than it. */
  function InsertByNewest<R>(x: R, s: seq<R>, created: R -> int): seq<R> {
    if s == [] || created(s[0]) <= created(x) then [x] + s
    else [s[0]] + InsertByNewest(x, s[1..], created)
  }

  /** The rows ordered newest first (insertion sort). The store leaves the order
      of rows with equal timestamps open; this model keeps them in table order. */
  function NewestFirst<R>(rows: seq<R>, created: R -> int): seq<R> {
    if rows == [] then [] else InsertByNewest(rows[0], NewestFirst(rows[1..], created), created)
  }

  lemma {:induction false} InsertByNewestPermutes<R>(x: R, s: seq<R>, created: R -> int)
    ensures multiset(InsertByNewest(x, s, created)) == multiset(s) + multiset{x}
  {
    if s != [] && created(s[0]) > created(x) {
      InsertByNewestPermutes(x, s[1..], created);
      assert s == [s[0]] + s[1..];
    }
  }

  /** Inserting keeps every timestamp under a common bound. */
  lemma {:induction false} InsertByNewestBounded<R>(x: R, s: seq<R>, created: R -> int, bound: int)
    requires created(x) <= bound
    requires forall i :: 0 <= i < |s| ==> created(s[i]) <= bound
    ensures forall i :: 0 <= i < |InsertByNewest(x, s, created)| ==> created(InsertByNewest(x, s, created)[i]) <= bound
  {
    if s != [] && created(s[0]) > created(x) {
      InsertByNewestBounded(x, s[1..], created, bound);
    }
  }

  lemma {:induction false} InsertByNewestSorted<R>(x: R, s: seq<R>, created: R -> int)
    requires NewestFirstOrder(s, created)
    ensures NewestFirstOrder(InsertByNewest(x, s, created), created)
  {
    if s != [] && created(s[0]) > created(x) {
      var rest := InsertByNewest(x, s[1..], created);
      InsertByNewestSorted(x, s[1..], created);
      InsertByNewestBounded(x, s[1..], created, created(s[0]));
      var r := [s[0]] + rest;
      forall i, j | 0 <= i < j < |r| ensures created(r[i]) >= created(r[j]) {
        if i > 0 {
          assert r[i] == rest[i - 1] && r[j] == rest[j - 1];
        } else {
          assert r[j] == rest[j - 1];
        }
      }
    }
  }

  /** Sorting newest first orders the rows by falling timestamp and keeps exactly the same rows. */
  lemma {:induction false} NewestFirstSorts<R>(rows: seq<R>, created: R -> int)
    ensures multiset(NewestFirst(rows, created)) == multiset(rows)
    ensures NewestFirstOrder(NewestFirst(rows, created), created)
  {
    if rows != [] {
      NewestFirstSorts(rows[1..], created);
      InsertByNewestPermutes(rows[0], NewestFirst(rows[1..], created), created);
      InsertByNewestSorted(rows[0], NewestFirst(rows[1..], created), created);
      assert rows == [rows[0]] + rows[1..];
    }
  }

  function Min(a: nat, b: nat): nat { if a <= b then a else b }

  /** `.range(offset, offset + limit - 1)`: the rows at positions offset .. offset + limit - 1. */
  function Window<R>(s: seq<R>, offset: nat, limit: nat): (r: seq<R>)
    ensures |r| == if offset >= |s| then 0 else Min(limit, |s| - offset)
    ensures forall i :: 0 <= i < |r| ==> r[i] == s[offset + i]
  {
    if offset >= |s| then [] else s[offset..offset + Min(limit, |s| - offset)]
  }

  /** The number of rows whose `is_read` is falsy. */
  function CountUnread(rows: seq<EmailRow>): (n: nat)
    ensures n <= |rows|
    ensures n == 0 <==> forall i :: 0 <= i < |rows| ==> rows[i].isRead
  {
    if rows == [] then 0
    else (if rows[0].isRead then 0 else 1) + CountUnread(rows[1..])
  }

  /** The answer of `getEmails`: the user's emails newest first, one page of them. */
  function InboxPage(emails: seq<EmailRow>, userId: string, offset: nat, limit: nat): seq<EmailRow> {
    Window(NewestFirst(Select(emails, EmailOwner, userId), EmailCreated), offset, limit)
  }

  /** The answer of `getEmailStats`. */
  function Stats(emails: seq<EmailRow>, userId: string): EmailStats {
    var mine := Select(emails, EmailOwner, userId);
    EmailStats(|mine|, CountUnread(mine))
  }

  /** `update({ is_read: true }).eq('id', id)`. */
  function MarkedRead(rows: seq<EmailRow>, id: string): (r: seq<EmailRow>)
    ensures |r| == |rows|
    ensures forall i :: 0 <= i < |r| && rows[i].id == id ==> r[i] == rows[i].(isRead := true)
    ensures forall i :: 0 <= i < |r| && rows[i].id != id ==> r[i] == rows[i]
  {
    if rows == [] then []
    else [if rows[0].id == id then rows[0].(isRead := true) else rows[0]] + MarkedRead(rows[1..], id)
  }

  /** `update({ verified }).eq('id', id)`. */
  function WithVerification(rows: seq<DomainRow>, id: string, verified: bool): (r: seq<DomainRow>)
    ensures |r| == |rows|
    ensures forall i :: 0 <= i < |r| && rows[i].id == id ==> r[i] == rows[i].(verified := verified)
    ensures forall i :: 0 <= i < |r| && rows[i].id != id ==> r[i] == rows[i]
  {
    if rows == [] then []
    else [if rows[0].id == id then rows[0].(verified := verified) else rows[0]]
         + WithVerification(rows[1..], id, verified)
  }

  /** Marking an email read twice is marking it read once. */
  lemma MarkedReadIdempotent(rows: seq<EmailRow>, id: string)
    ensures MarkedRead(MarkedRead(rows, id), id) == MarkedRead(rows, id)
  {
  }

  /** Marking an email read keeps the rows each user owns and never adds an unread one. */
  lemma {:induction false} MarkedReadStats(rows: seq<EmailRow>, id: string, userId: string)
    ensures Stats(MarkedRead(rows, id), userId).total == Stats(rows, userId).total
    ensures Stats(MarkedRead(rows, id), userId).unread <= Stats(rows, userId).unread
  {
    if rows != [] {
      MarkedReadStats(rows[1..], id, userId);
      assert MarkedRead(rows, id)[1..] == MarkedRead(rows[1..], id);
    }
  }

  /** Deleting an email by id removes from each user's count exactly their rows with that id. */
  lemma {:induction false} DeleteStats(rows: seq<EmailRow>, id: string, userId: string)
    ensures Stats(Reject(rows, EmailId, id), userId).total
         == Stats(rows, userId).total - |Select(Select(rows, EmailOwner, userId), EmailId, id)|
  {
    if rows != [] {
      DeleteStats(rows[1..], id, userId);
    }
  }

  /** One page of a user's inbox: at most `limit` rows, all the user's, newest first. */
  lemma InboxPageProperties(emails: seq<EmailRow>, userId: string, offset: nat, limit: nat)
    ensures |InboxPage(emails, userId, offset, limit)| <= limit
    ensures forall e :: e in InboxPage(emails, userId, offset, limit) ==> e in emails && e.userId == userId
    ensures NewestFirstOrder(InboxPage(emails, userId, offset, limit), EmailCreated)
  {
    var mine := Select(emails, EmailOwner, userId);
    var sorted := NewestFirst(mine, EmailCreated);
    var page := InboxPage(emails, userId, offset, limit);
    NewestFirstSorts(mine, EmailCreated);
    forall e | e in page ensures e in emails && e.userId == userId {
      var i :| 0 <= i < |page| && page[i] == e;
      assert sorted[offset + i] in multiset(sorted);
    }
    forall i, j | 0 <= i < j < |page| ensures EmailCreated(page[i]) >= EmailCreated(page[j]) {
      assert page[i] == sorted[offset + i] && page[j] == sorted[offset + j];
    }
  }

  class Database {
    var emails: seq<EmailRow>
    var drafts: seq<DraftRow>
    var domains: seq<DomainRow>

    constructor ()
      ensures emails == [] && drafts == [] && domains == []
    {
      emails, drafts, domains := [], [], [];
    }

    /** `createDomain`: inserts an unverified domain; `id` is the key the store assigns. */
    method CreateDomain(id: string, userId: string, domain: string, fault: Option<string>)
      returns (r: Outcome<string>)
      modifies this`domains
      ensures fault.None? ==> r == Pass && domains == old(domains) + [DomainRow(id, userId, domain, false)]
      ensures fault.Some? ==> r == Fail(fault.value) && domains == old(domains)
    {
      if fault.Some? {
        return Fail(fault.value);
      }
      domains := domains + [DomainRow(id, userId, domain, false)];
      r := Pass;
    }

    /** `getDomains`: every domain row of the user, and no other. */
    method GetDomains(userId: string, fault: Option<string>) returns (r: Result<seq<DomainRow>, string>)
      ensures fault.Some? ==> r == Failure(fault.value)
      ensures fault.None? ==> r == Success(Select(domains, DomainOwner, userId))
      ensures r.Success? ==> forall d :: d in r.value <==> d in domains && d.userId == userId
    {
      if fault.Some? {
        return Failure(fault.value);
      }
      r := Success(Select(domains, DomainOwner, userId));
    }

    /** `updateDomainVerification`: only the verified flag of the rows with that id changes. */
    method UpdateDomainVerification(id: string, verified: bool, fault: Option<string>)
      returns (r: Outcome<string>)
      modifies this`domains
      ensures fault.Some? ==> r == Fail(fault.value) && domains == old(domains)
      ensures fault.None? ==> r == Pass && domains == WithVerification(old(domains), id, verified)
    {
      if fault.Some? {
        return Fail(fault.value);
      }
      domains := WithVerification(domains, id, verified);
      r := Pass;
    }

    /** `saveEmail`: appends exactly one unread row; `now` is the insert timestamp. */
    method SaveEmail(id: string, userId: string, from: string, to: string, subject: string,
                     body: Option<string>, htmlBody: Option<string>, direction: Direction,
                     now: int, fault: Option<string>)
      returns (r: Outcome<string>)
      modifies this`emails
      ensures fault.None? ==> (r == Pass &&
        emails == old(emails) + [EmailRow(id, userId, from, to, subject, body, htmlBody, direction, false, now)])
      ensures fault.Some? ==> r == Fail(fault.value) && emails == old(emails)
    {
      if fault.Some? {
        return Fail(fault.value);
      }
      emails := emails + [EmailRow(id, userId, from, to, subject, body, htmlBody, direction, false, now)];
      r := Pass;
    }

    /** `getEmails`: one page of the user's emails, newest first; a missing
        limit or offset takes its default. */
    method GetEmails(userId: string, limit: Option<nat>, offset: Option<nat>, fault: Option<string>)
      returns (r: Result<seq<EmailRow>, string>)
      ensures fault.Some? ==> r == Failure(fault.value)
      ensures fault.None? ==> r.Success?
      ensures r.Success? ==> r.value == InboxPage(emails, userId,
        if offset.Some? then offset.value else DefaultOffset,
        if limit.Some? then limit.value else DefaultLimit)
      ensures r.Success? ==> |r.value| <= if limit.Some? then limit.value else DefaultLimit
      ensures r.Success? ==> forall e :: e in r.value ==> e in emails && e.userId == userId
      ensures r.Success? ==> NewestFirstOrder(r.value, EmailCreated)
    {
      var lim := if limit.Some? then limit.value else DefaultLimit;
      var off := if offset.Some? then offset.value else DefaultOffset;
      if fault.Some? {
        return Failure(fault.value);
      }
      InboxPageProperties(emails, userId, off, lim);
      r := Success(InboxPage(emails, userId, off, lim));
    }

    /** `getEmail`: `.single()` yields the row when exactly one row has that id,
        and null otherwise (error PGRST116, which `getEmail` swallows). */
    method GetEmail(emailId: string, fault: Option<string>) returns (r: Result<Option<EmailRow>, string>)
      ensures fault.Some? ==> r == Failure(fault.value)
      ensures fault.None? ==> r.Success? && (r.value.Some? <==> |Select(emails, EmailId, emailId)| == 1)
      ensures r.Success? && r.value.Some? ==> r.value.value in emails && r.value.value.id == emailId
    {
      if fault.Some? {
        return Failure(fault.value);
      }
      var matching := Select(emails, EmailId, emailId);
      if |matching| == 1 {
        assert matching[0] in matching;
        r := Success(Some(matching[0]));
      } else {
        r := Success(None);
      }
    }

    /** `markAsRead`: sets is_read on the rows with that id and nothing else. */
    method MarkAsRead(emailId: string, fault: Option<string>) returns (r: Outcome<string>)
      modifies this`emails
      ensures fault.Some? ==> r == Fail(fault.value) && emails == old(emails)
      ensures fault.None? ==> r == Pass && emails == MarkedRead(old(emails), emailId)
    {
      if fault.Some? {
        return Fail(fault.value);
      }
      emails := MarkedRead(emails, emailId);
      r := Pass;
    }

    /** `deleteEmail`: removes exactly the rows with that id. */
    method DeleteEmail(emailId: string, fault: Option<string>) returns (r: Outcome<string>)
      modifies this`emails
      ensures fault.Some? ==> r == Fail(fault.value) && emails == old(emails)
      ensures fault.None? ==> r == Pass && emails == Reject(old(emails), EmailId, emailId)
      ensures fault.None? ==> multiset(emails) + multiset(Select(old(emails), EmailId, emailId))
                              == multiset(old(emails))
    {
      if fault.Some? {
        return Fail(fault.value);
      }
      SelectRejectPartition(emails, EmailId, emailId);
      emails := Reject(emails, EmailId, emailId);
      r := Pass;
    }

    /** `getEmailStats`: how many emails the user has and how many are unread. */
    method GetEmailStats(userId: string, fault: Option<string>) returns (r: Result<EmailStats, string>)
      ensures fault.Some? ==> r == Failure(fault.value)
      ensures fault.None? ==> r.Success?
      ensures r.Success? ==> r.value.total == |Select(emails, EmailOwner, userId)|
      ensures r.Success? ==> r.value.unread == CountUnread(Select(emails, EmailOwner, userId))
      ensures r.Success? ==> r.value.unread <= r.value.total
    {
      if fault.Some? {
        return Failure(fault.value);
      }
      r := Success(Stats(emails, userId));
    }

    /** `saveDraft`: appends exactly one draft row. */
    method SaveDraft(id: string, userId: string, to: Option<string>, subject: Option<string>, body: Option<string>,
                     now: int, fault: Option<string>)
      returns (r: Outcome<string>)
      modifies this`drafts
      ensures fault.None? ==> r == Pass && drafts == old(drafts) + [DraftRow(id, userId, to, subject, body, now)]
      ensures fault.Some? ==> r == Fail(fault.value) && drafts == old(drafts)
    {
      if fault.Some? {
        return Fail(fault.value);
      }
      drafts := drafts + [DraftRow(id, userId, to, subject, body, now)];
      r := Pass;
    }

    /** `getDrafts`: all of the user's drafts, newest first. */
    method GetDrafts(userId: string, fault: Option<string>) returns (r: Result<seq<DraftRow>, string>)
      ensures fault.Some? ==> r == Failure(fault.value)
      ensures fault.None? ==> r == Success(NewestFirst(Select(drafts, DraftOwner, userId), DraftCreated))
      ensures r.Success? ==> multiset(r.value) == multiset(Select(drafts, DraftOwner, userId))
      ensures r.Success? ==> forall d :: d in r.value <==> d in drafts && d.userId == userId
      ensures r.Success? ==> NewestFirstOrder(r.value, DraftCreated)
    {
      if fault.Some? {
        return Failure(fault.value);
      }
      var mine := Select(drafts, DraftOwner, userId);
      NewestFirstSorts(mine, DraftCreated);
      var sorted := NewestFirst(mine, DraftCreated);
      assert forall d :: d in sorted <==> d in multiset(mine);
      assert forall d :: d in sorted <==> d in drafts && d.userId == userId by {
        forall d ensures d in sorted <==> d in drafts && d.userId == userId {
          assert d in sorted <==> d in mine;
          assert d in mine <==> d in drafts && DraftOwner(d) == userId;
        }
      }
      r := Success(sorted);
    }

    /** `deleteDraft`: removes exactly the drafts with that id. */
    method DeleteDraft(draftId: string, fault: Option<string>) returns (r: Outcome<string>)
      modifies this`drafts
      ensures fault.Some? ==> r == Fail(fault.value) && drafts == old(drafts)
      ensures fault.None? ==> r == Pass && drafts == Reject(old(drafts), DraftId, draftId)
    {
      if fault.Some? {
        return Fail(fault.value);
      }
      drafts := Reject(drafts, DraftId, draftId);
      r := Pass;
    }
  }
}
