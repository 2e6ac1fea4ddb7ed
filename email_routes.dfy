/** The server's `emails` table and its five routes: list with a filter,
    fetch one, create, partial update and delete. The table is a map from
    id to stored row plus the AUTOINCREMENT counter that hands out ids. */
module EmailRoutes {
  import opened Wrappers
  import opened Text
  import opened Seqs
  import opened Mail
  import opened Wire

  /** A stored row. SQLite keeps the two flags as the integers 0 and 1. */
  datatype Row = Row(
    id: int,
    sender_name: string,
    sender_email: string,
    sender_avatar: string,
    recipient: string,
    subject: string,
    body: string,
    preview: string,
    date_time: string,
    is_read: int,
    is_archived: int,
    attachments: Option<string>,
    created_at: string,
    updated_at: string
  )

  /** How a boolean parameter is stored in an integer column. */
  function FlagValue(b: bool): int {
    if b then 1 else 0
  }

  predicate WellFormed(r: Row) {
    (r.is_read == 0 || r.is_read == 1) && (r.is_archived == 0 || r.is_archived == 1)
  }

  /** `EmailResponse(row).to_dict()`: every column under its own name, the
      flags turned into booleans by `bool(...)`. */
  function ToDict(r: Row): Email {
    Email(r.id, r.sender_name, r.sender_email, r.sender_avatar, r.recipient, r.subject, r.body,
          r.preview, r.date_time, r.is_read != 0, r.is_archived != 0, r.attachments,
          r.created_at, r.updated_at)
  }

  /** The row that holds a given response object. */
  function StoredRow(e: Email): Row {
    Row(e.id, e.sender_name, e.sender_email, e.sender_avatar, e.recipient, e.subject, e.body,
        e.preview, e.date_time, FlagValue(e.is_read), FlagValue(e.is_archived), e.attachments,
        e.created_at, e.updated_at)
  }

  /** `to_dict` loses nothing of a well-formed row, and every response
      object comes from exactly one well-formed row. */
  lemma ToDictRoundTrip(r: Row, e: Email)
    ensures WellFormed(r) ==> StoredRow(ToDict(r)) == r
    ensures ToDict(StoredRow(e)) == e && WellFormed(StoredRow(e))
  {
  }

  // ---------------------------------------------------------------------
  // Preview

  const PreviewLength: nat := 100
  const Ellipsis: string := "..."

  /** `body[:100] + "..." if len(body) > 100 else body`. */
  function Preview(body: string): (p: string)
    ensures |p| <= PreviewLength + |Ellipsis|
    ensures |body| <= PreviewLength ==> p == body
    ensures |body| > PreviewLength ==>
      |p| == PreviewLength + |Ellipsis| && p[..PreviewLength] == body[..PreviewLength]
      && p[PreviewLength..] == Ellipsis
  {
    if |body| > PreviewLength then body[..PreviewLength] + Ellipsis else body
  }

  /** A preview is its own preview: truncating twice cuts at the same place. */
  lemma PreviewIdempotent(body: string)
    ensures Preview(Preview(body)) == Preview(body)
  {
    var p := Preview(body);
    if |body| > PreviewLength {
      assert p[..PreviewLength] == body[..PreviewLength];
    }
  }

  // ---------------------------------------------------------------------
  // Listing

  /** The WHERE clause `get_emails` picks: `unread_only` wins over
      `archived_only`, and without either only unarchived rows are listed. */
  predicate Where(r: Row, unreadOnly: bool, archivedOnly: bool) {
    if unreadOnly then r.is_read == 0 && r.is_archived == 0
    else if archivedOnly then r.is_archived == 1
    else r.is_archived == 0
  }

  /** Which emails a listing contains, stated on the response's booleans. */
  predicate Shown(e: Email, unreadOnly: bool, archivedOnly: bool) {
    && (unreadOnly ==> !e.is_read && !e.is_archived)
    && (!unreadOnly && archivedOnly ==> e.is_archived)
    && (!unreadOnly && !archivedOnly ==> !e.is_archived)
  }

  lemma WhereIsShown(r: Row, unreadOnly: bool, archivedOnly: bool)
    requires WellFormed(r)
    ensures Where(r, unreadOnly, archivedOnly) <==> Shown(ToDict(r), unreadOnly, archivedOnly)
  {
  }

  /** The rows with ids lo, lo + 1, ..., hi - 1, in rowid order: a table
      scan. Every id of a table lies below its AUTOINCREMENT counter, so
      scanning 1 up to the counter visits every row. */
  function TableScan(rows: map<int, Row>, lo: int, hi: int): (s: seq<Row>)
    ensures forall r :: r in s <==> exists id :: lo <= id < hi && id in rows && rows[id] == r
    decreases hi - lo
  {
    if lo >= hi then []
    else
      var rest := TableScan(rows, lo + 1, hi);
      var s := (if lo in rows then [rows[lo]] else []) + rest;
      assert forall r :: r in rest ==> r in s;
      s
  }

  lemma {:induction false} TableScanDistinct(rows: map<int, Row>, lo: int, hi: int)
    requires forall id :: id in rows ==> rows[id].id == id
    ensures DistinctIds(TableScan(rows, lo, hi))
    ensures forall r :: r in TableScan(rows, lo, hi) ==> lo <= r.id
    decreases hi - lo
  {
    if lo < hi {
      TableScanDistinct(rows, lo + 1, hi);
    }
  }

  /** Newest first: created_at never increases along the sequence. */
  ghost predicate NewestFirst(s: seq<Row>) {
    forall i, j :: 0 <= i < j < |s| ==> LexLe(s[j].created_at, s[i].created_at)
  }

  ghost predicate DistinctIds(s: seq<Row>) {
    forall i, j :: 0 <= i < j < |s| ==> s[i].id != s[j].id
  }

  /** Put r in front of the first row that is not newer than it. */
  function Insert(r: Row, s: seq<Row>): seq<Row> {
    if s == [] || LexLe(s[0].created_at, r.created_at) then [r] + s
    else [s[0]] + Insert(r, s[1..])
  }

  /** `ORDER BY created_at DESC`, by insertion; rows with equal created_at
      keep their scan order. */
  function OrderByCreatedDesc(s: seq<Row>): seq<Row> {
    if s == [] then [] else Insert(s[0], OrderByCreatedDesc(s[1..]))
  }

  lemma {:induction false} InsertMultiset(r: Row, s: seq<Row>)
    ensures multiset(Insert(r, s)) == multiset(s) + multiset{r}
    ensures forall x :: x in Insert(r, s) <==> x == r || x in s
  {
    if s != [] && !LexLe(s[0].created_at, r.created_at) {
      InsertMultiset(r, s[1..]);
      assert s == [s[0]] + s[1..];
    }
  }

  lemma {:induction false} InsertNewestFirst(r: Row, s: seq<Row>)
    requires NewestFirst(s)
    ensures NewestFirst(Insert(r, s))
  {
    if s == [] {
    } else if LexLe(s[0].created_at, r.created_at) {
      forall j | 0 < j < |s| + 1 ensures LexLe(([r] + s)[j].created_at, r.created_at) {
        if j > 1 {
          LexLeTransitive(s[j - 1].created_at, s[0].created_at, r.created_at);
        }
      }
    } else {
      LexLeTotal(s[0].created_at, r.created_at);
      InsertNewestFirst(r, s[1..]);
      InsertMultiset(r, s[1..]);
      var t := Insert(r, s[1..]);
      forall j | 0 <= j < |t| ensures LexLe(t[j].created_at, s[0].created_at) {
        if t[j] != r {
          assert t[j] in s[1..];
          var k :| 0 <= k < |s[1..]| && s[1..][k] == t[j];
          assert s[k + 1] == t[j];
        }
      }
    }
  }

  lemma {:induction false} InsertDistinct(r: Row, s: seq<Row>)
    requires DistinctIds(s) && forall x :: x in s ==> x.id != r.id
    ensures DistinctIds(Insert(r, s))
  {
    if s != [] && !LexLe(s[0].created_at, r.created_at) {
      InsertDistinct(r, s[1..]);
      InsertMultiset(r, s[1..]);
      var t := Insert(r, s[1..]);
      forall j | 0 <= j < |t| ensures t[j].id != s[0].id {
        if t[j] != r {
          assert t[j] in s[1..];
          var k :| 0 <= k < |s[1..]| && s[1..][k] == t[j];
          assert s[k + 1] == t[j];
        }
      }
    }
  }

  /** `ORDER BY created_at DESC` gives a newest-first permutation of its input. */
  lemma {:induction false} OrderByCreatedDescSorted(s: seq<Row>)
    ensures NewestFirst(OrderByCreatedDesc(s))
    ensures multiset(OrderByCreatedDesc(s)) == multiset(s)
  {
    if s != [] {
      OrderByCreatedDescSorted(s[1..]);
      var t := OrderByCreatedDesc(s[1..]);
      InsertMultiset(s[0], t);
      InsertNewestFirst(s[0], t);
      assert s == [s[0]] + s[1..];
    }
  }

  /** Sorting keeps the ids of the rows distinct. */
  lemma {:induction false} OrderByCreatedDescDistinct(s: seq<Row>)
    requires DistinctIds(s)
    ensures DistinctIds(OrderByCreatedDesc(s))
  {
    if s != [] {
      OrderByCreatedDescDistinct(s[1..]);
      OrderByCreatedDescSorted(s[1..]);
      var t := OrderByCreatedDesc(s[1..]);
      forall x | x in t ensures x.id != s[0].id {
        assert x in multiset(s[1..]);
        var k :| 0 <= k < |s[1..]| && s[1..][k] == x;
        assert s[k + 1] == x;
      }
      InsertDistinct(s[0], t);
    }
  }

  lemma {:induction false} FilterDistinct(s: seq<Row>, p: Row -> bool)
    requires DistinctIds(s)
    ensures DistinctIds(Filter(s, p))
  {
    if s != [] {
      FilterDistinct(s[1..], p);
      if p(s[0]) {
        var t := Filter(s[1..], p);
        forall j | 0 <= j < |t| ensures t[j].id != s[0].id {
          FilterMembers(s[1..], p, t[j]);
          var k :| 0 <= k < |s[1..]| && s[1..][k] == t[j];
          assert s[k + 1] == t[j];
        }
      }
    }
  }

  /** The response objects of a list of rows, in the same order. */
  function ToDicts(s: seq<Row>): (r: seq<Email>)
    ensures |r| == |s| && forall i :: 0 <= i < |s| ==> r[i] == ToDict(s[i])
  {
    seq(|s|, i requires 0 <= i < |s| => ToDict(s[i]))
  }

  /** The `emails` of a `get_emails` response for a given table. */
  function Listing(rows: map<int, Row>, nextId: int, unreadOnly: bool, archivedOnly: bool): seq<Email> {
    ToDicts(OrderByCreatedDesc(Filter(TableScan(rows, 1, nextId), r => Where(r, unreadOnly, archivedOnly))))
  }

  /** The ids of a table are its keys, every id below the next one to be handed out. */
  ghost predicate TableInvariant(rows: map<int, Row>, nextId: int) {
    1 <= nextId && forall id :: id in rows ==> rows[id].id == id && 1 <= id < nextId && WellFormed(rows[id])
  }

  lemma ListingFacts(rows: map<int, Row>, nextId: int, unreadOnly: bool, archivedOnly: bool)
    requires TableInvariant(rows, nextId)
    ensures var emails := Listing(rows, nextId, unreadOnly, archivedOnly);
      && (forall i :: 0 <= i < |emails| ==>
            emails[i].id in rows && emails[i] == ToDict(rows[emails[i].id])
            && Shown(emails[i], unreadOnly, archivedOnly))
      && (forall id :: id in rows && Shown(ToDict(rows[id]), unreadOnly, archivedOnly) ==>
            ToDict(rows[id]) in emails)
      && (forall i, j :: 0 <= i < j < |emails| ==> emails[i].id != emails[j].id)
      && (forall i, j :: 0 <= i < j < |emails| ==> LexLe(emails[j].created_at, emails[i].created_at))
  {
    ListingSound(rows, nextId, unreadOnly, archivedOnly);
    ListingComplete(rows, nextId, unreadOnly, archivedOnly);
    ListingOrdered(rows, nextId, unreadOnly, archivedOnly);
  }

  /** Every listed email is a stored one that the filter admits. */
  lemma ListingSound(rows: map<int, Row>, nextId: int, unreadOnly: bool, archivedOnly: bool)
    requires TableInvariant(rows, nextId)
    ensures var emails := Listing(rows, nextId, unreadOnly, archivedOnly);
      forall i :: 0 <= i < |emails| ==>
        emails[i].id in rows && emails[i] == ToDict(rows[emails[i].id]) && Shown(emails[i], unreadOnly, archivedOnly)
  {
    var p := (r: Row) => Where(r, unreadOnly, archivedOnly);
    var scan := TableScan(rows, 1, nextId);
    var filtered := Filter(scan, p);
    var sorted := OrderByCreatedDesc(filtered);
    var emails := ToDicts(sorted);
    OrderByCreatedDescSorted(filtered);
    forall i | 0 <= i < |emails|
      ensures emails[i].id in rows && emails[i] == ToDict(rows[emails[i].id])
      ensures Shown(emails[i], unreadOnly, archivedOnly)
    {
      assert sorted[i] in multiset(filtered);
      FilterMembers(scan, p, sorted[i]);
      WhereIsShown(sorted[i], unreadOnly, archivedOnly);
    }
  }

  /** Every stored email that the filter admits is listed. */
  lemma ListingComplete(rows: map<int, Row>, nextId: int, unreadOnly: bool, archivedOnly: bool)
    requires TableInvariant(rows, nextId)
    ensures forall id :: id in rows && Shown(ToDict(rows[id]), unreadOnly, archivedOnly) ==>
      ToDict(rows[id]) in Listing(rows, nextId, unreadOnly, archivedOnly)
  {
    var p := (r: Row) => Where(r, unreadOnly, archivedOnly);
    var scan := TableScan(rows, 1, nextId);
    var filtered := Filter(scan, p);
    var sorted := OrderByCreatedDesc(filtered);
    var emails := ToDicts(sorted);
    OrderByCreatedDescSorted(filtered);
    forall id | id in rows && Shown(ToDict(rows[id]), unreadOnly, archivedOnly)
      ensures ToDict(rows[id]) in emails
    {
      WhereIsShown(rows[id], unreadOnly, archivedOnly);
      FilterMembers(scan, p, rows[id]);
      assert rows[id] in multiset(sorted);
      ToDictsHas(sorted, rows[id]);
    }
  }

  lemma ToDictsHas(s: seq<Row>, r: Row)
    requires r in s
    ensures ToDict(r) in ToDicts(s)
  {
    var k :| 0 <= k < |s| && s[k] == r;
    assert ToDicts(s)[k] == ToDict(r);
  }

  /** A listing names each email once, newest first. */
  lemma ListingOrdered(rows: map<int, Row>, nextId: int, unreadOnly: bool, archivedOnly: bool)
    requires TableInvariant(rows, nextId)
    ensures var emails := Listing(rows, nextId, unreadOnly, archivedOnly);
      && (forall i, j :: 0 <= i < j < |emails| ==> emails[i].id != emails[j].id)
      && (forall i, j :: 0 <= i < j < |emails| ==> LexLe(emails[j].created_at, emails[i].created_at))
  {
    var p := (r: Row) => Where(r, unreadOnly, archivedOnly);
    var scan := TableScan(rows, 1, nextId);
    var filtered := Filter(scan, p);
    TableScanDistinct(rows, 1, nextId);
    FilterDistinct(scan, p);
    OrderByCreatedDescSorted(filtered);
    OrderByCreatedDescDistinct(filtered);
  }

  // ---------------------------------------------------------------------
  // Creating and updating rows

  /** The query parameters of `create_email`. */
  datatype CreateArgs = CreateArgs(
    sender_name: string,
    sender_email: string,
    recipient: string,
    subject: string,
    body: string,
    sender_avatar: Option<string>,
    attachments: Option<string>
  )

  const DefaultAvatar: string := "\U{1F4E7}"

  /** `sender_avatar or "📧"`: a missing or empty avatar falls back to the
      envelope glyph. */
  function AvatarOrDefault(avatar: Option<string>): (r: string)
    ensures avatar.Some? && avatar.value != "" ==> r == avatar.value
    ensures avatar.None? || avatar.value == "" ==> r == DefaultAvatar
    ensures r != ""
  {
    if avatar.Some? && avatar.value != "" then avatar.value else DefaultAvatar
  }

  /** The row the INSERT of `create_email` stores: both flags 0, both
      timestamps the same instant. */
  function NewRow(id: int, args: CreateArgs, now: string, dateTime: string): Row {
    Row(id, args.sender_name, args.sender_email, AvatarOrDefault(args.sender_avatar),
        args.recipient, args.subject, args.body, Preview(args.body), dateTime, 0, 0,
        args.attachments, now, now)
  }

  /** One `column = ?` of the SET clause that `update_email` builds. */
  datatype Assignment =
    | SetIsRead(flag: bool)
    | SetIsArchived(flag: bool)
    | SetSubject(text: string)
    | SetBody(text: string)
    | SetPreview(text: string)
    | SetUpdatedAt(text: string)

  function Assign(r: Row, a: Assignment): Row {
    match a
    case SetIsRead(b) => r.(is_read := FlagValue(b))
    case SetIsArchived(b) => r.(is_archived := FlagValue(b))
    case SetSubject(t) => r.(subject := t)
    case SetBody(t) => r.(body := t)
    case SetPreview(t) => r.(preview := t)
    case SetUpdatedAt(t) => r.(updated_at := t)
  }

  /** Running an UPDATE with the given SET list on one row. */
  function ApplyAll(r: Row, updates: seq<Assignment>): Row
    decreases |updates|
  {
    if updates == [] then r
    else Assign(ApplyAll(r, updates[..|updates| - 1]), updates[|updates| - 1])
  }

  /** The query parameters of `update_email` after the id: each is optional. */
  datatype UpdateArgs = UpdateArgs(
    is_read: Option<bool>,
    is_archived: Option<bool>,
    subject: Option<string>,
    body: Option<string>
  ) {
    predicate AnySupplied() {
      is_read.Some? || is_archived.Some? || subject.Some? || body.Some?
    }
  }

  /** The row `update_email` leaves behind. */
  function UpdatedRow(o: Row, args: UpdateArgs, now: string): Row {
    if !args.AnySupplied() then o
    else o.(
      is_read := if args.is_read.Some? then FlagValue(args.is_read.value) else o.is_read,
      is_archived := if args.is_archived.Some? then FlagValue(args.is_archived.value) else o.is_archived,
      subject := if args.subject.Some? then args.subject.value else o.subject,
      body := if args.body.Some? then args.body.value else o.body,
      preview := if args.body.Some? then Preview(args.body.value) else o.preview,
      updated_at := now)
  }

  /** An update changes the supplied fields, recomputes the preview from a
      supplied body, bumps updated_at only when something was supplied, and
      leaves every other column alone. */
  lemma UpdatedRowFields(o: Row, args: UpdateArgs, now: string)
    ensures var n := UpdatedRow(o, args, now);
      && n.id == o.id && n.sender_name == o.sender_name && n.sender_email == o.sender_email
      && n.sender_avatar == o.sender_avatar && n.recipient == o.recipient
      && n.date_time == o.date_time && n.attachments == o.attachments && n.created_at == o.created_at
      && ToDict(n).is_read == (if args.is_read.Some? then args.is_read.value else ToDict(o).is_read)
      && ToDict(n).is_archived == (if args.is_archived.Some? then args.is_archived.value else ToDict(o).is_archived)
      && n.subject == (if args.subject.Some? then args.subject.value else o.subject)
      && n.body == (if args.body.Some? then args.body.value else o.body)
      && n.preview == (if args.body.Some? then Preview(n.body) else o.preview)
      && n.updated_at == (if args.AnySupplied() then now else o.updated_at)
      && (!args.AnySupplied() ==> n == o)
      && (WellFormed(o) ==> WellFormed(n))
  {
  }

  lemma ApplySnoc(r: Row, updates: seq<Assignment>, u: Assignment)
    ensures ApplyAll(r, updates + [u]) == Assign(ApplyAll(r, updates), u)
  {
    assert (updates + [u])[..|updates|] == updates;
  }

  /** Appending one assignment to the SET list applies it after the others. */
  method Push(updates: seq<Assignment>, u: Assignment, ghost o: Row) returns (r: seq<Assignment>)
    ensures r == updates + [u] && |r| == |updates| + 1
    ensures ApplyAll(o, r) == Assign(ApplyAll(o, updates), u)
  {
    ApplySnoc(o, updates, u);
    r := updates + [u];
  }

  /** The SET list `update_email` builds by successive appends: one
      assignment per supplied field, the preview after a body, and
      updated_at last when the list is not empty. Running it on the stored
      row gives the row the update promises. */
  method BuildUpdates(args: UpdateArgs, now: string, ghost o: Row) returns (updates: seq<Assignment>)
    ensures updates == [] <==> !args.AnySupplied()
    ensures ApplyAll(o, updates) == UpdatedRow(o, args, now)
  {
    updates := [];
    ghost var row := o;
    if args.is_read.Some? {
      updates := Push(updates, SetIsRead(args.is_read.value), o);
      row := row.(is_read := FlagValue(args.is_read.value));
    }
    assert ApplyAll(o, updates) == row;
    if args.is_archived.Some? {
      updates := Push(updates, SetIsArchived(args.is_archived.value), o);
      row := row.(is_archived := FlagValue(args.is_archived.value));
    }
    assert ApplyAll(o, updates) == row;
    if args.subject.Some? {
      updates := Push(updates, SetSubject(args.subject.value), o);
      row := row.(subject := args.subject.value);
    }
    assert ApplyAll(o, updates) == row;
    if args.body.Some? {
      updates := Push(updates, SetBody(args.body.value), o);
      updates := Push(updates, SetPreview(Preview(args.body.value)), o);
      row := row.(body := args.body.value, preview := Preview(args.body.value));
    }
    assert ApplyAll(o, updates) == row;
    assert updates == [] <==> !args.AnySupplied();
    if updates != [] {
      updates := Push(updates, SetUpdatedAt(now), o);
      row := row.(updated_at := now);
    }
  }

  // ---------------------------------------------------------------------
  // Binding query parameters (FastAPI `Query(...)`)

  /** An optional boolean parameter: absent, or one of the two spellings. */
  function OptionalBool(query: seq<Param>, key: string): (r: Result<Option<bool>, HttpError>)
    ensures Lookup(query, key).None? ==> r == Ok(None)
    ensures forall b :: Lookup(query, key) == Some(BoolText(b)) ==> r == Ok(Some(b))
    ensures Lookup(query, key).Some? && Lookup(query, key).value != "true" && Lookup(query, key).value != "false" ==>
      r == Err(Unprocessable)
    ensures r.Ok? && r.value.Some? ==> Lookup(query, key) == Some(BoolText(r.value.value))
  {
    match Lookup(query, key)
    case None => Ok(None)
    case Some(s) => if ParseBool(s).Some? then Ok(Some(ParseBool(s).value)) else Err(Unprocessable)
  }

  /** `get_emails(unread_only: bool = Query(False), archived_only: bool = Query(False))`. */
  function BindList(query: seq<Param>): (r: Result<(bool, bool), HttpError>)
    ensures r.Ok? <==> OptionalBool(query, "unread_only").Ok? && OptionalBool(query, "archived_only").Ok?
    ensures r.Ok? ==> (r.value.0 <==> Lookup(query, "unread_only") == Some("true"))
    ensures r.Ok? ==> (r.value.1 <==> Lookup(query, "archived_only") == Some("true"))
  {
    match (OptionalBool(query, "unread_only"), OptionalBool(query, "archived_only"))
    case (Ok(u), Ok(a)) => Ok((u == Some(true), a == Some(true)))
    case _ => Err(Unprocessable)
  }

  /** The four optional parameters of `update_email`. */
  function BindUpdate(query: seq<Param>): (r: Result<UpdateArgs, HttpError>)
    ensures r.Ok? <==> OptionalBool(query, "is_read").Ok? && OptionalBool(query, "is_archived").Ok?
    ensures r.Ok? ==> r.value.is_read == OptionalBool(query, "is_read").value
    ensures r.Ok? ==> r.value.is_archived == OptionalBool(query, "is_archived").value
    ensures r.Ok? ==> r.value.subject == Lookup(query, "subject") && r.value.body == Lookup(query, "body")
  {
    match (OptionalBool(query, "is_read"), OptionalBool(query, "is_archived"))
    case (Ok(r), Ok(a)) => Ok(UpdateArgs(r, a, Lookup(query, "subject"), Lookup(query, "body")))
    case _ => Err(Unprocessable)
  }

  /** The parameters of `create_email`: five required, two optional. */
  function BindCreate(query: seq<Param>): (r: Result<CreateArgs, HttpError>)
    ensures r.Ok? <==> Lookup(query, "sender_name").Some? && Lookup(query, "sender_email").Some?
                       && Lookup(query, "recipient").Some? && Lookup(query, "subject").Some?
                       && Lookup(query, "body").Some?
    ensures r.Ok? ==>
      && Lookup(query, "sender_name") == Some(r.value.sender_name)
      && Lookup(query, "sender_email") == Some(r.value.sender_email)
      && Lookup(query, "recipient") == Some(r.value.recipient)
      && Lookup(query, "subject") == Some(r.value.subject)
      && Lookup(query, "body") == Some(r.value.body)
      && r.value.sender_avatar == Lookup(query, "sender_avatar")
      && r.value.attachments == Lookup(query, "attachments")
  {
    var name, email, recipient := Lookup(query, "sender_name"), Lookup(query, "sender_email"), Lookup(query, "recipient");
    var subject, body := Lookup(query, "subject"), Lookup(query, "body");
    if name.Some? && email.Some? && recipient.Some? && subject.Some? && body.Some? then
      Ok(CreateArgs(name.value, email.value, recipient.value, subject.value, body.value,
                    Lookup(query, "sender_avatar"), Lookup(query, "attachments")))
    else
      Err(Unprocessable)
  }

  /** What `delete_email` reports: "Email {id} deleted successfully". */
  datatype Deleted = Deleted(id: int)

  /** A newly created email is listed under the All and Unread tabs. */
  lemma CreatedIsListed(rows: map<int, Row>, nextId: int, args: CreateArgs, now: string, dateTime: string)
    requires TableInvariant(rows, nextId)
    ensures var row := NewRow(nextId, args, now, dateTime);
      && TableInvariant(rows[nextId := row], nextId + 1)
      && ToDict(row) in Listing(rows[nextId := row], nextId + 1, false, false)
      && ToDict(row) in Listing(rows[nextId := row], nextId + 1, true, false)
      && ToDict(row) !in Listing(rows[nextId := row], nextId + 1, false, true)
  {
    var row := NewRow(nextId, args, now, dateTime);
    var after := rows[nextId := row];
    assert nextId in after && after[nextId] == row;
    assert Shown(ToDict(after[nextId]), false, false) && Shown(ToDict(after[nextId]), true, false);
    ListingComplete(after, nextId + 1, false, false);
    ListingComplete(after, nextId + 1, true, false);
    ListingSound(after, nextId + 1, false, true);
  }

  /** A deleted email is listed under no tab; the rest of the table still
      meets the invariant. */
  lemma DeletedIsNotListed(rows: map<int, Row>, nextId: int, emailId: int, unreadOnly: bool, archivedOnly: bool)
    requires TableInvariant(rows, nextId)
    ensures TableInvariant(rows - {emailId}, nextId)
    ensures forall e :: e in Listing(rows - {emailId}, nextId, unreadOnly, archivedOnly) ==> e.id != emailId
  {
    ListingFacts(rows - {emailId}, nextId, unreadOnly, archivedOnly);
  }

  // ---------------------------------------------------------------------
  // The table

  class EmailTable {
    var rows: map<int, Row>
    var nextId: int  // the AUTOINCREMENT counter: one above every id ever handed out

    ghost predicate Valid()
      reads this
    {
      TableInvariant(rows, nextId)
    }

    constructor ()
      ensures Valid() && rows == map[] && nextId == 1
    {
      rows := map[];
      nextId := 1;
    }

    /** `GET /emails`: the rows the filter admits, newest first, with their count. */
    method GetEmails(unreadOnly: bool, archivedOnly: bool) returns (emails: seq<Email>, count: int)
      requires Valid()
      ensures count == |emails|
      ensures forall i :: 0 <= i < |emails| ==>
        emails[i].id in rows && emails[i] == ToDict(rows[emails[i].id]) && Shown(emails[i], unreadOnly, archivedOnly)
      ensures forall id :: id in rows && Shown(ToDict(rows[id]), unreadOnly, archivedOnly) ==> ToDict(rows[id]) in emails
      ensures forall i, j :: 0 <= i < j < |emails| ==> emails[i].id != emails[j].id
      ensures forall i, j :: 0 <= i < j < |emails| ==> LexLe(emails[j].created_at, emails[i].created_at)
    {
      ListingFacts(rows, nextId, unreadOnly, archivedOnly);
      emails := Listing(rows, nextId, unreadOnly, archivedOnly);
      count := |emails|;
    }

    /** `GET /emails/{id}`: the stored email, or 404. */
    method GetEmail(emailId: int) returns (r: Result<Email, HttpError>)
      ensures r.Ok? <==> emailId in rows
      ensures r.Ok? ==> r.value == ToDict(rows[emailId])
      ensures r.Err? ==> r.error == NotFound
    {
      if emailId !in rows {
        return Err(NotFound);
      }
      r := Ok(ToDict(rows[emailId]));
    }

    /** `POST /emails`: stores a new unread, unarchived email under a fresh id. */
    method CreateEmail(args: CreateArgs, now: string, dateTime: string) returns (e: Email)
      requires Valid()
      modifies this
      ensures Valid()
      ensures e.id == old(nextId) && e.id !in old(rows) && nextId == old(nextId) + 1
      ensures rows == old(rows)[e.id := NewRow(e.id, args, now, dateTime)]
      ensures e == ToDict(rows[e.id])
      ensures e.sender_name == args.sender_name && e.sender_email == args.sender_email
      ensures e.recipient == args.recipient && e.subject == args.subject && e.body == args.body
      ensures e.preview == Preview(args.body) && e.sender_avatar == AvatarOrDefault(args.sender_avatar)
      ensures e.attachments == args.attachments && e.date_time == dateTime
      ensures !e.is_read && !e.is_archived && e.created_at == now && e.updated_at == now
    {
      var id := nextId;
      rows := rows[id := NewRow(id, args, now, dateTime)];
      nextId := nextId + 1;
      e := ToDict(rows[id]);
    }

    /** `PUT /emails/{id}`: 404 for a missing id; otherwise the supplied
        fields are written in one UPDATE and the stored email returned. */
    method UpdateEmail(emailId: int, args: UpdateArgs, now: string) returns (r: Result<Email, HttpError>)
      requires Valid()
      modifies this
      ensures Valid() && nextId == old(nextId)
      ensures emailId !in old(rows) ==> r == Err(NotFound) && rows == old(rows)
      ensures emailId in old(rows) ==>
        && rows == old(rows)[emailId := UpdatedRow(old(rows)[emailId], args, now)]
        && r == Ok(ToDict(rows[emailId]))
    {
      if emailId !in rows {
        return Err(NotFound);
      }
      var updates := BuildUpdates(args, now, rows[emailId]);
      if updates != [] {
        UpdatedRowFields(rows[emailId], args, now);
        rows := rows[emailId := ApplyAll(rows[emailId], updates)];
      }
      r := Ok(ToDict(rows[emailId]));
    }

    /** `DELETE /emails/{id}`: 404 for a missing id; otherwise the row is gone. */
    method DeleteEmail(emailId: int) returns (r: Result<Deleted, HttpError>)
      requires Valid()
      modifies this
      ensures Valid() && nextId == old(nextId)
      ensures emailId !in old(rows) ==> r == Err(NotFound) && rows == old(rows)
      ensures emailId in old(rows) ==> r == Ok(Deleted(emailId)) && rows == old(rows) - {emailId}
    {
      if emailId !in rows {
        return Err(NotFound);
      }
      rows := rows - {emailId};
      r := Ok(Deleted(emailId));
    }
  }
}
