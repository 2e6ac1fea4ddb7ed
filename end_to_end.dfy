/** What the client's requests mean to the server: the query strings the
    client builds bind to the parameters the routes declare, and the
    records the routes then store and list are the ones the client's
    actions are meant to produce. */
module EndToEnd {
  import opened Wrappers
  import opened Mail
  import opened Wire
  import opened EmailRoutes
  import opened EmailApp
  import opened EmailDetail

  /** The list query of a tab binds on the server to the flags whose
      listing holds exactly the emails the tab is meant to show. */
  lemma ListQuerySelectsTab(f: Tab, e: Email)
    ensures BindList(ListQuery(f)).Ok?
    ensures var flags := BindList(ListQuery(f)).value;
      EmailRoutes.Shown(e, flags.0, flags.1) <==> FilterAdmits(f, e)
  {
    LookupMeaning(ListQuery(f), "unread_only");
    LookupMeaning(ListQuery(f), "archived_only");
  }

  /** The server reads back exactly the flags the client defined, and no
      subject or body. */
  lemma UpdateQueryBinds(u: FlagUpdates)
    ensures BindUpdate(UpdateQuery(u)) == Ok(UpdateArgs(u.is_read, u.is_archived, None, None))
  {
    var q := UpdateQuery(u);
    LookupMeaning(q, "subject");
    LookupMeaning(q, "body");
    LookupMeaning(q, "is_read");
    LookupMeaning(q, "is_archived");
    if u.is_read.Some? {
      BoolTextRoundTrip(u.is_read.value);
      LookupAt(q, 0, "is_read");
    }
    if u.is_archived.Some? {
      BoolTextRoundTrip(u.is_archived.value);
      LookupAt(q, |q| - 1, "is_archived");
    }
  }

  /** The reply the composer posts carries its fields in the body, but
      `create_email` reads them from the query string: every reply is
      answered 422 and nothing is stored. */
  lemma ReplyAsWrittenIsRejected(email: Email, text: string)
    ensures var request := ReplyRequestAsWritten(email, text);
      && Lookup(request.form, "subject") == Some(ReplyPrefix + email.subject)
      && BindCreate(request.query) == Err(Unprocessable)
      && BindCreate(request.query).error.Status() == 422
  {
    ReplyMessageLookup(email, text);
  }

  /** Sent in the query string, a reply is stored as a new unread email
      from the fixed sender to the original sender, its subject the
      original's with "Re: " in front and its body the typed text. */
  lemma ReplyIsStoredAsAddressed(email: Email, text: string, id: int, now: string, dateTime: string)
    ensures BindCreate(ReplyRequest(email, text).query).Ok?
    ensures var stored := ToDict(NewRow(id, BindCreate(ReplyRequest(email, text).query).value, now, dateTime));
      && stored.subject == ReplyPrefix + email.subject
      && stored.recipient == email.sender_email
      && stored.sender_name == ReplySenderName && stored.sender_email == ReplySenderEmail
      && stored.sender_avatar == ReplyAvatar
      && stored.body == text && stored.preview == Preview(text)
      && !stored.is_read && !stored.is_archived
  {
    ReplySenderLookup(email, text);
    ReplyMessageLookup(email, text);
  }

  /** The server finds the fixed sender fields of a reply under their own
      names, and no attachments. */
  lemma ReplySenderLookup(email: Email, text: string)
    ensures Lookup(ReplyParams(email, text), "sender_name") == Some(ReplySenderName)
    ensures Lookup(ReplyParams(email, text), "sender_email") == Some(ReplySenderEmail)
    ensures Lookup(ReplyParams(email, text), "sender_avatar") == Some(ReplyAvatar)
    ensures Lookup(ReplyParams(email, text), "attachments") == None
  {
    var p := ReplyParams(email, text);
    LookupAt(p, 1, "sender_email");
    LookupAt(p, 5, "sender_avatar");
    LookupMeaning(p, "attachments");
  }

  /** The server finds the recipient, subject and body of a reply under
      their own names. */
  lemma ReplyMessageLookup(email: Email, text: string)
    ensures Lookup(ReplyParams(email, text), "recipient") == Some(email.sender_email)
    ensures Lookup(ReplyParams(email, text), "subject") == Some(ReplyPrefix + email.subject)
    ensures Lookup(ReplyParams(email, text), "body") == Some(text)
  {
    var p := ReplyParams(email, text);
    LookupAt(p, 2, "recipient");
    LookupAt(p, 3, "subject");
    LookupAt(p, 4, "body");
  }

  /** The first pair carrying a key gives its value. */
  lemma {:induction false} LookupAt(params: seq<Param>, n: nat, key: string)
    requires n < |params| && params[n].0 == key
    requires forall i :: 0 <= i < n ==> params[i].0 != key
    ensures Lookup(params, key) == Some(params[n].1)
  {
    if n > 0 {
      LookupAt(params[1..], n - 1, key);
    }
  }

  /** Pressing mark-as-read twice, each time on the record the server
      returned, restores the original read flag; the row differs from the
      original only in its updated_at. */
  lemma MarkAsReadTwiceRestores(row: Row, firstAt: string, secondAt: string)
    requires WellFormed(row)
    ensures forall b :: BindUpdate(UpdateQuery(FlagUpdates(Some(b), None))) == Ok(UpdateArgs(Some(b), None, None, None))
    ensures var once := UpdatedRow(row, BindUpdate(UpdateQuery(FlagUpdates(Some(MarkAsReadArgument(ToDict(row))), None))).value, firstAt);
      var twice := UpdatedRow(once, BindUpdate(UpdateQuery(FlagUpdates(Some(MarkAsReadArgument(ToDict(once))), None))).value, secondAt);
      && ToDict(once).is_read == !ToDict(row).is_read
      && twice == row.(updated_at := secondAt)
  {
    forall b {
      UpdateQueryBinds(FlagUpdates(Some(b), None));
    }
    var once := UpdatedRow(row, UpdateArgs(Some(MarkAsReadArgument(ToDict(row))), None, None, None), firstAt);
  }

  /** After the archive request, the row leaves the All and Unread tabs
      and appears under Archive. */
  lemma ArchiveMovesToArchiveTab(row: Row, now: string)
    requires WellFormed(row)
    ensures BindUpdate(UpdateQuery(FlagUpdates(None, Some(true)))).Ok?
    ensures var archived := ToDict(UpdatedRow(row, BindUpdate(UpdateQuery(FlagUpdates(None, Some(true)))).value, now));
      && FilterAdmits(Archive, archived) && !FilterAdmits(All, archived) && !FilterAdmits(Unread, archived)
      && archived.is_read == ToDict(row).is_read
  {
    UpdateQueryBinds(FlagUpdates(None, Some(true)));
  }
}
