/** The client's state controller: the fetched list, the selection, the
    active filter tab, the loading flag and the search box, and the handlers
    that change them. Every network call is a request the handler returns
    and an outcome it is given. */
module EmailApp {
  import opened Wrappers
  import opened Text
  import opened Seqs
  import opened Mail
  import opened Wire

  /** The three tabs of the list: `'all' | 'unread' | 'archive'`. */
  datatype Tab = All | Unread | Archive

  /** The emails a tab is meant to show. */
  predicate FilterAdmits(f: Tab, e: Email) {
    match f
    case All => !e.is_archived
    case Unread => !e.is_read && !e.is_archived
    case Archive => e.is_archived
  }

  /** The query string of the list request for a tab. */
  function ListQuery(f: Tab): seq<Param> {
    match f
    case All => []
    case Unread => [("unread_only", "true")]
    case Archive => [("archived_only", "true")]
  }

  /** Builds the list query the way `fetchEmails` does, appending to an
      empty `URLSearchParams`. */
  method BuildListParams(f: Tab) returns (params: seq<Param>)
    ensures params == ListQuery(f)
    ensures f == All <==> params == []
  {
    params := [];
    if f == Unread {
      params := params + [("unread_only", "true")];
    }
    if f == Archive {
      params := params + [("archived_only", "true")];
    }
  }

  /** `Partial<{ is_read: boolean; is_archived: boolean }>`. */
  datatype FlagUpdates = FlagUpdates(is_read: Option<bool>, is_archived: Option<bool>)

  /** The query string of an update request: one pair per defined flag. */
  function UpdateQuery(u: FlagUpdates): seq<Param> {
    (if u.is_read.Some? then [("is_read", BoolText(u.is_read.value))] else [])
    + (if u.is_archived.Some? then [("is_archived", BoolText(u.is_archived.value))] else [])
  }

  /** Builds the update query the way `updateEmail` does. */
  method BuildUpdateParams(u: FlagUpdates) returns (params: seq<Param>)
    ensures params == UpdateQuery(u)
    ensures |params| == (if u.is_read.Some? then 1 else 0) + (if u.is_archived.Some? then 1 else 0)
  {
    params := [];
    if u.is_read.Some? {
      params := params + [("is_read", BoolText(u.is_read.value))];
    }
    if u.is_archived.Some? {
      params := params + [("is_archived", BoolText(u.is_archived.value))];
    }
  }

  // ---------------------------------------------------------------------
  // Search

  /** The search box matches an email when its lower-cased text occurs in
      the lower-cased subject, sender name or preview. */
  predicate MatchesSearch(e: Email, query: string) {
    var q := Lower(query);
    Includes(Lower(e.subject), q) || Includes(Lower(e.sender_name), q) || Includes(Lower(e.preview), q)
  }

  /** `filteredEmails`: what the list shows of the fetched emails. */
  function FilteredEmails(emails: seq<Email>, query: string): (r: seq<Email>)
    ensures SubsequenceOf(r, emails)
    ensures forall e :: e in r <==> e in emails && MatchesSearch(e, query)
    ensures forall e :: multiset(r)[e] == if MatchesSearch(e, query) then multiset(emails)[e] else 0
    ensures query == "" ==> r == emails
  {
    var p := (e: Email) => MatchesSearch(e, query);
    FilterIsSubsequence(emails, p);
    FilterMultiset(emails, p);
    assert forall e :: e in Filter(emails, p) <==> e in emails && p(e) by {
      forall e ensures e in Filter(emails, p) <==> e in emails && p(e) {
        FilterMembers(emails, p, e);
      }
    }
    assert query == "" ==> Filter(emails, p) == emails by {
      if query == "" {
        forall i | 0 <= i < |emails| ensures p(emails[i]) {
          EmptyIncluded(Lower(emails[i].subject));
        }
        FilterAll(emails, p);
      }
    }
    Filter(emails, p)
  }

  /** Matching is substring search: the lower-cased query occurs at some
      position of one of the three lower-cased fields. */
  lemma MatchesSearchMeaning(e: Email, query: string)
    ensures MatchesSearch(e, query) <==>
      (exists i :: OccursAt(Lower(e.subject), Lower(query), i))
      || (exists i :: OccursAt(Lower(e.sender_name), Lower(query), i))
      || (exists i :: OccursAt(Lower(e.preview), Lower(query), i))
  {
    IncludesIffOccurs(Lower(e.subject), Lower(query));
    IncludesIffOccurs(Lower(e.sender_name), Lower(query));
    IncludesIffOccurs(Lower(e.preview), Lower(query));
  }

  /** Case does not matter, neither in the query nor in the email: an
      upper-cased query finds the same emails, and an email whose subject,
      sender name and preview are upper-cased is found by the same queries. */
  lemma SearchIgnoresCase(e: Email, query: string)
    ensures MatchesSearch(e, Upper(query)) <==> MatchesSearch(e, query)
    ensures MatchesSearch(e.(subject := Upper(e.subject), sender_name := Upper(e.sender_name),
                             preview := Upper(e.preview)), query)
            <==> MatchesSearch(e, query)
  {
    LowerForgetsCase(query);
    LowerForgetsCase(e.subject);
    LowerForgetsCase(e.sender_name);
    LowerForgetsCase(e.preview);
  }

  // ---------------------------------------------------------------------
  // The state

  /** A snapshot of the controller's state. */
  datatype View = View(
    emails: seq<Email>,
    selected: Option<Email>,
    filter: Tab,
    loading: bool,
    searchQuery: string
  )

  /** The list as a successful fetch leaves it: the response's emails, or
      the old list when the fetch threw. */
  function AfterFetch(emails: seq<Email>, response: Outcome<seq<Email>>): seq<Email> {
    if response.Success? then response.value else emails
  }

  /** `selectedEmail?.id === emailId`. */
  predicate SelectedIs(selected: Option<Email>, emailId: int) {
    selected.Some? && selected.value.id == emailId
  }

  class AppState {
    var emails: seq<Email>
    var selectedEmail: Option<Email>
    var filter: Tab
    var loading: bool
    var searchQuery: string

    function State(): View
      reads this
    {
      View(emails, selectedEmail, filter, loading, searchQuery)
    }

    /** The initial state; the mount effect then calls `FetchEmails`. */
    constructor ()
      ensures State() == View([], None, All, true, "")
    {
      emails := [];
      selectedEmail := None;
      filter := All;
      loading := true;
      searchQuery := "";
    }

    /** What the list pane shows. */
    function VisibleEmails(): (r: seq<Email>)
      reads this
      ensures SubsequenceOf(r, emails)
    {
      FilteredEmails(emails, searchQuery)
    }

    /** `fetchEmails`: GET the list for the active tab. A fetch that throws
        keeps the old list; both ways the loading flag ends false. */
    method FetchEmails(response: Outcome<seq<Email>>) returns (request: Request)
      modifies this
      ensures request == Request(Get, Collection, ListQuery(filter), [])
      ensures State() == old(State()).(emails := AfterFetch(old(emails), response), loading := false)
    {
      loading := true;
      var params := BuildListParams(filter);
      request := Request(Get, Collection, params, []);
      if response.Success? {
        emails := response.value;
      }
      loading := false;
    }

    /** `setFilter` from the list pane; the effect on `[filter]` refetches
        only when the tab actually changes. */
    method ChangeFilter(f: Tab, response: Outcome<seq<Email>>) returns (request: Option<Request>)
      modifies this
      ensures request.Some? <==> f != old(filter)
      ensures request.Some? ==> request.value == Request(Get, Collection, ListQuery(f), [])
      ensures f == old(filter) ==> State() == old(State())
      ensures f != old(filter) ==>
        State() == old(State()).(filter := f, emails := AfterFetch(old(emails), response), loading := false)
    {
      if f == filter {
        return None;
      }
      filter := f;
      var r := FetchEmails(response);
      request := Some(r);
    }

    /** `setSearchQuery` from the header's search box. */
    method SetSearchQuery(q: string)
      modifies this
      ensures State() == old(State()).(searchQuery := q)
    {
      searchQuery := q;
    }

    /** The part of `updateEmail` after the PUT returns. A 2xx response
        refetches the list first; then, only if `seen` (the selection the
        check looks at) has the updated id, the body is read and a readable
        body becomes the selection. A body that fails to read leaves the
        selection as it was, the refetch already under way. A refused or
        failed PUT changes nothing. */
    method CompleteUpdate(emailId: int, seen: Option<Email>, response: PutOutcome<Email>,
                          refetch: Outcome<seq<Email>>) returns (refetchRequest: Option<Request>)
      modifies this
      ensures response.Accepted? ==>
        && refetchRequest == Some(Request(Get, Collection, ListQuery(filter), []))
        && State() == old(State()).(
             emails := AfterFetch(old(emails), refetch), loading := false,
             selected := if SelectedIs(seen, emailId) && response.body.Some? then Some(response.body.value)
                         else old(selectedEmail))
      ensures !response.Accepted? ==> refetchRequest == None && State() == old(State())
    {
      if !response.Accepted? {
        return None;
      }
      var r := FetchEmails(refetch);
      refetchRequest := Some(r);
      if SelectedIs(seen, emailId) && response.body.Some? {
        selectedEmail := Some(response.body.value);
      }
    }

    /** `updateEmail(emailId, updates)`: PUT only the defined flags, then
        complete as above, the check looking at the current selection. */
    method UpdateEmail(emailId: int, updates: FlagUpdates, response: PutOutcome<Email>,
                       refetch: Outcome<seq<Email>>) returns (request: Request, refetchRequest: Option<Request>)
      modifies this
      ensures request == Request(Put, Item(emailId), UpdateQuery(updates), [])
      ensures response.Accepted? ==>
        && refetchRequest == Some(Request(Get, Collection, ListQuery(filter), []))
        && State() == old(State()).(
             emails := AfterFetch(old(emails), refetch), loading := false,
             selected := if SelectedIs(old(selectedEmail), emailId) && response.body.Some? then Some(response.body.value)
                         else old(selectedEmail))
      ensures !response.Accepted? ==> refetchRequest == None && State() == old(State())
    {
      var params := BuildUpdateParams(updates);
      request := Request(Put, Item(emailId), params, []);
      refetchRequest := CompleteUpdate(emailId, selectedEmail, response, refetch);
    }

    /** `handleEmailSelect(email)`: select it, and mark it read on the
        server only when it is unread. The completion of the PUT looks at
        the current selection, which is the clicked email, so a readable
        returned (read) record replaces it. */
    method HandleEmailSelect(email: Email, response: PutOutcome<Email>, refetch: Outcome<seq<Email>>)
      returns (request: Option<Request>, refetchRequest: Option<Request>)
      modifies this
      ensures request.Some? <==> !email.is_read
      ensures request.Some? ==> request.value == Request(Put, Item(email.id), [("is_read", "true")], [])
      ensures email.is_read || !response.Accepted? ==>
        refetchRequest == None && State() == old(State()).(selected := Some(email))
      ensures !email.is_read && response.Accepted? ==>
        && refetchRequest == Some(Request(Get, Collection, ListQuery(filter), []))
        && State() == old(State()).(
             selected := if response.body.Some? then Some(response.body.value) else Some(email),
             emails := AfterFetch(old(emails), refetch), loading := false)
    {
      selectedEmail := Some(email);
      if !email.is_read {
        var r;
        r, refetchRequest := UpdateEmail(email.id, FlagUpdates(Some(true), None), response, refetch);
        request := Some(r);
      } else {
        request, refetchRequest := None, None;
      }
    }

    /** `handleEmailSelect` as the component runs it: the completion of
        `updateEmail` checks the selection captured before the click. When
        another email (or none) was open, the clicked email stays selected
        as it was listed, still unread, although the server has marked it
        read. */
    method HandleEmailSelectAsWritten(email: Email, response: PutOutcome<Email>, refetch: Outcome<seq<Email>>)
      returns (request: Option<Request>, refetchRequest: Option<Request>)
      modifies this
      ensures request.Some? <==> !email.is_read
      ensures request.Some? ==> request.value == Request(Put, Item(email.id), [("is_read", "true")], [])
      ensures email.is_read || !response.Accepted? ==>
        refetchRequest == None && State() == old(State()).(selected := Some(email))
      ensures !email.is_read && response.Accepted? ==>
        && refetchRequest == Some(Request(Get, Collection, ListQuery(filter), []))
        && State() == old(State()).(
             selected := if SelectedIs(old(selectedEmail), email.id) && response.body.Some? then Some(response.body.value)
                         else Some(email),
             emails := AfterFetch(old(emails), refetch), loading := false)
      ensures !email.is_read && response.Accepted? && !SelectedIs(old(selectedEmail), email.id) ==>
        selectedEmail == Some(email) && !selectedEmail.value.is_read
    {
      var captured := selectedEmail;
      selectedEmail := Some(email);
      if !email.is_read {
        var params := BuildUpdateParams(FlagUpdates(Some(true), None));
        request := Some(Request(Put, Item(email.id), params, []));
        refetchRequest := CompleteUpdate(email.id, captured, response, refetch);
      } else {
        request, refetchRequest := None, None;
      }
    }

    /** `handleArchiveEmail(emailId)`: PUT `is_archived=true`; before the
        response arrives a matching selection is cleared. The completion
        then looks at the current selection, so a cleared selection stays
        cleared, any other selection is left alone, and the body is never
        read. */
    method HandleArchiveEmail(emailId: int, response: PutOutcome<Email>, refetch: Outcome<seq<Email>>)
      returns (request: Request, refetchRequest: Option<Request>)
      modifies this
      ensures request == Request(Put, Item(emailId), [("is_archived", "true")], [])
      ensures selectedEmail == if SelectedIs(old(selectedEmail), emailId) then None else old(selectedEmail)
      ensures response.Accepted? ==>
        && refetchRequest == Some(Request(Get, Collection, ListQuery(filter), []))
        && State() == old(State()).(selected := selectedEmail, emails := AfterFetch(old(emails), refetch), loading := false)
      ensures !response.Accepted? ==> refetchRequest == None && State() == old(State()).(selected := selectedEmail)
    {
      var params := BuildUpdateParams(FlagUpdates(None, Some(true)));
      request := Request(Put, Item(emailId), params, []);
      if SelectedIs(selectedEmail, emailId) {
        selectedEmail := None;
      }
      refetchRequest := CompleteUpdate(emailId, selectedEmail, response, refetch);
    }

    /** `handleArchiveEmail` as the component runs it: the completion of
        `updateEmail` checks the selection captured when the handler was
        created, from before the clear. Archiving the open email then
        reopens it, archived, once the PUT succeeds and its body reads. */
    method HandleArchiveEmailAsWritten(emailId: int, response: PutOutcome<Email>, refetch: Outcome<seq<Email>>)
      returns (request: Request, refetchRequest: Option<Request>)
      modifies this
      ensures request == Request(Put, Item(emailId), [("is_archived", "true")], [])
      ensures SelectedIs(old(selectedEmail), emailId) && response.Accepted? && response.body.Some? ==>
        selectedEmail == Some(response.body.value)
      ensures SelectedIs(old(selectedEmail), emailId) && !(response.Accepted? && response.body.Some?) ==>
        selectedEmail == None
      ensures !SelectedIs(old(selectedEmail), emailId) ==> selectedEmail == old(selectedEmail)
      ensures response.Accepted? ==>
        && refetchRequest == Some(Request(Get, Collection, ListQuery(filter), []))
        && State() == old(State()).(
             selected := if !SelectedIs(old(selectedEmail), emailId) then old(selectedEmail)
                         else if response.body.Some? then Some(response.body.value) else None,
             emails := AfterFetch(old(emails), refetch), loading := false)
      ensures !response.Accepted? ==>
        && refetchRequest == None
        && State() == old(State()).(selected := if SelectedIs(old(selectedEmail), emailId) then None else old(selectedEmail))
    {
      var captured := selectedEmail;
      var params := BuildUpdateParams(FlagUpdates(None, Some(true)));
      request := Request(Put, Item(emailId), params, []);
      if SelectedIs(selectedEmail, emailId) {
        selectedEmail := None;
      }
      refetchRequest := CompleteUpdate(emailId, captured, response, refetch);
    }

    /** `handleDeleteEmail(emailId)`: DELETE, and only after a successful
        response refetch and clear a matching selection. */
    method HandleDeleteEmail(emailId: int, response: Outcome<()>, refetch: Outcome<seq<Email>>)
      returns (request: Request, refetchRequest: Option<Request>)
      modifies this
      ensures request == Request(Delete, Item(emailId), [], [])
      ensures response.Success? ==>
        && refetchRequest == Some(Request(Get, Collection, ListQuery(filter), []))
        && State() == old(State()).(
             emails := AfterFetch(old(emails), refetch), loading := false,
             selected := if SelectedIs(old(selectedEmail), emailId) then None else old(selectedEmail))
      ensures !response.Success? ==> refetchRequest == None && State() == old(State())
    {
      request := Request(Delete, Item(emailId), [], []);
      if !response.Success? {
        return request, None;
      }
      var r := FetchEmails(refetch);
      refetchRequest := Some(r);
      if SelectedIs(selectedEmail, emailId) {
        selectedEmail := None;
      }
    }

    /** `onMarkAsRead(isRead)` of the detail pane, shown only while an
        email is selected: update the selected email's read flag. */
    method OnMarkAsRead(isRead: bool, response: PutOutcome<Email>, refetch: Outcome<seq<Email>>)
      returns (request: Request, refetchRequest: Option<Request>)
      requires selectedEmail.Some?
      modifies this
      ensures request == Request(Put, Item(old(selectedEmail).value.id), [("is_read", BoolText(isRead))], [])
      ensures response.Accepted? ==>
        && refetchRequest == Some(Request(Get, Collection, ListQuery(filter), []))
        && State() == old(State()).(
             emails := AfterFetch(old(emails), refetch), loading := false,
             selected := if response.body.Some? then Some(response.body.value) else old(selectedEmail))
      ensures !response.Accepted? ==> refetchRequest == None && State() == old(State())
    {
      request, refetchRequest := UpdateEmail(selectedEmail.value.id, FlagUpdates(Some(isRead), None), response, refetch);
    }
  }
}
