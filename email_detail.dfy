/** The detail pane: the reply composer (its whitespace guard, the reply it
    posts, and how its state changes with the outcome) and the argument of
    the mark-as-read button. */
module EmailDetail {
  import opened Wrappers
  import opened Text
  import opened Mail
  import opened Wire

  /** The fixed identity a reply is sent from. */
  const ReplySenderName: string := "You"
  const ReplySenderEmail: string := "richard@company.com"
  const ReplyAvatar: string := "\U{1F464}"
  const ReplyPrefix: string := "Re: "

  /** The name/value pairs of a reply, in the order the component lists them. */
  function ReplyParams(email: Email, text: string): seq<Param> {
    [ ("sender_name", ReplySenderName),
      ("sender_email", ReplySenderEmail),
      ("recipient", email.sender_email),
      ("subject", ReplyPrefix + email.subject),
      ("body", text),
      ("sender_avatar", ReplyAvatar) ]
  }

  /** The POST `handleSendReply` issues: the fields go in a form-encoded
      body and the query string is empty. */
  function ReplyRequestAsWritten(email: Email, text: string): Request {
    Request(Post, Collection, [], ReplyParams(email, text))
  }

  /** The POST the server's `create_email` can bind: the same fields in the
      query string. */
  function ReplyRequest(email: Email, text: string): Request {
    Request(Post, Collection, ReplyParams(email, text), [])
  }

  /** The argument the mark-as-read button passes: the negated flag. */
  function MarkAsReadArgument(email: Email): (isRead: bool)
    ensures isRead != email.is_read
  {
    !email.is_read
  }

  class ReplyComposer {
    var showReply: bool
    var replyText: string

    constructor ()
      ensures !showReply && replyText == ""
    {
      showReply := false;
      replyText := "";
    }

    /** The Reply button. */
    method OpenReply()
      modifies this
      ensures showReply && replyText == old(replyText)
    {
      showReply := true;
    }

    /** The close button of the composer; the typed text is kept. */
    method CloseReply()
      modifies this
      ensures !showReply && replyText == old(replyText)
    {
      showReply := false;
    }

    /** Typing in the textarea. */
    method SetReplyText(text: string)
      modifies this
      ensures replyText == text && showReply == old(showReply)
    {
      replyText := text;
    }

    /** `handleSendReply`: a reply that is empty or only whitespace sends
        nothing. Otherwise the reply is posted; a successful response
        clears the text and hides the composer, anything else leaves both
        as they were. */
    method HandleSendReply(email: Email, response: Outcome<Email>) returns (request: Option<Request>)
      modifies this
      ensures AllWhiteSpace(old(replyText)) ==>
        request == None && replyText == old(replyText) && showReply == old(showReply)
      ensures !AllWhiteSpace(old(replyText)) ==> request == Some(ReplyRequest(email, old(replyText)))
      ensures !AllWhiteSpace(old(replyText)) && response.Success? ==> replyText == "" && !showReply
      ensures !response.Success? ==> replyText == old(replyText) && showReply == old(showReply)
    {
      TrimEmptyIff(replyText);
      if Trim(replyText) == "" {
        return None;
      }
      request := Some(ReplyRequest(email, replyText));
      if response.Success? {
        replyText := "";
        showReply := false;
      }
    }
  }
}
