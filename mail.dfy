/** The email record as the server returns it and the client holds it: the
    JSON object with fourteen fields that both sides share. */
module Mail {
  import opened Wrappers

  datatype Email = Email(
    id: int,
    sender_name: string,
    sender_email: string,
    sender_avatar: string,
    recipient: string,
    subject: string,
    body: string,
    preview: string,
    date_time: string,
    is_read: bool,
    is_archived: bool,
    attachments: Option<string>,  // a file name, or null
    created_at: string,
    updated_at: string
  )
}
