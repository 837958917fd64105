/**
 * `manage_drafts`: the four draft actions, the arguments each one requires, and
 * the escaping and recipient clauses of a new draft. Every refusal is an exact
 * error string returned before any script is rendered.
 */
module Drafts {
  import opened Wrappers
  import opened Text
  import opened Composition

  const CreateRequired := "Error: 'subject', 'to', and 'body' are required for creating drafts"
  const SendRequired := "Error: 'draft_subject' is required for sending drafts"
  const DeleteRequired := "Error: 'draft_subject' is required for deleting drafts"

  function InvalidDraftAction(action: string): string {
    "Error: Invalid action '" + action + "'. Use: list, create, send, delete"
  }

  /** The values each draft template interpolates. */
  datatype DraftScript =
    | ListDrafts(account: string)
    | CreateDraft(account: string, subject: string, body: string, to: string, ccScript: string, bccScript: string)
    | SendDraft(account: string, draftSubject: string)
    | DeleteDraft(account: string, draftSubject: string)

  /** `manage_drafts` up to running the script. */
  method ManageDrafts(account: string, action: string, subject: Option<string>, to: Option<string>,
                      body: Option<string>, cc: Option<string>, bcc: Option<string>,
                      draftSubject: Option<string>) returns (r: Outcome<DraftScript>)
    ensures action !in {"list", "create", "send", "delete"} ==> r == Refused(InvalidDraftAction(action))
    ensures action == "list" ==> r == Run(ListDrafts(account))
    ensures action == "create" ==> (r.Refused? <==> !(Provided(subject) && Provided(to) && Provided(body)))
    ensures action == "create" && r.Refused? ==> r.message == CreateRequired
    ensures action == "create" && r.Run? ==>
              r.script == CreateDraft(account, Escaped(subject.value), Escaped(body.value), to.value,
                                      Concat(RecipientLines(NewDraft, Cc, cc)),
                                      Concat(RecipientLines(NewDraft, Bcc, bcc)))
    ensures action == "send" ==>
              r == if Provided(draftSubject) then Run(SendDraft(account, draftSubject.value)) else Refused(SendRequired)
    ensures action == "delete" ==>
              r == if Provided(draftSubject) then Run(DeleteDraft(account, draftSubject.value))
                   else Refused(DeleteRequired)
  {
    if action == "list" {
      r := Run(ListDrafts(account));
    } else if action == "create" {
      if !Provided(subject) || !Provided(to) || !Provided(body) {
        return Refused(CreateRequired);
      }
      var escapedSubject := EscapeQuotes(subject.value);
      var escapedBody := EscapeQuotes(body.value);
      var ccScript := RecipientScript(NewDraft, Cc, cc);
      var bccScript := RecipientScript(NewDraft, Bcc, bcc);
      r := Run(CreateDraft(account, escapedSubject, escapedBody, to.value, ccScript, bccScript));
    } else if action == "send" {
      if !Provided(draftSubject) {
        return Refused(SendRequired);
      }
      r := Run(SendDraft(account, draftSubject.value));
    } else if action == "delete" {
      if !Provided(draftSubject) {
        return Refused(DeleteRequired);
      }
      r := Run(DeleteDraft(account, draftSubject.value));
    } else {
      r := Refused(InvalidDraftAction(action));
    }
  }
}
