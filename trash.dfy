/**
 * `manage_trash`: emptying the trash, deleting matching messages permanently,
 * and, for every other action, moving matching messages to the trash.
 */
module Trash {
  import opened Wrappers
  import opened Text
  import opened Conditions

  /** The values each trash template interpolates. */
  datatype TrashScript =
    | EmptyTrash(account: string)
    | DeletePermanent(account: string, condition: string, maxDeletes: int)
    | MoveToTrash(account: string, mailbox: string, condition: string, maxDeletes: int)

  /** Which template an action selects: there is no invalid action. */
  function TrashRequest(account: string, action: string, subjectKeyword: Option<string>, sender: Option<string>,
                        mailbox: string, maxDeletes: int): (r: TrashScript)
    ensures r.EmptyTrash? <==> action == "empty_trash"
    ensures r.DeletePermanent? <==> action == "delete_permanent"
    ensures r.account == account
    ensures !r.EmptyTrash? ==> r.condition == KeywordCondition(subjectKeyword, sender) && r.maxDeletes == maxDeletes
    ensures r.MoveToTrash? ==> r.mailbox == mailbox
  {
    if action == "empty_trash" then EmptyTrash(account)
    else if action == "delete_permanent" then
      DeletePermanent(account, KeywordCondition(subjectKeyword, sender), maxDeletes)
    else MoveToTrash(account, mailbox, KeywordCondition(subjectKeyword, sender), maxDeletes)
  }

  /** `manage_trash` up to running the script. */
  method ManageTrash(account: string, action: string, subjectKeyword: Option<string>, sender: Option<string>,
                     mailbox: string, maxDeletes: int) returns (r: TrashScript)
    ensures r == TrashRequest(account, action, subjectKeyword, sender, mailbox, maxDeletes)
  {
    if action == "empty_trash" {
      r := EmptyTrash(account);
    } else if action == "delete_permanent" {
      var conditions := BuildKeywordConditions(subjectKeyword, sender);
      var condition := ConditionString(conditions);
      r := DeletePermanent(account, condition, maxDeletes);
    } else {
      var conditions := BuildKeywordConditions(subjectKeyword, sender);
      var condition := ConditionString(conditions);
      r := MoveToTrash(account, mailbox, condition, maxDeletes);
    }
  }

  /** Emptying the trash depends on the account alone. */
  lemma EmptyTrashOnlyAccount(account: string, s1: Option<string>, f1: Option<string>, m1: string, d1: int,
                              s2: Option<string>, f2: Option<string>, m2: string, d2: int)
    ensures TrashRequest(account, "empty_trash", s1, f1, m1, d1) == TrashRequest(account, "empty_trash", s2, f2, m2, d2)
  {
  }

  /** Permanent deletion does not look at the mailbox argument. */
  lemma DeletePermanentIgnoresMailbox(account: string, subjectKeyword: Option<string>, sender: Option<string>,
                                      m1: string, m2: string, maxDeletes: int)
    ensures TrashRequest(account, "delete_permanent", subjectKeyword, sender, m1, maxDeletes)
         == TrashRequest(account, "delete_permanent", subjectKeyword, sender, m2, maxDeletes)
  {
  }
}
