/**
 * The argument handling of the organization tools: splitting the account list,
 * choosing the optional snippets of the mailbox listing, building the reference
 * to a nested destination mailbox, and the filter and action choice of
 * `update_email_status`.
 */
module Organization {
  import opened Wrappers
  import opened Text
  import opened Conditions

  // ---------------------------------------------------------------------------------------
  // list_accounts

  /** `result.split('|') if result else []`. */
  function ListAccounts(result: string): (names: seq<string>)
    ensures names == [] <==> result == ""
    ensures result != "" ==> Join(names, "|") == result && |names| == Count(result, '|') + 1
    ensures forall k :: 0 <= k < |names| ==> '|' !in names[k]
  {
    if result == "" then []
    else
      JoinSplit(result, '|');
      SplitLength(result, '|');
      SplitPiecesFree(result, '|');
      Split(result, '|')
  }

  /** The names the script joins with `|` come back unchanged, as long as no name contains `|`
      and the output is not empty (a single account with an empty name prints nothing). */
  lemma ListAccountsRoundTrip(names: seq<string>)
    requires names != [] && names != [""]
    requires forall k :: 0 <= k < |names| ==> '|' !in names[k]
    ensures ListAccounts(Join(names, "|")) == names
  {
    SplitJoin(names, '|');
    if Join(names, "|") == "" {
      JoinEmpty(names);
    }
  }

  lemma JoinEmpty(names: seq<string>)
    requires names != [] && Join(names, "|") == ""
    ensures names == [""]
  {
  }

  // ---------------------------------------------------------------------------------------
  // list_mailboxes

  /** The message-count snippet spliced after each mailbox name, written for `aMailbox`. */
  const CountScript :=
    "\n"
    + "        try\n"
    + "            set msgCount to count of messages of aMailbox\n"
    + "            set unreadCount to unread count of aMailbox\n"
    + "            set outputText to outputText & \" (\" & msgCount & \" total, \" & unreadCount & \" unread)\"\n"
    + "        on error\n"
    + "            set outputText to outputText & \" (count unavailable)\"\n"
    + "        end try\n"
    + "    "

  const AccountFilterHead := "\n        if accountName is \""
  const AccountFilterTail := "\" then\n    "

  /** The optional snippets of the mailbox listing template. */
  datatype MailboxesScript = MailboxesScript(countScript: string, subCountScript: string,
                                             accountFilter: string, accountFilterEnd: string)

  /** `list_mailboxes` up to running the script. */
  function ListMailboxes(account: Option<string>, includeCounts: bool): (r: MailboxesScript)
    ensures (r.countScript != "") == includeCounts && (r.subCountScript != "") == includeCounts
    ensures includeCounts ==> (r.countScript == CountScript
                            && r.subCountScript == Replace(CountScript, "aMailbox", "subBox"))
    ensures (r.accountFilter != "") == Provided(account) && (r.accountFilterEnd != "") == Provided(account)
    ensures Provided(account) ==> (r.accountFilter == AccountFilterHead + account.value + AccountFilterTail
                                && r.accountFilterEnd == "end if")
  {
    var countScript := if includeCounts then CountScript else "";
    var subCountScript := if includeCounts then Replace(CountScript, "aMailbox", "subBox") else "";
    var accountFilter := if Provided(account) then AccountFilterHead + account.value + AccountFilterTail else "";
    var accountFilterEnd := if Provided(account) then "end if" else "";
    MailboxesScript(countScript, subCountScript, accountFilter, accountFilterEnd)
  }

  // ---------------------------------------------------------------------------------------
  // move_email: the nested destination mailbox

  /** One step of a mailbox reference: `mailbox "<part>" of `. */
  function MailboxRef(part: string): string {
    "mailbox \"" + part + "\" of "
  }

  /** The reference steps for a path, innermost (last) part first. */
  function Nest(parts: seq<string>): string
    decreases |parts|
  {
    if parts == [] then "" else MailboxRef(parts[|parts| - 1]) + Nest(parts[..|parts| - 1])
  }

  /** The reference steps read from the left, independently of the order they are built in:
      step `k` names the part `k` places from the end. */
  function Steps(parts: seq<string>): (steps: seq<string>)
    ensures |steps| == |parts|
    ensures forall k :: 0 <= k < |parts| ==> steps[k] == MailboxRef(parts[|parts| - 1 - k])
    decreases |parts|
  {
    if parts == [] then [] else Steps(parts[1..]) + [MailboxRef(parts[0])]
  }

  /** The first part of the path ends up last, just before `targetAccount`. */
  lemma {:induction false} NestFirstLast(p: string, rest: seq<string>)
    ensures Nest([p] + rest) == Nest(rest) + MailboxRef(p)
    decreases |rest|
  {
    var ps := [p] + rest;
    if rest != [] {
      assert ps[..|ps| - 1] == [p] + rest[..|rest| - 1];
      assert ps[|ps| - 1] == rest[|rest| - 1];
      NestFirstLast(p, rest[..|rest| - 1]);
    } else {
      assert ps[..|ps| - 1] == [];
    }
  }

  /** The reference is the steps in order: one step per part, the last part first. */
  lemma {:induction false} NestIsSteps(parts: seq<string>)
    ensures Nest(parts) == Concat(Steps(parts))
    decreases |parts|
  {
    if parts != [] {
      NestIsSteps(parts[1..]);
      NestFirstLast(parts[0], parts[1..]);
      assert [parts[0]] + parts[1..] == parts;
      ConcatAppend(Steps(parts[1..]), [MailboxRef(parts[0])]);
      assert Concat([MailboxRef(parts[0])]) == MailboxRef(parts[0]);
    }
  }

  lemma NestSingle(p: string)
    ensures Nest([p]) == MailboxRef(p)
  {
    assert [p][..0] == [];
  }

  /** A path without `/` is one part. */
  lemma OnePart(toMailbox: string)
    requires |Split(toMailbox, '/')| <= 1
    ensures '/' !in toMailbox && Split(toMailbox, '/') == [toMailbox]
  {
    SplitLength(toMailbox, '/');
    SplitWithoutSeparator(toMailbox, '/');
  }

  /** `move_email`'s choice between a nested and a top-level destination. */
  method DestinationMailbox(toMailbox: string) returns (dest: string)
    ensures dest == Nest(Split(toMailbox, '/')) + "targetAccount"
    ensures '/' !in toMailbox ==> dest == MailboxRef(toMailbox) + "targetAccount"
  {
    var parts := Split(toMailbox, '/');
    SplitLength(toMailbox, '/');
    if |parts| > 1 {
      dest := NestedMailbox(parts);
    } else {
      OnePart(toMailbox);
      NestSingle(toMailbox);
      dest := MailboxRef(toMailbox) + "targetAccount";
    }
  }

  /** The descending loop that builds a nested destination, last part first. */
  method NestedMailbox(parts: seq<string>) returns (dest: string)
    requires |parts| > 1
    ensures dest == Nest(parts) + "targetAccount"
  {
    var n := |parts|;
    NestStep(parts, n - 1);
    dest := MailboxRef(parts[n - 1]);
    // `j` is one more than the source's index, which runs from n - 2 down to 0
    var j := n - 1;
    while j > 0
      invariant 0 <= j <= n - 1
      invariant dest == Nest(parts[j..])
    {
      var i := j - 1;
      NestStep(parts, i);
      dest := dest + MailboxRef(parts[i]);
      j := i;
    }
    assert parts[0..] == parts;
    dest := dest + "targetAccount";
  }

  /** Taking one more part from the front adds its step at the end. */
  lemma NestStep(parts: seq<string>, i: nat)
    requires i < |parts|
    ensures Nest(parts[i..]) == Nest(parts[i + 1..]) + MailboxRef(parts[i])
    ensures i + 1 == |parts| ==> Nest(parts[i + 1..]) == ""
  {
    NestFirstLast(parts[i], parts[i + 1..]);
    assert [parts[i]] + parts[i + 1..] == parts[i..];
  }

  /** A path with n parts, empty ones included, gives n steps. */
  lemma DestinationSteps(toMailbox: string)
    ensures |Steps(Split(toMailbox, '/'))| == Count(toMailbox, '/') + 1
    ensures Nest(Split(toMailbox, '/')) == Concat(Steps(Split(toMailbox, '/')))
  {
    SplitLength(toMailbox, '/');
    NestIsSteps(Split(toMailbox, '/'));
  }

  // ---------------------------------------------------------------------------------------
  // update_email_status

  /** The status change an action asks for. */
  datatype StatusChange = SetRead(read: bool) | SetFlagged(flagged: bool)

  /** The script line for a change and its report label. */
  function Command(change: StatusChange): string {
    match change
    case SetRead(b) => "set read status of aMessage to " + (if b then "true" else "false")
    case SetFlagged(b) => "set flagged status of aMessage to " + (if b then "true" else "false")
  }

  function Label(change: StatusChange): string {
    match change
    case SetRead(b) => if b then "Marked as read" else "Marked as unread"
    case SetFlagged(b) => if b then "Flagged" else "Unflagged"
  }

  /** The four actions and nothing else. */
  function ActionChange(action: string): (r: Option<StatusChange>)
    ensures r.Some? <==> action in {"mark_read", "mark_unread", "flag", "unflag"}
    ensures r.Some? ==> r.value.SetRead? == (action == "mark_read" || action == "mark_unread")
    ensures r.Some? ==> (((r.value.SetRead? && r.value.read) || (r.value.SetFlagged? && r.value.flagged))
                         <==> (action == "mark_read" || action == "flag"))
  {
    if action == "mark_read" then Some(SetRead(true))
    else if action == "mark_unread" then Some(SetRead(false))
    else if action == "flag" then Some(SetFlagged(true))
    else if action == "unflag" then Some(SetFlagged(false))
    else None
  }

  /** Different changes print different labels, so the report names the action taken. */
  lemma LabelsDistinct(c: StatusChange, d: StatusChange)
    requires c != d
    ensures Label(c) != Label(d)
  {
  }

  function InvalidAction(action: string): string {
    "Error: Invalid action '" + action + "'. Use: mark_read, mark_unread, flag, unflag"
  }

  /** The values the status template interpolates. */
  datatype StatusScript = StatusScript(account: string, mailbox: string, condition: string,
                                       actionScript: string, actionLabel: string, maxUpdates: int)

  /** `update_email_status` up to running the script. */
  method UpdateEmailStatus(account: string, action: string, subjectKeyword: Option<string>, sender: Option<string>,
                           mailbox: string, maxUpdates: int) returns (r: Outcome<StatusScript>)
    ensures r.Refused? <==> ActionChange(action).None?
    ensures r.Refused? ==> r.message == InvalidAction(action)
    ensures r.Run? ==> r.script == StatusScript(account, mailbox, KeywordCondition(subjectKeyword, sender),
                                                Command(ActionChange(action).value), Label(ActionChange(action).value),
                                                maxUpdates)
  {
    var conditions := BuildKeywordConditions(subjectKeyword, sender);
    var condition := ConditionString(conditions);
    var actionScript, actionLabel;
    if action == "mark_read" {
      actionScript, actionLabel := "set read status of aMessage to true", "Marked as read";
    } else if action == "mark_unread" {
      actionScript, actionLabel := "set read status of aMessage to false", "Marked as unread";
    } else if action == "flag" {
      actionScript, actionLabel := "set flagged status of aMessage to true", "Flagged";
    } else if action == "unflag" {
      actionScript, actionLabel := "set flagged status of aMessage to false", "Unflagged";
    } else {
      return Refused(InvalidAction(action));
    }
    r := Run(StatusScript(account, mailbox, condition, actionScript, actionLabel, maxUpdates));
  }
}
