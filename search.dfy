/**
 * The argument handling of the search tools: the filter condition of
 * `search_emails`, its optional content snippet, the choice between searching
 * one mailbox and every mailbox (also made by `get_email_with_content`), and the
 * removal of reply and forward prefixes from the keyword of `get_email_thread`.
 */
module Search {
  import opened Wrappers
  import opened Text
  import opened Conditions

  // ---------------------------------------------------------------------------------------
  // search_emails: the condition

  const WithAttachments := "(count of mail attachments of aMessage) > 0"
  const WithoutAttachments := "(count of mail attachments of aMessage) = 0"
  const IsRead := "messageRead is true"
  const IsUnread := "messageRead is false"

  /** The attachment clause: none when the filter is `None`. */
  function AttachmentClauses(hasAttachments: Option<bool>): (cs: seq<string>)
    ensures hasAttachments.None? <==> cs == []
    ensures hasAttachments == Some(true) ==> cs == [WithAttachments]
    ensures hasAttachments == Some(false) ==> cs == [WithoutAttachments]
    ensures Clauses(cs)
  {
    assert WithAttachments[0] == '(' && WithoutAttachments[0] == '(';
    match hasAttachments
    case None => []
    case Some(b) => [if b then WithAttachments else WithoutAttachments]
  }

  /** The read-status clause: only `"read"` and `"unread"` give one. */
  function ReadClauses(readStatus: string): (cs: seq<string>)
    ensures cs == [] <==> readStatus != "read" && readStatus != "unread"
    ensures readStatus == "read" ==> cs == [IsRead]
    ensures readStatus == "unread" ==> cs == [IsUnread]
    ensures Clauses(cs)
  {
    assert IsRead[0] == 'm' && IsUnread[0] == 'm';
    if readStatus == "read" then [IsRead] else if readStatus == "unread" then [IsUnread] else []
  }

  /** The clauses of the given filters in the fixed order subject, sender, attachments, read
      status. */
  function SearchClauses(subjectKeyword: Option<string>, sender: Option<string>, hasAttachments: Option<bool>,
                         readStatus: string): seq<string> {
    KeywordClauses(subjectKeyword, sender) + AttachmentClauses(hasAttachments) + ReadClauses(readStatus)
  }

  /** The appending builder of `search_emails`. */
  method BuildSearchConditions(subjectKeyword: Option<string>, sender: Option<string>, hasAttachments: Option<bool>,
                               readStatus: string) returns (conditions: seq<string>)
    ensures conditions == SearchClauses(subjectKeyword, sender, hasAttachments, readStatus)
    ensures |conditions| == (if Provided(subjectKeyword) then 1 else 0) + (if Provided(sender) then 1 else 0)
                          + (if hasAttachments.Some? then 1 else 0)
                          + (if readStatus == "read" || readStatus == "unread" then 1 else 0)
  {
    conditions := [];
    if Provided(subjectKeyword) {
      conditions := conditions + [SubjectClause(subjectKeyword.value)];
    }
    if Provided(sender) {
      conditions := conditions + [SenderClause(sender.value)];
    }
    assert conditions == KeywordClauses(subjectKeyword, sender);
    if hasAttachments.Some? {
      if hasAttachments.value {
        conditions := conditions + [WithAttachments];
      } else {
        conditions := conditions + [WithoutAttachments];
      }
    }
    assert conditions == KeywordClauses(subjectKeyword, sender) + AttachmentClauses(hasAttachments);
    if readStatus == "read" {
      conditions := conditions + [IsRead];
    } else if readStatus == "unread" {
      conditions := conditions + [IsUnread];
    }
  }

  /** The condition is `true` exactly when no filter is given. */
  function SearchCondition(subjectKeyword: Option<string>, sender: Option<string>, hasAttachments: Option<bool>,
                           readStatus: string): (r: string)
    ensures r == "true" <==> !Provided(subjectKeyword) && !Provided(sender) && hasAttachments.None?
                             && readStatus != "read" && readStatus != "unread"
  {
    var ks := KeywordClauses(subjectKeyword, sender);
    var cs := SearchClauses(subjectKeyword, sender, hasAttachments, readStatus);
    ClausesAppend(ks, AttachmentClauses(hasAttachments));
    ClausesAppend(ks + AttachmentClauses(hasAttachments), ReadClauses(readStatus));
    ConditionTrueIff(cs);
    ConditionString(cs)
  }

  // ---------------------------------------------------------------------------------------
  // search_emails: content and mailbox selection

  /** The snippet that appends a content preview of each match. */
  const ContentScript :=
    "\n"
    + "        try\n"
    + "            set msgContent to content of aMessage\n"
    + "            set AppleScript's text item delimiters to {{return, linefeed}}\n"
    + "            set contentParts to text items of msgContent\n"
    + "            set AppleScript's text item delimiters to \" \"\n"
    + "            set cleanText to contentParts as string\n"
    + "            set AppleScript's text item delimiters to \"\"\n"
    + "\n"
    + "            if length of cleanText > 300 then\n"
    + "                set contentPreview to text 1 thru 300 of cleanText & \"...\"\n"
    + "            else\n"
    + "                set contentPreview to cleanText\n"
    + "            end if\n"
    + "\n"
    + "            set outputText to outputText & \"   Content: \" & contentPreview & return\n"
    + "        on error\n"
    + "            set outputText to outputText & \"   Content: [Not available]\" & return\n"
    + "        end try\n"
    + "    "

  function ContentSnippet(includeContent: bool): (r: string)
    ensures r == "" <==> !includeContent
    ensures includeContent ==> r == ContentScript
  {
    if includeContent then ContentScript else ""
  }

  /** Which mailboxes a search goes through: every mailbox of the account, or the named one
      (the template itself falls back from `INBOX` to `Inbox`). */
  datatype MailboxScope = AllMailboxes | OneMailbox(name: string)

  function SelectMailboxes(mailbox: string): (r: MailboxScope)
    ensures r == AllMailboxes <==> mailbox == "All"
    ensures r.OneMailbox? ==> r.name == mailbox
  {
    if mailbox == "All" then AllMailboxes else OneMailbox(mailbox)
  }

  /** The values the search template interpolates. */
  datatype SearchScript = SearchScript(account: string, mailbox: string, scope: MailboxScope, condition: string,
                                       content: string, maxResults: int)

  /** `search_emails` up to running the script. The date arguments are accepted but not used. */
  method SearchEmails(account: string, mailbox: string, subjectKeyword: Option<string>, sender: Option<string>,
                      hasAttachments: Option<bool>, readStatus: string, dateFrom: Option<string>,
                      dateTo: Option<string>, includeContent: bool, maxResults: int) returns (r: SearchScript)
    ensures r == SearchScript(account, mailbox, SelectMailboxes(mailbox),
                              SearchCondition(subjectKeyword, sender, hasAttachments, readStatus),
                              ContentSnippet(includeContent), maxResults)
  {
    var conditions := BuildSearchConditions(subjectKeyword, sender, hasAttachments, readStatus);
    var condition := ConditionString(conditions);
    var content := if includeContent then ContentScript else "";
    var scope := if mailbox == "All" then AllMailboxes else OneMailbox(mailbox);
    r := SearchScript(account, mailbox, scope, condition, content, maxResults);
  }

  /** `get_email_with_content`: the mailboxes searched and the location shown in the header. */
  function ContentSearchTarget(mailbox: string): (r: (MailboxScope, string))
    ensures r.0 == SelectMailboxes(mailbox)
    ensures r.1 == if mailbox == "All" then "all mailboxes" else mailbox
  {
    if mailbox == "All" then (AllMailboxes, "all mailboxes") else (OneMailbox(mailbox), mailbox)
  }

  // ---------------------------------------------------------------------------------------
  // get_email_thread: the keyword

  const ThreadPrefixes: seq<Pattern> := ["Re:", "Fwd:", "FW:", "RE:", "Fw:"]

  /** A pattern `str.replace` can remove: never empty. */
  type Pattern = p: string | p != [] witness "?"

  /** One pass per prefix, in order: remove every occurrence, then strip. */
  function CleanWith(s: string, prefixes: seq<Pattern>): string
    decreases |prefixes|
  {
    if prefixes == [] then s else CleanWith(Strip(Replace(s, prefixes[0], "")), prefixes[1..])
  }

  function ThreadKeyword(keyword: string): string {
    CleanWith(keyword, ThreadPrefixes)
  }

  lemma ThreadPrefixesNonEmpty()
    ensures |ThreadPrefixes| == 5
    ensures ThreadPrefixes[0] == "Re:"
  {
  }

  /** The loop of `get_email_thread` over the prefixes. */
  method CleanThreadKeyword(keyword: string) returns (cleaned: string)
    ensures cleaned == ThreadKeyword(keyword)
    ensures |cleaned| <= |keyword|
    ensures cleaned != [] ==> !IsSpace(cleaned[0]) && !IsSpace(cleaned[|cleaned| - 1])
  {
    ThreadPrefixesNonEmpty();
    cleaned := RemovePrefixes(keyword, ThreadPrefixes);
    CleanWithShorter(keyword, ThreadPrefixes);
    CleanWithStripped(keyword, ThreadPrefixes);
  }

  method RemovePrefixes(keyword: string, prefixes: seq<Pattern>) returns (cleaned: string)
    ensures cleaned == CleanWith(keyword, prefixes)
  {
    cleaned := keyword;
    for i := 0 to |prefixes|
      invariant CleanWith(cleaned, prefixes[i..]) == CleanWith(keyword, prefixes)
    {
      assert prefixes[i..][1..] == prefixes[i + 1..];
      cleaned := Strip(Replace(cleaned, prefixes[i], ""));
    }
    assert prefixes[|prefixes|..] == [];
  }

  /** Cleaning never lengthens the keyword. */
  lemma {:induction false} CleanWithShorter(s: string, prefixes: seq<Pattern>)
    ensures |CleanWith(s, prefixes)| <= |s|
    decreases |prefixes|
  {
    if prefixes != [] {
      CleanWithShorter(Strip(Replace(s, prefixes[0], "")), prefixes[1..]);
    }
  }

  /** After at least one pass there is no whitespace at either end. */
  lemma {:induction false} CleanWithStripped(s: string, prefixes: seq<Pattern>)
    requires prefixes != []
    ensures var r := CleanWith(s, prefixes); r != [] ==> !IsSpace(r[0]) && !IsSpace(r[|r| - 1])
    decreases |prefixes|
  {
    var t := Strip(Replace(s, prefixes[0], ""));
    assert CleanWith(s, prefixes) == CleanWith(t, prefixes[1..]);
    if |prefixes| > 1 {
      CleanWithStripped(t, prefixes[1..]);
    } else {
      assert prefixes[1..] == [];
      assert CleanWith(t, []) == t;
    }
  }

  /** `s` contains none of the prefixes. */
  predicate FreeOf(s: string, prefixes: seq<Pattern>) {
    forall k :: 0 <= k < |prefixes| ==> !Contains(s, prefixes[k])
  }

  /** A keyword with none of the prefixes and nothing to strip is left as it is. */
  lemma {:induction false} CleanWithUnchanged(s: string, prefixes: seq<Pattern>)
    requires s != [] ==> !IsSpace(s[0]) && !IsSpace(s[|s| - 1])
    requires FreeOf(s, prefixes)
    ensures CleanWith(s, prefixes) == s
    decreases |prefixes|
  {
    if prefixes != [] {
      StripUnchanged(s);
      CleanWithUnchanged(s, prefixes[1..]);
    }
  }

  lemma ThreadKeywordUnchanged(keyword: string)
    requires keyword != [] ==> !IsSpace(keyword[0]) && !IsSpace(keyword[|keyword| - 1])
    requires FreeOf(keyword, ThreadPrefixes)
    ensures ThreadKeyword(keyword) == keyword
  {
    CleanWithUnchanged(keyword, ThreadPrefixes);
  }

  /** A reply subject loses its `Re: ` prefix: `"Re: " + s` cleans to `s`. */
  lemma ReplyPrefixDropped(s: string)
    requires s != [] && !IsSpace(s[0]) && !IsSpace(s[|s| - 1])
    requires FreeOf(s, ThreadPrefixes)
    ensures ThreadKeyword("Re: " + s) == s
  {
    ThreadPrefixesNonEmpty();
    LeadingReplyDropped(s, ThreadPrefixes);
  }

  /** The reply subject `Re: Project Update` cleans to `Project Update`. */
  lemma ProjectUpdateThread(s: string)
    requires s == "Project Update"
    ensures ThreadKeyword("Re: " + s) == s
  {
    ThreadPrefixesNonEmpty();
    forall k | 0 <= k < |ThreadPrefixes| ensures !Contains(s, ThreadPrefixes[k]) {
      ColonFree(s, ThreadPrefixes[k]);
    }
    assert s[0] == 'P' && s[|s| - 1] == 'e';
    ReplyPrefixDropped(s);
  }

  /** Every prefix ends in a colon, so a keyword without one contains none. */
  lemma ColonFree(s: string, p: Pattern)
    requires ':' !in s && p in ThreadPrefixes
    ensures !Contains(s, p)
  {
    assert p[|p| - 1] == ':';
    MissingChar(s, p, ':');
  }

  lemma LeadingReplyDropped(s: string, prefixes: seq<Pattern>)
    requires prefixes != [] && prefixes[0] == "Re:"
    requires s != [] && !IsSpace(s[0]) && !IsSpace(s[|s| - 1])
    requires FreeOf(s, prefixes)
    ensures CleanWith("Re: " + s, prefixes) == s
  {
    var x := "Re: " + s;
    assert !Contains(s, prefixes[0]);
    ReplyReplaced(s, prefixes[0]);
    assert " " + s + "" == " " + s;
    StripPadded(" ", s, "");
    FirstPassOnly(x, s, prefixes);
  }

  /** When the first pass already leaves a clean keyword free of every prefix, the later
      passes change nothing. */
  lemma FirstPassOnly(x: string, s: string, prefixes: seq<Pattern>)
    requires prefixes != []
    requires Strip(Replace(x, prefixes[0], "")) == s
    requires s != [] ==> !IsSpace(s[0]) && !IsSpace(s[|s| - 1])
    requires FreeOf(s, prefixes)
    ensures CleanWith(x, prefixes) == s
  {
    var rest := prefixes[1..];
    forall k | 0 <= k < |rest| ensures !Contains(s, rest[k]) {
      assert rest[k] == prefixes[k + 1];
    }
    CleanWithUnchanged(s, rest);
  }

  lemma ReplyReplaced(s: string, pat: string)
    requires pat == "Re:" && !Contains(s, pat)
    ensures Replace("Re: " + s, pat, "") == " " + s
  {
    var x := "Re: " + s;
    var y := " " + s;
    assert pat <= x;
    assert x[3..] == y;
    assert !(pat <= y) by {
      assert y[0] == ' ';
    }
    assert y[1..] == s;
  }

  /** A keyword that lacks a character of `t` cannot contain `t`. */
  lemma {:induction false} MissingChar(s: string, t: string, c: char)
    requires c in t && c !in s
    ensures !Contains(s, t)
    decreases |s|
  {
    if s != [] {
      MissingChar(s[1..], t, c);
    }
  }

  /** Removing a prefix can bring another copy of it together: the cleaned keyword may still
      contain a prefix. */
  lemma PrefixCanSurvive(x: string)
    requires x == "FFw:w:"
    ensures ThreadKeyword(x) == "Fw:"
    ensures Contains(ThreadKeyword(x), ThreadPrefixes[4])
  {
    ThreadPrefixesNonEmpty();
    var prefixes := ThreadPrefixes;
    FirstFourSkipped(x, prefixes);
    FwJoined(x, prefixes[4]);
    FwStripped("Fw:");
    SinglePass(x, prefixes[4], "Fw:");
    assert prefixes[4..] == [prefixes[4]];
    assert prefixes[4] <= "Fw:";
  }

  /** A single pass that leaves a stripped result. */
  lemma SinglePass(x: string, p: Pattern, y: string)
    requires Replace(x, p, "") == y && Strip(y) == y
    ensures CleanWith(x, [p]) == y
  {
    assert [p][1..] == [];
  }

  lemma FwStripped(y: string)
    requires y == "Fw:"
    ensures Strip(y) == y
  {
    assert y[0] == 'F' && y[2] == ':';
    StripUnchanged(y);
  }

  lemma FirstFourSkipped(x: string, prefixes: seq<Pattern>)
    requires x == "FFw:w:" && prefixes == ThreadPrefixes
    ensures CleanWith(x, prefixes) == CleanWith(x, prefixes[4..])
  {
    ThreadPrefixesNonEmpty();
    MissingChar(x, prefixes[0], 'R');
    MissingChar(x, prefixes[1], 'd');
    MissingChar(x, prefixes[2], 'W');
    MissingChar(x, prefixes[3], 'R');
    StripUnchanged(x);
    CleanWithSkips(x, prefixes, 4);
  }

  /** `"FFw:w:".replace("Fw:", "")` is `"Fw:"`. */
  lemma FwJoined(x: string, pat: Pattern)
    requires x == "FFw:w:" && pat == "Fw:"
    ensures Replace(x, pat, "") == "Fw:"
  {
    assert !(pat <= x) by {
      assert x[1] == 'F';
    }
    var t := x[1..];
    assert t == "Fw:w:";
    assert pat <= t;
    var u := t[3..];
    assert u == "w:";
    assert Replace(u, pat, "") == u;
    assert Replace(t, pat, "") == "" + Replace(u, pat, "");
    assert Replace(x, pat, "") == [x[0]] + Replace(t, pat, "");
  }

  /** Passes for prefixes the keyword lacks change nothing when it is already stripped. */
  lemma {:induction false} CleanWithSkips(x: string, prefixes: seq<Pattern>, n: nat)
    requires n <= |prefixes|
    requires x != [] ==> !IsSpace(x[0]) && !IsSpace(x[|x| - 1])
    requires forall k :: 0 <= k < n ==> !Contains(x, prefixes[k])
    ensures CleanWith(x, prefixes) == CleanWith(x, prefixes[n..])
    decreases n
  {
    if n > 0 {
      StripUnchanged(x);
      var rest := prefixes[1..];
      assert rest[n - 1..] == prefixes[n..];
      forall k | 0 <= k < n - 1 ensures !Contains(x, rest[k]) {
        assert rest[k] == prefixes[k + 1];
      }
      CleanWithSkips(x, prefixes[1..], n - 1);
    }
  }
}
