/**
 * The argument handling of the analytics tools: decoding the per-account unread
 * counts that the `get_unread_count` script prints, the date-window filter of
 * `get_statistics`, and the scope checks of `get_statistics` and `export_emails`
 * that answer with an error text before any script runs.
 *
 * A rendered script is kept abstract: the datatypes below record which template
 * is selected and the values interpolated into it.
 */
module Analytics {
  import opened Wrappers
  import opened Text

  // ---------------------------------------------------------------------------------------
  // get_unread_count

  /** The value one `account:count` item carries: `-1` for the script's `ERROR`, the number for
      a decimal count; `None` where `int()` raises. */
  function DecodeCount(count: string): (r: Option<int>)
    ensures r.Some? <==> (count == "ERROR" || IsDigits(count))
    ensures count == "ERROR" ==> r == Some(-1)
    ensures IsDigits(count) ==> r == Some(DigitsValue(count) as int)
  {
    if count == "ERROR" then Some(-1)
    else match DecimalValue(count)
      case Some(n) => Some(n as int)
      case None => None
  }

  /** The item names an account: it contains a `:` and `account` is the text before the first one. */
  predicate Keyed(item: string, account: string) {
    ':' in item && SplitOnce(item, ':').0 == account
  }

  /** The item has a `:` but its count is neither `ERROR` nor decimal, so `int()` raises. */
  predicate Malformed(item: string) {
    ':' in item && DecodeCount(SplitOnce(item, ':').1).None?
  }

  /** The loop over the `|`-separated items, from the dictionary built so far: items without a
      `:` are passed over, the others set their account's entry; `None` once `int()` raises. */
  function Tally(counts: map<string, int>, items: seq<string>): Option<map<string, int>>
    decreases |items|
  {
    if items == [] then Some(counts)
    else if ':' !in items[0] then Tally(counts, items[1..])
    else
      var (account, count) := SplitOnce(items[0], ':');
      match DecodeCount(count)
      case None => None
      case Some(v) => Tally(counts[account := v], items[1..])
  }

  /** The dictionary `get_unread_count` returns for the script output `result`. */
  function UnreadCounts(result: string): Option<map<string, int>> {
    Tally(map[], Split(result, '|'))
  }

  /** The decoding loop of `get_unread_count`. */
  method GetUnreadCount(result: string) returns (counts: Option<map<string, int>>)
    ensures counts == UnreadCounts(result)
  {
    var items := Split(result, '|');
    var acc: map<string, int> := map[];
    for i := 0 to |items|
      invariant Tally(acc, items[i..]) == UnreadCounts(result)
    {
      assert items[i..][1..] == items[i + 1..];
      var item := items[i];
      if ':' in item {
        var (account, count) := SplitOnce(item, ':');
        if count != "ERROR" {
          var value := DecimalValue(count);
          if value.None? {
            return None;
          }
          acc := acc[account := value.value];
        } else {
          acc := acc[account := -1];
        }
      }
    }
    assert items[|items|..] == [];
    return Some(acc);
  }

  /** Decoding fails exactly when some item has a `:` and a count `int()` rejects. */
  lemma {:induction false} TallyFails(counts: map<string, int>, items: seq<string>)
    ensures Tally(counts, items).None? <==> exists k :: 0 <= k < |items| && Malformed(items[k])
    decreases |items|
  {
    if items != [] {
      var rest := items[1..];
      if ':' in items[0] {
        var (account, count) := SplitOnce(items[0], ':');
        if DecodeCount(count).Some? {
          TallyFails(counts[account := DecodeCount(count).value], rest);
        }
      } else {
        TallyFails(counts, rest);
      }
      if exists k :: 0 <= k < |rest| && Malformed(rest[k]) {
        var k :| 0 <= k < |rest| && Malformed(rest[k]);
        assert Malformed(items[k + 1]);
      }
      if exists k :: 0 <= k < |items| && Malformed(items[k]) {
        var k :| 0 <= k < |items| && Malformed(items[k]);
        if k > 0 {
          assert Malformed(rest[k - 1]);
        }
      }
    }
  }

  /** The accounts of a decoded dictionary are those already present and those the items name. */
  lemma {:induction false} TallyKeys(counts: map<string, int>, items: seq<string>, account: string)
    requires Tally(counts, items).Some?
    ensures account in Tally(counts, items).value
        <==> account in counts || exists k :: 0 <= k < |items| && Keyed(items[k], account)
    decreases |items|
  {
    if items != [] {
      var rest := items[1..];
      if ':' in items[0] {
        var (name, count) := SplitOnce(items[0], ':');
        TallyKeys(counts[name := DecodeCount(count).value], rest, account);
      } else {
        TallyKeys(counts, rest, account);
      }
      if exists k :: 0 <= k < |rest| && Keyed(rest[k], account) {
        var k :| 0 <= k < |rest| && Keyed(rest[k], account);
        assert Keyed(items[k + 1], account);
      }
      if exists k :: 0 <= k < |items| && Keyed(items[k], account) {
        var k :| 0 <= k < |items| && Keyed(items[k], account);
        if k > 0 {
          assert Keyed(rest[k - 1], account);
        }
      }
    }
  }

  /** An account's entry is the count of the LAST item that names it. */
  lemma {:induction false} TallyLastWins(counts: map<string, int>, items: seq<string>, k: nat)
    requires Tally(counts, items).Some?
    requires k < |items| && ':' in items[k]
    requires forall j :: k < j < |items| ==> !Keyed(items[j], SplitOnce(items[k], ':').0)
    ensures var (account, count) := SplitOnce(items[k], ':');
      && DecodeCount(count).Some? && account in Tally(counts, items).value
      && Tally(counts, items).value[account] == DecodeCount(count).value
    decreases |items|
  {
    var (account, count) := SplitOnce(items[k], ':');
    var rest := items[1..];
    if k == 0 {
      var v := DecodeCount(count).value;
      TallyKeeps(counts[account := v], rest, account);
    } else if ':' in items[0] {
      var (name, c) := SplitOnce(items[0], ':');
      TallyLastWins(counts[name := DecodeCount(c).value], rest, k - 1);
    } else {
      TallyLastWins(counts, rest, k - 1);
    }
  }

  /** Items that do not name an account leave its entry alone. */
  lemma {:induction false} TallyKeeps(counts: map<string, int>, items: seq<string>, account: string)
    requires Tally(counts, items).Some? && account in counts
    requires forall j :: 0 <= j < |items| ==> !Keyed(items[j], account)
    ensures account in Tally(counts, items).value && Tally(counts, items).value[account] == counts[account]
    decreases |items|
  {
    if items != [] {
      assert !Keyed(items[0], account);
      var rest := items[1..];
      assert forall j :: 0 <= j < |rest| ==> !Keyed(rest[j], account) by {
        forall j | 0 <= j < |rest| ensures !Keyed(rest[j], account) {
          assert rest[j] == items[j + 1];
        }
      }
      if ':' in items[0] {
        var (name, c) := SplitOnce(items[0], ':');
        TallyKeeps(counts[name := DecodeCount(c).value], rest, account);
      } else {
        TallyKeeps(counts, rest, account);
      }
    }
  }

  /** One account as the script reports it: its unread count, or `None` where the script
      caught an error and printed `ERROR`. */
  datatype AccountCount = AccountCount(name: string, unread: Option<nat>)

  /** The script's `accountName & ":" & unreadCount` (or `":ERROR"`). */
  function ItemText(e: AccountCount): string {
    e.name + ":" + (match e.unread case Some(n) => DecimalString(n) case None => "ERROR")
  }

  function ItemTexts(entries: seq<AccountCount>): (r: seq<string>)
    ensures |r| == |entries|
    ensures forall k :: 0 <= k < |entries| ==> r[k] == ItemText(entries[k])
  {
    if entries == [] then [] else [ItemText(entries[0])] + ItemTexts(entries[1..])
  }

  /** The whole script output: the items joined by `|`. */
  function Report(entries: seq<AccountCount>): string {
    Join(ItemTexts(entries), "|")
  }

  /** The dictionary the report stands for: accounts in order, a later one overriding. */
  function Intended(counts: map<string, int>, entries: seq<AccountCount>): map<string, int>
    decreases |entries|
  {
    if entries == [] then counts
    else
      var e := entries[0];
      Intended(counts[e.name := match e.unread case Some(n) => n case None => -1], entries[1..])
  }

  /** A name the report can carry: it has no `:` and no `|`. */
  predicate PlainName(e: AccountCount) {
    ':' !in e.name && '|' !in e.name
  }

  lemma DecodeItem(e: AccountCount)
    requires PlainName(e)
    ensures ':' in ItemText(e) && '|' !in ItemText(e)
    ensures var (account, count) := SplitOnce(ItemText(e), ':');
      account == e.name && DecodeCount(count) == Some(match e.unread case Some(n) => n case None => -1)
  {
    var count := match e.unread case Some(n) => DecimalString(n) case None => "ERROR";
    assert ItemText(e) == e.name + [':'] + count;
    SplitOnceAt(e.name, ':', count);
    assert '|' !in count by {
      if e.unread.Some? {
        assert IsDigits(count);
      } else {
        assert count == "ERROR";
      }
    }
    if e.unread.Some? {
      DecimalRoundTrip(e.unread.value);
      assert count[0] != 'E';
    }
  }

  lemma {:induction false} TallyItems(counts: map<string, int>, entries: seq<AccountCount>)
    requires forall k :: 0 <= k < |entries| ==> PlainName(entries[k])
    ensures Tally(counts, ItemTexts(entries)) == Some(Intended(counts, entries))
    decreases |entries|
  {
    if entries != [] {
      DecodeItem(entries[0]);
      var items := ItemTexts(entries);
      assert items[1..] == ItemTexts(entries[1..]);
      TallyItems(counts[entries[0].name := match entries[0].unread case Some(n) => n case None => -1], entries[1..]);
    }
  }

  /** Decoding the script's report gives back each account's count, `-1` for an account the
      script could not read, a later account of the same name overriding an earlier one. */
  lemma ReportRoundTrip(entries: seq<AccountCount>)
    requires forall k :: 0 <= k < |entries| ==> PlainName(entries[k])
    ensures UnreadCounts(Report(entries)) == Some(Intended(map[], entries))
  {
    var items := ItemTexts(entries);
    if entries == [] {
      assert Split("", '|') == [""];
    } else {
      forall k | 0 <= k < |items| ensures '|' !in items[k] {
        DecodeItem(entries[k]);
      }
      SplitJoin(items, '|');
      TallyItems(map[], entries);
    }
  }

  // ---------------------------------------------------------------------------------------
  // get_statistics

  const DateFilterHead := "\n            set targetDate to (current date) - ("
  const DateFilterTail := " * days)\n        "
  const DateCheck := "and messageDate > targetDate"

  /** The date-window snippet and the matching test, both empty when `days_back` is not
      positive (0 meaning all time). */
  function DateFilter(daysBack: int): (r: (string, string))
    ensures (r.0 != "") == (daysBack > 0) && (r.1 != "") == (daysBack > 0)
    ensures daysBack > 0 ==> r.1 == DateCheck
  {
    if daysBack > 0 then (DateFilterHead + DecimalString(daysBack) + DateFilterTail, DateCheck)
    else ("", "")
  }

  /** The number of days can be read back from the snippet, between its fixed head and tail. */
  lemma DateFilterDays(daysBack: int)
    requires daysBack > 0
    ensures var f := DateFilter(daysBack).0;
      && |DateFilterHead| + |DateFilterTail| < |f|
      && f[..|DateFilterHead|] == DateFilterHead
      && f[|f| - |DateFilterTail|..] == DateFilterTail
      && DecimalValue(f[|DateFilterHead|..|f| - |DateFilterTail|]) == Some(daysBack)
  {
    var d := DecimalString(daysBack);
    var f := DateFilterHead + d + DateFilterTail;
    assert f[|DateFilterHead|..|f| - |DateFilterTail|] == d;
    assert f[..|DateFilterHead|] == DateFilterHead;
    assert f[|f| - |DateFilterTail|..] == DateFilterTail;
    DecimalRoundTrip(daysBack);
  }

  /** The three statistics templates and the values each one interpolates. */
  datatype StatisticsScript =
    | AccountOverview(account: string, dateFilter: string, dateCheck: string)
    | SenderStats(account: string, sender: string, dateFilter: string, dateCheck: string)
    | MailboxBreakdown(account: string, mailbox: string)

  const SenderRequired := "Error: 'sender' parameter required for sender_stats scope"

  function InvalidStatisticsScope(scope: string): string {
    "Error: Invalid scope '" + scope + "'. Use: account_overview, sender_stats, mailbox_breakdown"
  }

  predicate StatisticsScope(scope: string) {
    scope == "account_overview" || scope == "sender_stats" || scope == "mailbox_breakdown"
  }

  /** `get_statistics` up to running the script: the chosen template, or the error text. */
  function GetStatistics(account: string, scope: string, sender: Option<string>, mailbox: Option<string>, daysBack: int)
    : (r: Outcome<StatisticsScript>)
    ensures r.Refused? <==> !StatisticsScope(scope) || (scope == "sender_stats" && !Provided(sender))
    ensures r.Refused? ==> r.message == if StatisticsScope(scope) then SenderRequired else InvalidStatisticsScope(scope)
    ensures r.Run? ==> r.script.account == account
    ensures r.Run? ==> ((scope == "account_overview" <==> r.script.AccountOverview?)
                     && (scope == "sender_stats" <==> r.script.SenderStats?)
                     && (scope == "mailbox_breakdown" <==> r.script.MailboxBreakdown?))
    ensures r.Run? && r.script.SenderStats? ==> Provided(sender) && r.script.sender == sender.value
    ensures r.Run? && r.script.MailboxBreakdown? ==> r.script.mailbox == if Provided(mailbox) then mailbox.value else "INBOX"
    ensures r.Run? && !r.script.MailboxBreakdown? ==> (r.script.dateFilter, r.script.dateCheck) == DateFilter(daysBack)
  {
    var (dateFilter, dateCheck) := DateFilter(daysBack);
    if scope == "account_overview" then
      Run(AccountOverview(account, dateFilter, dateCheck))
    else if scope == "sender_stats" then
      if !Provided(sender) then Refused(SenderRequired)
      else Run(SenderStats(account, sender.value, dateFilter, dateCheck))
    else if scope == "mailbox_breakdown" then
      Run(MailboxBreakdown(account, if Provided(mailbox) then mailbox.value else "INBOX"))
    else Refused(InvalidStatisticsScope(scope))
  }

  /** Each template depends only on its own arguments: the overview ignores sender and
      mailbox, the sender report ignores the mailbox, the mailbox breakdown ignores sender and
      the date window. */
  lemma StatisticsArguments(account: string, sender: Option<string>, sender': Option<string>,
                            mailbox: Option<string>, mailbox': Option<string>, daysBack: int, daysBack': int)
    ensures GetStatistics(account, "account_overview", sender, mailbox, daysBack)
         == GetStatistics(account, "account_overview", sender', mailbox', daysBack)
    ensures GetStatistics(account, "sender_stats", sender, mailbox, daysBack)
         == GetStatistics(account, "sender_stats", sender, mailbox', daysBack)
    ensures GetStatistics(account, "mailbox_breakdown", sender, mailbox, daysBack)
         == GetStatistics(account, "mailbox_breakdown", sender', mailbox, daysBack')
  {
  }

  // ---------------------------------------------------------------------------------------
  // export_emails

  /** The two export templates and the values each one interpolates. The save directory is
      the one the caller gives, home-expanded. */
  datatype ExportScript =
    | SingleEmail(account: string, mailbox: string, subjectKeyword: string, saveDir: string, format: string)
    | EntireMailbox(account: string, mailbox: string, saveDir: string, format: string)

  const KeywordRequired := "Error: 'subject_keyword' required for single_email scope"

  function InvalidExportScope(scope: string): string {
    "Error: Invalid scope '" + scope + "'. Use: single_email, entire_mailbox"
  }

  /** `export_emails` up to running the script. */
  function ExportEmails(account: string, scope: string, subjectKeyword: Option<string>, mailbox: string,
                        saveDir: string, format: string): (r: Outcome<ExportScript>)
    ensures r.Refused? <==> ((scope != "single_email" && scope != "entire_mailbox")
                          || (scope == "single_email" && !Provided(subjectKeyword)))
    ensures r.Refused? ==> r.message == if scope == "single_email" then KeywordRequired else InvalidExportScope(scope)
    ensures r.Run? ==> (r.script.account == account && r.script.mailbox == mailbox
                     && r.script.saveDir == saveDir && r.script.format == format)
    ensures r.Run? ==> (r.script.SingleEmail? <==> scope == "single_email")
    ensures r.Run? && r.script.SingleEmail? ==> Provided(subjectKeyword) && r.script.subjectKeyword == subjectKeyword.value
  {
    if scope == "single_email" then
      if !Provided(subjectKeyword) then Refused(KeywordRequired)
      else Run(SingleEmail(account, mailbox, subjectKeyword.value, saveDir, format))
    else if scope == "entire_mailbox" then
      Run(EntireMailbox(account, mailbox, saveDir, format))
    else Refused(InvalidExportScope(scope))
  }

  /** Exporting a whole mailbox does not depend on the keyword. */
  lemma ExportMailboxIgnoresKeyword(account: string, k: Option<string>, k': Option<string>, mailbox: string,
                                    saveDir: string, format: string)
    ensures ExportEmails(account, "entire_mailbox", k, mailbox, saveDir, format)
         == ExportEmails(account, "entire_mailbox", k', mailbox, saveDir, format)
  {
  }
}
