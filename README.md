# Apple Mail MCP server: argument handling and output parsing

This project models the parts of the Apple Mail MCP server that run in Python before and after
an AppleScript is executed. Every tool of the server renders an AppleScript template and
passes it to `osascript`; what is modelled here is everything the tools decide on their own:

- the bridge module `utils/applescript.py`: `parse_email_list`, the line-by-line parser of
  the listings that the mail scripts print, and `inject_preferences`, which appends the
  user's preferences to a tool's docstring;
- the decoders of script output: the `account:count|...` report of `get_unread_count` and
  the `|`-joined account names of `list_accounts`;
- the argument preparation of the tools: the filter conditions (`' and '`-joined clauses, or
  `true`), the nested destination mailbox of `move_email`, quote escaping, the CC/BCC
  recipient clauses, the thread-prefix removal of `get_email_thread`, and the action and
  scope dispatch that answers with an exact error text before any script runs.

A rendered script is kept abstract: each tool has a datatype that records which template
is chosen and the values interpolated into it (`StatusScript`, `DraftScript`, ...). A tool
that can refuse returns `Outcome<S>`: `Refused(message)` carries the error text, and
`Run(script)` carries the script that would be executed.

Modules, one per source file, plus two shared modules:

- `Wrappers` (`wrappers.dfy`): `Option` and `Outcome`, and `Provided`, which is Python
  truthiness of an optional string.
- `Text` (`text.dfy`): the Python string operations the tools use. These are `strip`/`rstrip`
  with Python's whitespace set, `split` on one character, `join`, `split(':', 1)`,
  `replace`, `startswith`, `in`, and `int()` on decimal digits.
- `Conditions` (`conditions.dfy`): the clause lists shared by `update_email_status`,
  `manage_trash` and `search_emails`.
- `AppleScript` (`applescript.dfy`): `utils/applescript.py`.
- `Analytics`, `Organization`, `Search`, `Composition`, `Drafts`, `Trash`: the tool modules.

The places where the source builds a value step by step are methods with loops and
invariants, each proved equal to a specification function:
- the parser loop;
- the `counts` dictionary loop;
- the descending loop that builds the nested mailbox reference;
- the `+=` loops over CC/BCC addresses;
- the prefix loop of `get_email_thread`;
- the `append` builders of the conditions.

The properties the source promises are proved as lemmas about those functions.

The marker and banner literals of `parse_email_list` are a parameter of the parser (a
`Glyphs` table). `SourceGlyphs` holds them exactly as they stand in the source file. There
they are the UTF-8 bytes of ✉ ✓ ━ 📧 ⚠ decoded as Mac Roman, three or four characters each.
`IntendedGlyphs` holds the single characters the listing scripts print. Every lemma about
single steps holds for any table. The two tables part ways on well-formed listings (see
Findings).

## Model

| member | source | states |
|---|---|---|
| `AppleScript.ParseEmailList` | utils/applescript.py:85-122 | The loop (strip each line, skip, open, fill, stop at `TOTAL EMAILS`, final flush) returns exactly the result of the scan-and-flush specification `ParseEmails`. |
| `AppleScript.ScanLine` | utils/applescript.py:92-117 | One iteration of the loop body, `break` included, is one step of the specification. |
| `AppleScript.FlushCurrent` | utils/applescript.py:119-120 | The statement after the loop appends the open record only when it is non-empty and not already in the list. |
| `AppleScript.MarkerOpensRecord` | utils/applescript.py:96-106 | A marker line appends the open record only if it is non-empty. It then opens a record with subject `line[2:].strip()` (exactly two characters dropped) and `is_read` true exactly when the line starts with the read marker. |
| `AppleScript.FieldLineSetsField` | utils/applescript.py:107-112 | A `From:`, `Date:` or `Preview:` line overwrites only sender, date or preview with the rest after 5, 5 or 8 characters, stripped. Nothing else changes. |
| `AppleScript.ScanAppend` | utils/applescript.py:91-117 | Scanning a concatenation of lines is scanning the first part and then the second. |
| `AppleScript.ScanSkipsDecoration` | utils/applescript.py:93-94 | Blank lines, `=` lines and banner-glyph lines leave the scan state unchanged. |
| `AppleScript.DecorationOnlyParsesEmpty` | utils/applescript.py:88-94 | Output made only of blank, rule and banner lines parses to the empty list. |
| `AppleScript.EmptyOutputParsesEmpty` | utils/applescript.py:88-122 | The empty output parses to the empty list. |
| `AppleScript.SkippedLineIsInert` | utils/applescript.py:93-94 | Inserting a skipped line anywhere in the output does not change the parse. |
| `AppleScript.ScanKeepsClosed` | utils/applescript.py:113-117 | Once `TOTAL EMAILS` has stopped the scan, the open record is already in the list (or empty). |
| `AppleScript.NoDuplicateAfterTotal` | utils/applescript.py:119-120 | After a `TOTAL EMAILS` stop, the final flush adds nothing, so no record is appended twice. |
| `AppleScript.TotalEndsScan` | utils/applescript.py:113-117 | When the scan reaches a `TOTAL EMAILS` line, the result is the records before it plus the open record once, whatever lines follow. |
| `AppleScript.ParseBound` | utils/applescript.py:96-120 | Every emitted record is non-empty, and there is at most one more record than there are marker lines. |
| `AppleScript.FieldBeforeMarkerIsEmitted` | utils/applescript.py:107-120 | A `From:`, `Date:` or `Preview:` line that comes before any marker or `TOTAL EMAILS` line fills the initial empty dict. Whatever lines follow, the first record returned has no subject and no read flag, and it has that field set. |
| `AppleScript.IntendedGlyphsParseListing` | utils/applescript.py:93-106 | With the glyphs the scripts print, parsing a well-formed listing gives back exactly its messages, one record each, in order. |
| `AppleScript.SourceGlyphsMergeListing` | utils/applescript.py:93-106 | With the literals as written, a non-empty listing parses to one record without subject or read flag, holding the last message's sender and date. |
| `AppleScript.InjectPreferences` | utils/applescript.py:18-25 | Empty preferences leave the docstring unchanged. Otherwise a non-empty docstring becomes its `rstrip` plus a blank line plus `User Preferences: <prefs>`, and a missing or empty one becomes that line alone. |
| `Text.Strip` | utils/applescript.py:92 | `str.strip()`: the result is no longer than the input and neither starts nor ends with whitespace. Which characters are removed is stated by `Text.StripPadded`. |
| `Text.RStrip` | utils/applescript.py:22 | `str.rstrip()`: the result is a prefix of the input, only whitespace is removed, and it does not end in whitespace. |
| `Text.StripPadded` | utils/applescript.py:92 | `str.strip()` removes exactly the whitespace at both ends: whitespace, then a text with non-space ends, then whitespace, strips to that text. Text made only of whitespace strips to the empty text. |
| `Text.JoinSplit` | tools/organization_tools.py:37 | Joining the pieces of `split` with the separator gives back the input. |
| `Text.SplitJoin` | tools/organization_tools.py:37 | Splitting a join of separator-free pieces gives back the pieces. |
| `Text.DecimalRoundTrip` | tools/analytics_tools.py:57 | `int()` of the decimal text of a natural number is that number. |
| `Analytics.GetUnreadCount` | tools/analytics_tools.py:52-61 | The decoding loop returns the dictionary of the specification `UnreadCounts`, or `None` where `int()` raises. |
| `Analytics.DecodeCount` | tools/analytics_tools.py:56-59 | A value decodes exactly when it is `ERROR` or decimal digits. `ERROR` gives -1, and a digit string gives its decimal value. |
| `Analytics.TallyFails` | tools/analytics_tools.py:53-59 | Decoding fails exactly when some item has a `:` and a value neither `ERROR` nor decimal. |
| `Analytics.TallyKeys` | tools/analytics_tools.py:53-55 | The accounts of the result are exactly the texts before the first `:` of the items that contain one. Items without `:` add no entry. |
| `Analytics.TallyLastWins` | tools/analytics_tools.py:55-59 | An account's entry is the value of the last item that names it. |
| `Analytics.TallyKeeps` | tools/analytics_tools.py:53-59 | Items that do not name an account leave its entry unchanged. |
| `Analytics.ReportRoundTrip` | tools/analytics_tools.py:22-61 | Decoding the report the script prints gives each account's unread count, -1 for an account it could not read, and a later account of the same name overrides an earlier one. |
| `Analytics.DateFilter` | tools/analytics_tools.py:88-96 | The date snippet and `and messageDate > targetDate` are both present when `days_back > 0` and both empty otherwise. |
| `Analytics.DateFilterDays` | tools/analytics_tools.py:90-92 | The number of days can be read back from between the snippet's fixed head and tail. |
| `Analytics.GetStatistics` | tools/analytics_tools.py:98-311 | The three scopes select their templates. `sender_stats` without a sender and any other scope return the exact error texts. The breakdown uses `INBOX` when no mailbox is given. |
| `Analytics.StatisticsArguments` | tools/analytics_tools.py:98-306 | Each template depends only on its own arguments: the overview ignores sender and mailbox, the sender report ignores the mailbox, and the breakdown ignores sender and days. |
| `Analytics.ExportEmails` | tools/analytics_tools.py:345-525 | `single_email` without a keyword and any unknown scope return the exact error texts. Otherwise the template matches the scope and gets the arguments unchanged. |
| `Analytics.ExportMailboxIgnoresKeyword` | tools/analytics_tools.py:438-520 | Exporting a whole mailbox does not depend on the keyword. |
| `Organization.ListAccounts` | tools/organization_tools.py:37 | The result is empty exactly for empty output. Otherwise joining it with `|` gives the output back, it has one more name than the output has `|`, and no name contains `|`. |
| `Organization.ListAccountsRoundTrip` | tools/organization_tools.py:21-37 | Names free of `|` that the script joins come back unchanged, unless the output is empty. |
| `Organization.ListMailboxes` | tools/organization_tools.py:58-72 | The count snippets are present exactly when counts are asked for. The account filter and its `end if` are both present exactly when an account is given. |
| `Organization.DestinationMailbox` | tools/organization_tools.py:151-162 | The destination is the nested reference of the `/`-separated parts followed by `targetAccount`. A path without `/` gives exactly `mailbox "<path>" of targetAccount`. |
| `Organization.NestedMailbox` | tools/organization_tools.py:156-159 | The descending loop builds the reference steps of all parts, last part first, then `targetAccount`. |
| `Organization.NestIsSteps` | tools/organization_tools.py:156-159 | The reference is the steps in order, where step `k` names the part `k` places from the end. |
| `Organization.NestFirstLast` | tools/organization_tools.py:157-159 | The first part of the path ends up last, just before `targetAccount`. |
| `Organization.DestinationSteps` | tools/organization_tools.py:151-159 | A path with n parts, empty parts included, gives n reference steps. |
| `Organization.ActionChange` | tools/organization_tools.py:261-274 | Exactly the four actions are accepted. Each selects a read or flagged change, set to true exactly for `mark_read` and `flag`. |
| `Organization.LabelsDistinct` | tools/organization_tools.py:261-272 | Different changes have different report labels. |
| `Organization.UpdateEmailStatus` | tools/organization_tools.py:252-274 | An unknown action returns the exact error text. Otherwise the script gets the keyword condition and the command and label of the action. |
| `Conditions.KeywordCondition` | tools/organization_tools.py:252-258 | The condition is `true` exactly when neither subject keyword nor sender is given. Otherwise it is the given clauses, the subject clause first, joined by ` and `. |
| `Conditions.ConditionTrueIff` | tools/organization_tools.py:258 | A join of clauses is `true` exactly when there are no clauses. |
| `Conditions.BuildKeywordConditions` | tools/trash_tools.py:64-68 | The appending builder gives the subject clause (if given), then the sender clause (if given). |
| `Conditions.KeywordClauses` | tools/trash_tools.py:113-117 | One clause per filter given, none of which can be mistaken for `true`. |
| `Conditions.ConditionString` | tools/search_tools.py:200 | No clauses give `true`. Otherwise the join starts with the first clause and is that clause alone when it is the only one. |
| `Search.AttachmentClauses` | tools/search_tools.py:188-192 | No attachment filter adds no clause. True adds the `> 0` clause and false adds the `= 0` clause. |
| `Search.ReadClauses` | tools/search_tools.py:194-197 | `read` and `unread` add their clause. Any other status, `all` included, adds none. |
| `Search.BuildSearchConditions` | tools/search_tools.py:180-197 | The builder gives the clauses of the given filters in the order subject, sender, attachments, read status: one per filter given. |
| `Search.SearchCondition` | tools/search_tools.py:180-200 | The condition is `true` exactly when no filter is given. |
| `Search.ContentSnippet` | tools/search_tools.py:203-222 | The content snippet is empty exactly when content is not asked for. |
| `Search.SelectMailboxes` | tools/search_tools.py:225-242 | `All` selects every mailbox. Any other name selects that mailbox. |
| `Search.SearchEmails` | tools/search_tools.py:180-242 | The search template gets the mailbox choice, the condition and the content snippet of its arguments. |
| `Search.ContentSearchTarget` | tools/search_tools.py:35-54 | `get_email_with_content` makes the same mailbox choice and shows `all mailboxes` or the mailbox's name. |
| `Search.CleanThreadKeyword` | tools/search_tools.py:327-330 | The prefix loop returns the one-pass-per-prefix cleaning. The result is never longer than the keyword and has no whitespace at either end. |
| `Search.RemovePrefixes` | tools/search_tools.py:328-330 | The loop over any prefix list equals the specification `CleanWith`. |
| `Search.CleanWithShorter` | tools/search_tools.py:329-330 | Cleaning never lengthens the keyword. |
| `Search.CleanWithStripped` | tools/search_tools.py:329-330 | After at least one pass, there is no whitespace at either end. |
| `Search.ThreadKeywordUnchanged` | tools/search_tools.py:327-330 | A keyword with none of the five prefixes and nothing to strip is unchanged. |
| `Search.ReplyPrefixDropped` | tools/search_tools.py:327-330 | `Re: ` followed by a clean, prefix-free subject cleans to the subject. |
| `Search.ProjectUpdateThread` | tools/search_tools.py:318 | `Re: Project Update` cleans to `Project Update`. |
| `Search.PrefixCanSurvive` | tools/search_tools.py:327-330 | `FFw:w:` cleans to `Fw:`: the cleaned keyword can still contain a prefix. |
| `Composition.EscapeQuotes` | tools/composition_tools.py:37-38 | `replace('"', '\\"')` puts a backslash in front of every quote and changes nothing else. Quote-free text is unchanged. |
| `Composition.EscapeIsReplace` | tools/composition_tools.py:134 | The `replace` call equals the character-by-character reference escaping. |
| `Composition.EscapedLength` | tools/composition_tools.py:37-38 | The escaped text is longer by exactly the number of quotes. |
| `Composition.EscapedQuotesGuarded` | tools/composition_tools.py:37-38 | Every quote of the escaped text has a backslash right before it. |
| `Composition.EscapeRoundTrip` | tools/composition_tools.py:36-38 | Reading left to right and turning each `\"` back into `"` recovers the original text. |
| `Composition.Addresses` | tools/composition_tools.py:43 | One address per comma-separated piece (commas plus one), each stripped, in order. |
| `Composition.RecipientLines` | tools/composition_tools.py:41-56 | A given list with k commas gives exactly k+1 recipient clauses in order, each with its address stripped. An absent or empty list gives none. |
| `Composition.RecipientScript` | tools/composition_tools.py:41-47 | The `if cc:` block with its `+=` loop writes the clauses one after another, and nothing for an absent list. |
| `Composition.WriteClauses` | tools/composition_tools.py:44-47 | The `+=` loop writes the clauses for the addresses in order. |
| `Composition.AddressesRoundTrip` | tools/composition_tools.py:43 | Addresses written as `a, b, c` come back as the same addresses. |
| `Composition.SplitCommaList` | tools/composition_tools.py:43 | Splitting `a, b, c` at commas gives the first address as it is and the others behind one space. |
| `Composition.SummaryLine` | tools/composition_tools.py:86-94 | The CC or BCC confirmation line is present exactly when that list is given, and it shows the value as given. |
| `Composition.ComposeEmail` | tools/composition_tools.py:36-106 | Subject and body are escaped and `to` is kept verbatim in one clause. CC and BCC get their clause lists and summary lines. |
| `Composition.ReplyCommand` | tools/composition_tools.py:137-140 | The command is the plain reply command, followed by ` reply to all` exactly when `reply_to_all` is true. |
| `Composition.ReplyToEmail` | tools/composition_tools.py:133-142 | The reply template gets the chosen command and the escaped body. |
| `Composition.ForwardMessage` | tools/composition_tools.py:233 | A missing or empty message becomes the empty text. Any other message is escaped. |
| `Composition.ForwardEmail` | tools/composition_tools.py:233-243 | The forward template gets the escaped message and the other arguments unchanged. |
| `Drafts.ManageDrafts` | tools/draft_tools.py:40-228 | `create` is refused unless subject, to and body are all given, and otherwise uses the escaped subject and body with the CC/BCC clauses. `send` and `delete` are refused without a draft subject. Any other action returns the exact invalid-action text. |
| `Trash.TrashRequest` | tools/trash_tools.py:36-119 | `empty_trash` and `delete_permanent` select their templates, and every other action moves to the trash. The deleting templates get the keyword condition and `max_deletes`. |
| `Trash.ManageTrash` | tools/trash_tools.py:36-119 | The dispatch with its condition builders gives the script of `TrashRequest`. |
| `Trash.EmptyTrashOnlyAccount` | tools/trash_tools.py:36-61 | The `empty_trash` script depends on the account alone. |
| `Trash.DeletePermanentIgnoresMailbox` | tools/trash_tools.py:62-110 | The `delete_permanent` script does not depend on the mailbox. |

## Left out

- `run_applescript` and `run_applescript_file`: starting `osascript`, its 120 second timeout and reading its output are process I/O. Script output is a parameter of the decoders instead.
- The scripts directory and its existence check: filesystem access.
- The `USER_EMAIL_PREFERENCES` environment variable: the preferences are a parameter of `InjectPreferences`. The decorator's assignment to `func.__doc__` is modelled as the value it assigns.
- `os.path.expanduser` in `export_emails`: a library call. The save directory is taken as already expanded.
- What the AppleScript bodies do once run (Mail access, shell lowercasing, truncating content, rounding percentages, writing files): they run in a foreign interpreter. Rendered scripts are kept abstract as the template chosen and the values interpolated.
- Analytics.DecodeCount: models Python `int()` only on non-empty ASCII decimal digit strings. Text that Python would also accept (a sign, surrounding whitespace, underscores, non-ASCII digits) decodes to `None` here. The script only prints non-negative counts and `ERROR`.
- The exception `int()` raises is modelled as a `None` result of the whole decoder.
- The order of a record's keys is not modelled. A Python dict keeps its keys in insertion order, so `Date:` before `From:` puts `date` ahead of `sender` in what callers receive. `EmailRecord` has fixed fields. Dict equality ignores key order, and so do record equality and the `not in` test at the end of the parser.
- `@mcp.tool()` registration, `main.py` and `mcp_instance.py`: framework wiring.
- `tools/inbox_tools.py` and `tools/attachment_tools.py` only interpolate values into templates and have no logic of their own. They are not part of this model.
- `move_email`, `get_email_with_content` and `get_email_thread` are modelled only where they compute something: the destination reference, the mailbox choice and the keyword cleaning. The rest of each is a template.
- `search_emails` accepts `date_from` and `date_to` but never uses them. The model takes them as parameters and drops them the same way.
- Search.CleanThreadKeyword: does not promise that no `Fw:` remains, because removing one copy of a prefix can join the text around it into a new copy. `Search.PrefixCanSurvive` proves this for `FFw:w:`.
- Composition.EscapeQuotes: escapes quotes only, as the source does. A backslash in the input is not doubled, so input ending in `\` can still end the AppleScript string literal early.
- The content snippet of `search_emails` is a plain string, not an f-string, so its doubled braces are kept as two characters each.

## Findings

| source | as written | input that shows it | evidently intended | confidence | as-written member | corrected member |
|---|---|---|---|---|---|---|
| utils/applescript.py:93-96 | The marker and banner literals stand in the file as the UTF-8 bytes of ✉ ✓ ━ 📧 ⚠ decoded as Mac Roman (for example `‚úâ` for ✉), so no line the scripts print starts with them. | `✉ A\n   From: a\n   Date: d\n\n✓ B\n   From: b\n   Date: e\n\nTOTAL EMAILS: 2` parses to the single record `{sender: b, date: e}` | The single glyph characters, so that each message of the listing gives its own record with subject and read flag | not executed | `AppleScript.SourceGlyphsMergeListing` | `AppleScript.IntendedGlyphsParseListing` |
