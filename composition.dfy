/**
 * The argument handling of the composition tools: quote escaping of the text
 * that goes inside AppleScript string literals, the CC/BCC recipient clauses
 * built from a comma-separated list, the summary lines that are added only for
 * the recipient lists given, the choice of reply command, and the optional
 * message of a forward.
 */
module Composition {
  import opened Wrappers
  import opened Text

  // ---------------------------------------------------------------------------------------
  // Quote escaping

  /** Reference definition: a backslash goes in front of every `"`, everything else stays. */
  function Escaped(s: string): string
    decreases |s|
  {
    if s == [] then "" else (if s[0] == '"' then "\\\"" else [s[0]]) + Escaped(s[1..])
  }

  /** `s.replace('"', '\\"')`. */
  function EscapeQuotes(s: string): (r: string)
    ensures r == Escaped(s)
    ensures '"' !in s ==> r == s
  {
    EscapeIsReplace(s);
    if '"' !in s then EscapedQuoteFree(s); Replace(s, "\"", "\\\"") else Replace(s, "\"", "\\\"")
  }

  lemma {:induction false} EscapeIsReplace(s: string)
    ensures Replace(s, "\"", "\\\"") == Escaped(s)
    decreases |s|
  {
    if s != [] {
      EscapeIsReplace(s[1..]);
      if s[0] == '"' {
        assert "\"" <= s;
      } else {
        assert !("\"" <= s);
      }
    }
  }

  /** The escaped text is longer by exactly the number of quotes. */
  lemma {:induction false} EscapedLength(s: string)
    ensures |Escaped(s)| == |s| + Count(s, '"')
    decreases |s|
  {
    if s != [] {
      EscapedLength(s[1..]);
    }
  }

  /** Quote-free text is left as it is. */
  lemma {:induction false} EscapedQuoteFree(s: string)
    requires '"' !in s
    ensures Escaped(s) == s
    decreases |s|
  {
    if s != [] {
      assert '"' !in s[1..];
      EscapedQuoteFree(s[1..]);
      assert [s[0]] + s[1..] == s;
    }
  }

  /** Every quote of the escaped text has a backslash right before it. */
  lemma {:induction false} EscapedQuotesGuarded(s: string)
    ensures var r := Escaped(s); forall k :: 0 <= k < |r| && r[k] == '"' ==> k > 0 && r[k - 1] == '\\'
    decreases |s|
  {
    if s != [] {
      EscapedQuotesGuarded(s[1..]);
      var head := if s[0] == '"' then "\\\"" else [s[0]];
      var tail := Escaped(s[1..]);
      var r := Escaped(s);
      assert r == head + tail;
      if s[1..] != [] {
        EscapedHead(s[1..]);
      }
      forall k | 0 <= k < |r| && r[k] == '"' ensures k > 0 && r[k - 1] == '\\' {
        if k < |head| {
          assert r[k] == head[k];
          if k > 0 {
            assert r[k - 1] == head[k - 1];
          }
        } else {
          assert r[k] == tail[k - |head|];
          if k - |head| > 0 {
            assert r[k - 1] == tail[k - 1 - |head|];
          } else {
            assert false;
          }
        }
      }
    }
  }

  /** Reading left to right and turning each `\"` back into `"`. */
  function Unescaped(s: string): string
    decreases |s|
  {
    if s == [] then ""
    else if |s| >= 2 && s[0] == '\\' && s[1] == '"' then "\"" + Unescaped(s[2..])
    else [s[0]] + Unescaped(s[1..])
  }

  /** The escaped text never starts with a quote. */
  lemma EscapedHead(s: string)
    requires s != []
    ensures Escaped(s) != [] && Escaped(s)[0] != '"'
  {
  }

  /** Unescaping undoes escaping. */
  lemma {:induction false} EscapeRoundTrip(s: string)
    ensures Unescaped(Escaped(s)) == s
    decreases |s|
  {
    if s != [] {
      EscapeRoundTrip(s[1..]);
      var tail := Escaped(s[1..]);
      var r := Escaped(s);
      if s[0] == '"' {
        assert r == "\\\"" + tail;
        assert r[2..] == tail;
      } else {
        assert r == [s[0]] + tail;
        assert r[1..] == tail;
        if s[0] == '\\' && s[1..] != [] {
          EscapedHead(s[1..]);
          assert r[1] == tail[0];
        }
        assert [s[0]] + s[1..] == s;
      }
    }
  }

  // ---------------------------------------------------------------------------------------
  // CC and BCC recipients

  datatype RecipientKind = Cc | Bcc

  function KindName(kind: RecipientKind): string {
    match kind
    case Cc => "cc"
    case Bcc => "bcc"
  }

  /** The message a recipient clause adds to, and the indentation of its template. */
  datatype Holder = Holder(name: string, indent: string)

  const NewMessage := Holder("newMessage", "            ")
  const NewDraft := Holder("newDraft", "                ")

  /** One `make new cc recipient ...` clause. */
  function RecipientLine(holder: Holder, kind: RecipientKind, address: string): string {
    "\n" + holder.indent + "make new " + KindName(kind) + " recipient at end of " + KindName(kind)
    + " recipients of " + holder.name + " with properties {address:\"" + address + "\"}\n" + holder.indent
  }

  /** `[addr.strip() for addr in value.split(',')]`. */
  function Addresses(value: string): (addrs: seq<string>)
    ensures |Split(value, ',')| == Count(value, ',') + 1 && |addrs| == |Split(value, ',')|
    ensures forall k :: 0 <= k < |addrs| ==> addrs[k] == Strip(Split(value, ',')[k])
  {
    var parts := Split(value, ',');
    SplitLength(value, ',');
    seq(|parts|, k requires 0 <= k < |parts| => Strip(parts[k]))
  }

  /** One clause per address, in order. */
  function ClauseLines(holder: Holder, kind: RecipientKind, addrs: seq<string>): (lines: seq<string>)
    ensures |lines| == |addrs|
    ensures forall k :: 0 <= k < |addrs| ==> lines[k] == RecipientLine(holder, kind, addrs[k])
  {
    seq(|addrs|, k requires 0 <= k < |addrs| => RecipientLine(holder, kind, addrs[k]))
  }

  /** The clauses for a recipient list: one per address, in order; none when the list is
      absent or empty. */
  function RecipientLines(holder: Holder, kind: RecipientKind, value: Option<string>): (lines: seq<string>)
    ensures !Provided(value) ==> lines == []
    ensures Provided(value) ==> |Split(value.value, ',')| == Count(value.value, ',') + 1
    ensures Provided(value) ==> |lines| == Count(value.value, ',') + 1
    ensures Provided(value) ==> forall k :: 0 <= k < |lines| ==>
              lines[k] == RecipientLine(holder, kind, Strip(Split(value.value, ',')[k]))
  {
    if !Provided(value) then [] else ClauseLines(holder, kind, Addresses(value.value))
  }

  /** `if value:` around the loop over the addresses. */
  method RecipientScript(holder: Holder, kind: RecipientKind, value: Option<string>) returns (script: string)
    ensures script == Concat(RecipientLines(holder, kind, value))
    ensures !Provided(value) ==> script == ""
  {
    script := "";
    if Provided(value) {
      var addrs := Addresses(value.value);
      script := WriteClauses(holder, kind, addrs);
    }
  }

  /** The `+=` loop that writes the clauses one after another. */
  method WriteClauses(holder: Holder, kind: RecipientKind, addrs: seq<string>) returns (script: string)
    ensures script == Concat(ClauseLines(holder, kind, addrs))
  {
    script := "";
    ghost var lines := ClauseLines(holder, kind, addrs);
    for i := 0 to |addrs|
      invariant script == Concat(lines[..i])
    {
      assert lines[..i + 1] == lines[..i] + [lines[i]];
      ConcatAppend(lines[..i], [lines[i]]);
      assert Concat([lines[i]]) == lines[i];
      script := script + RecipientLine(holder, kind, addrs[i]);
    }
    assert lines[..|addrs|] == lines;
  }

  /** The pieces of a list written as `a, b, c`: the first as it is, the others behind the
      space. */
  lemma {:induction false} SplitCommaList(addrs: seq<string>)
    requires addrs != []
    requires forall k :: 0 <= k < |addrs| ==> ',' !in addrs[k]
    ensures var parts := Split(Join(addrs, ", "), ',');
      && |parts| == |addrs| && parts[0] == addrs[0]
      && forall k :: 1 <= k < |addrs| ==> parts[k] == " " + addrs[k]
    decreases |addrs|
  {
    if |addrs| == 1 {
      SplitWithoutSeparator(addrs[0], ',');
    } else {
      var rest := addrs[1..];
      var y := Join(rest, ", ");
      SplitCommaList(rest);
      var sy := Split(y, ',');
      assert Join(addrs, ", ") == addrs[0] + [','] + (" " + y);
      SplitPrefix(addrs[0], ',', " " + y);
      assert (" " + y)[1..] == y;
      var sp := Split(" " + y, ',');
      assert sp == [" " + sy[0]] + sy[1..];
      var parts := Split(Join(addrs, ", "), ',');
      assert parts == [addrs[0]] + sp;
      forall k | 1 <= k < |addrs| ensures parts[k] == " " + addrs[k] {
        assert parts[k] == sp[k - 1];
        if k > 1 {
          assert sp[k - 1] == sy[k - 1];
          assert rest[k - 1] == addrs[k];
        }
      }
    }
  }

  /** A trimmed address free of commas and whitespace at its ends. */
  predicate Address(a: string) {
    a != [] && ',' !in a && !IsSpace(a[0]) && !IsSpace(a[|a| - 1])
  }

  /** Writing addresses as `a, b, c` gives back the same addresses as clause values. */
  lemma AddressesRoundTrip(addrs: seq<string>)
    requires addrs != []
    requires forall k :: 0 <= k < |addrs| ==> Address(addrs[k])
    ensures Addresses(Join(addrs, ", ")) == addrs
  {
    SplitCommaList(addrs);
    var parts := Split(Join(addrs, ", "), ',');
    var r := Addresses(Join(addrs, ", "));
    assert |r| == |addrs|;
    forall k | 0 <= k < |addrs| ensures r[k] == addrs[k] {
      AddressPiece(parts[k], addrs[k], k == 0);
    }
  }

  lemma AddressPiece(piece: string, a: string, first: bool)
    requires Address(a) && piece == if first then a else " " + a
    ensures Strip(piece) == a
  {
    if first {
      StripUnchanged(a);
    } else {
      assert " " + a + "" == " " + a;
      StripPadded(" ", a, "");
    }
  }

  // ---------------------------------------------------------------------------------------
  // compose_email

  const SummaryHead := "\n            set outputText to outputText & \""
  const SummaryTail := "\" & return\n    "

  /** The optional `CC: ...` or `BCC: ...` line of the confirmation (the value unescaped). */
  function SummaryLine(field: string, value: Option<string>): (r: string)
    ensures r == "" <==> !Provided(value)
    ensures Provided(value) ==> r == SummaryHead + field + ": " + value.value + SummaryTail
  {
    if Provided(value) then SummaryHead + field + ": " + value.value + SummaryTail else ""
  }

  /** The values the compose template interpolates. */
  datatype ComposeScript = ComposeScript(account: string, to: string, subject: string, body: string,
                                         ccScript: string, bccScript: string,
                                         ccSummary: string, bccSummary: string)

  /** `compose_email` up to running the script. */
  method ComposeEmail(account: string, to: string, subject: string, body: string,
                      cc: Option<string>, bcc: Option<string>) returns (r: ComposeScript)
    ensures r.account == account && r.to == to
    ensures r.subject == Escaped(subject) && r.body == Escaped(body)
    ensures r.ccScript == Concat(RecipientLines(NewMessage, Cc, cc))
    ensures r.bccScript == Concat(RecipientLines(NewMessage, Bcc, bcc))
    ensures r.ccSummary == SummaryLine("CC", cc) && r.bccSummary == SummaryLine("BCC", bcc)
  {
    var escapedSubject := EscapeQuotes(subject);
    var escapedBody := EscapeQuotes(body);
    var ccScript := RecipientScript(NewMessage, Cc, cc);
    var bccScript := RecipientScript(NewMessage, Bcc, bcc);
    var ccSummary := SummaryLine("CC", cc);
    var bccSummary := SummaryLine("BCC", bcc);
    r := ComposeScript(account, to, escapedSubject, escapedBody, ccScript, bccScript, ccSummary, bccSummary);
  }

  // ---------------------------------------------------------------------------------------
  // reply_to_email and forward_email

  const ReplyOpen := "set replyMessage to reply foundMessage with opening window"
  const ReplyAll := " reply to all"

  /** The reply command: the plain one, or the plain one followed by ` reply to all`. */
  function ReplyCommand(replyToAll: bool): (r: string)
    ensures |ReplyOpen| <= |r| && r[..|ReplyOpen|] == ReplyOpen
    ensures replyToAll <==> |r| > |ReplyOpen|
    ensures replyToAll ==> r[|ReplyOpen|..] == ReplyAll
  {
    if replyToAll then ReplyOpen + ReplyAll else ReplyOpen
  }

  datatype ReplyScript = ReplyScript(account: string, subjectKeyword: string, command: string, body: string)

  /** `reply_to_email` up to running the script. */
  function ReplyToEmail(account: string, subjectKeyword: string, replyBody: string, replyToAll: bool): (r: ReplyScript)
    ensures r.account == account && r.subjectKeyword == subjectKeyword
    ensures r.command == ReplyCommand(replyToAll) && r.body == Escaped(replyBody)
  {
    ReplyScript(account, subjectKeyword, ReplyCommand(replyToAll), EscapeQuotes(replyBody))
  }

  /** `message.replace('"', '\\"') if message else ""`. */
  function ForwardMessage(message: Option<string>): (r: string)
    ensures r == "" <==> !Provided(message)
    ensures Provided(message) ==> r == Escaped(message.value)
  {
    if Provided(message) then EscapeQuotes(message.value) else ""
  }

  datatype ForwardScript = ForwardScript(account: string, subjectKeyword: string, to: string, message: string,
                                         mailbox: string)

  /** `forward_email` up to running the script. */
  function ForwardEmail(account: string, subjectKeyword: string, to: string, message: Option<string>,
                        mailbox: string): (r: ForwardScript)
    ensures r.account == account && r.subjectKeyword == subjectKeyword && r.to == to && r.mailbox == mailbox
    ensures r.message == ForwardMessage(message)
  {
    ForwardScript(account, subjectKeyword, to, ForwardMessage(message), mailbox)
  }
}
