/**
 * The output parser and the docstring helper of the AppleScript bridge.
 *
 * `ParseEmailList` scans the text a mail-listing script prints, line by line:
 * a read/unread marker line opens a record, `From:`/`Date:`/`Preview:` lines
 * fill the open record, `TOTAL EMAILS` ends the list. A record is a Python
 * dict in the source; here every key is an `Option` field, `None` when the key
 * was never set, so record equality is dict equality.
 *
 * The glyphs that mark records and banners are a parameter: `SourceGlyphs`
 * holds the literals exactly as they stand in the source file, `IntendedGlyphs`
 * the characters the listing scripts actually print.
 */
module AppleScript {
  import opened Wrappers
  import opened Text

  datatype EmailRecord = EmailRecord(
    subject: Option<string>,
    isRead: Option<bool>,
    sender: Option<string>,
    date: Option<string>,
    preview: Option<string>)

  /** The record the scan starts with: the empty dict. */
  const NoFields := EmailRecord(None, None, None, None, None)

  /** Python truthiness of the record dict. */
  predicate IsEmpty(r: EmailRecord) {
    r == NoFields
  }

  /** The marker literals: the two that open a record and the three banner glyphs that
      (besides `=`) make a line decorative. */
  datatype Glyphs = Glyphs(unread: string, read: string, rule: string, mail: string, warning: string)

  /** The literals as written in the source: the UTF-8 bytes of the glyphs decoded as Mac Roman,
      three or four characters each. */
  const SourceGlyphs := Glyphs(
    "\U{201A}\U{FA}\U{E2}",          // ✉ as Mac Roman
    "\U{201A}\U{FA}\U{EC}",          // ✓ as Mac Roman
    "\U{201A}\U{EE}\U{C5}",          // ━ as Mac Roman
    "\U{F8FF}\U{FC}\U{EC}\U{DF}",    // 📧 as Mac Roman
    "\U{201A}\U{F6}\U{2020}")        // ⚠ as Mac Roman

  /** The glyphs the listing scripts print: ✉ ✓ ━ 📧 ⚠, one character each. */
  const IntendedGlyphs := Glyphs("\U{2709}", "\U{2713}", "\U{2501}", "\U{1F4E7}", "\U{26A0}")

  datatype LineKind = Skipped | Marker | FromField | DateField | PreviewField | Total | Ignored

  /** How the scan treats a stripped line, in the order the source tests it. */
  function Classify(g: Glyphs, line: string): LineKind {
    if line == "" || StartsWith(line, "=") || StartsWith(line, g.rule) || StartsWith(line, g.mail) || StartsWith(line, g.warning) then Skipped
    else if StartsWith(line, g.unread) || StartsWith(line, g.read) then Marker
    else if StartsWith(line, "From:") then FromField
    else if StartsWith(line, "Date:") then DateField
    else if StartsWith(line, "Preview:") then PreviewField
    else if StartsWith(line, "TOTAL EMAILS") then Total
    else Ignored
  }

  /** Python's `s[n:]`: drops the first `n` characters, or all of them when there are fewer. */
  function Drop(s: string, n: nat): (r: string)
    ensures |r| == if |s| <= n then 0 else |s| - n
  {
    if |s| <= n then "" else s[n..]
  }

  /** The record a marker line opens: `line[2:]` stripped as subject, read when the line starts
      with the read marker. */
  function OpenRecord(g: Glyphs, line: string): (r: EmailRecord)
    ensures !IsEmpty(r)
  {
    EmailRecord(Some(Strip(Drop(line, 2))), Some(StartsWith(line, g.read)), None, None, None)
  }

  /** Appends the open record unless it is the empty dict. */
  function Close(emails: seq<EmailRecord>, current: EmailRecord): (r: seq<EmailRecord>)
  {
    if IsEmpty(current) then emails else emails + [current]
  }

  /** The loop's variables: the records emitted so far, the open record, and whether the
      scan has left the loop through `TOTAL EMAILS`. */
  datatype ScanState = ScanState(emails: seq<EmailRecord>, current: EmailRecord, stopped: bool)

  const Start := ScanState([], NoFields, false)

  /** One iteration of the loop on a raw line. */
  function Step(g: Glyphs, st: ScanState, raw: string): ScanState
    requires !st.stopped
  {
    var line := Strip(raw);
    match Classify(g, line)
    case Skipped => st
    case Marker => ScanState(Close(st.emails, st.current), OpenRecord(g, line), false)
    case FromField => st.(current := st.current.(sender := Some(Strip(Drop(line, 5)))))
    case DateField => st.(current := st.current.(date := Some(Strip(Drop(line, 5)))))
    case PreviewField => st.(current := st.current.(preview := Some(Strip(Drop(line, 8)))))
    case Total => ScanState(Close(st.emails, st.current), st.current, true)
    case Ignored => st
  }

  /** The loop over the lines; once stopped, the remaining lines are not looked at. */
  function Scan(g: Glyphs, st: ScanState, lines: seq<string>): ScanState
    decreases |lines|
  {
    if lines == [] || st.stopped then st else Scan(g, Step(g, st, lines[0]), lines[1..])
  }

  /** The statement after the loop: the open record is appended when it is non-empty and no
      equal record has been emitted. */
  function Flush(st: ScanState): seq<EmailRecord> {
    if !IsEmpty(st.current) && st.current !in st.emails then st.emails + [st.current] else st.emails
  }

  function ParseLines(g: Glyphs, lines: seq<string>): seq<EmailRecord> {
    Flush(Scan(g, Start, lines))
  }

  /** What `parse_email_list` returns for `output`. */
  function ParseEmails(g: Glyphs, output: string): seq<EmailRecord> {
    ParseLines(g, Split(output, '\n'))
  }

  /** The parser as the source runs it: a loop that appends to `emails`, replaces or updates
      `current` and leaves early at `TOTAL EMAILS`. */
  method ParseEmailList(g: Glyphs, output: string) returns (emails: seq<EmailRecord>)
    ensures emails == ParseEmails(g, output)
  {
    var lines := Split(output, '\n');
    ghost var outcome := Scan(g, Start, lines);
    emails := [];
    var current := NoFields;
    var i := 0;
    while i < |lines|
      invariant 0 <= i <= |lines|
      invariant Scan(g, ScanState(emails, current, false), lines[i..]) == outcome
    {
      ghost var before := ScanState(emails, current, false);
      var stop;
      emails, current, stop := ScanLine(g, emails, current, lines[i]);
      ScanUnroll(g, before, lines, i, ScanState(emails, current, stop));
      if stop {
        break;
      }
      i := i + 1;
    }
    ScanRest(g, ScanState(emails, current, outcome.stopped), lines[i..], outcome);
    emails := FlushCurrent(emails, current, outcome.stopped);
  }

  /** The statement after the loop. */
  method FlushCurrent(emails: seq<EmailRecord>, current: EmailRecord, ghost stopped: bool) returns (r: seq<EmailRecord>)
    ensures r == Flush(ScanState(emails, current, stopped))
  {
    r := emails;
    if current != NoFields && current !in emails {
      r := emails + [current];
    }
  }

  lemma ScanRest(g: Glyphs, st: ScanState, rest: seq<string>, outcome: ScanState)
    requires Scan(g, st, rest) == outcome && (rest == [] || st.stopped)
    ensures Flush(outcome) == Flush(st)
  {
  }

  /** One iteration of the loop in terms of the whole scan: the rest of the lines after this one
      are scanned from `next`, unless `next` has stopped. */
  lemma ScanUnroll(g: Glyphs, st: ScanState, lines: seq<string>, i: nat, next: ScanState)
    requires i < |lines| && !st.stopped && next == Step(g, st, lines[i])
    ensures Scan(g, st, lines[i..]) == Scan(g, next, lines[i + 1..])
    ensures next.stopped ==> Scan(g, st, lines[i..]) == next
  {
    assert lines[i..][1..] == lines[i + 1..];
    if next.stopped {
      ScanStoppedStays(g, next, lines[i + 1..]);
    }
  }

  /** The body of the loop for one raw line; `stop` is the `break` at `TOTAL EMAILS`. */
  method ScanLine(g: Glyphs, emails: seq<EmailRecord>, current: EmailRecord, raw: string)
    returns (emails': seq<EmailRecord>, current': EmailRecord, stop: bool)
    ensures ScanState(emails', current', stop) == Step(g, ScanState(emails, current, false), raw)
  {
    emails', current', stop := emails, current, false;
    var line := Strip(raw);
    if line == "" || StartsWith(line, "=") || StartsWith(line, g.rule) || StartsWith(line, g.mail)
       || StartsWith(line, g.warning)
    {
      return;
    }
    if StartsWith(line, g.unread) || StartsWith(line, g.read) {
      if current != NoFields {
        emails' := emails + [current];
      }
      current' := EmailRecord(Some(Strip(Drop(line, 2))), Some(StartsWith(line, g.read)), None, None, None);
    } else if StartsWith(line, "From:") {
      current' := current.(sender := Some(Strip(Drop(line, 5))));
    } else if StartsWith(line, "Date:") {
      current' := current.(date := Some(Strip(Drop(line, 5))));
    } else if StartsWith(line, "Preview:") {
      current' := current.(preview := Some(Strip(Drop(line, 8))));
    } else if StartsWith(line, "TOTAL EMAILS") {
      if current != NoFields {
        emails' := emails + [current];
      }
      stop := true;
    }
  }

  // ---------------------------------------------------------------------------------------
  // One line at a time

  /** A marker line closes the open record (appending it only if it is non-empty) and opens
      a record holding just the subject `line[2:].strip()` and the read flag. */
  lemma MarkerOpensRecord(g: Glyphs, st: ScanState, raw: string)
    requires !st.stopped && Classify(g, Strip(raw)) == Marker
    ensures var st' := Step(g, st, raw);
      && st'.emails == (if IsEmpty(st.current) then st.emails else st.emails + [st.current])
      && st'.current.subject == Some(Strip(Drop(Strip(raw), 2)))
      && st'.current.isRead == Some(StartsWith(Strip(raw), g.read))
      && st'.current.sender == None && st'.current.date == None && st'.current.preview == None
      && !st'.stopped
  {
  }

  /** A `From:`, `Date:` or `Preview:` line overwrites exactly one field of the open record with
      the rest of the line after the 5-, 5- or 8-character prefix, stripped. */
  lemma FieldLineSetsField(g: Glyphs, st: ScanState, raw: string)
    requires !st.stopped
    requires Classify(g, Strip(raw)) in {FromField, DateField, PreviewField}
    ensures var st', line := Step(g, st, raw), Strip(raw);
      && st'.emails == st.emails && !st'.stopped
      && st'.current.subject == st.current.subject && st'.current.isRead == st.current.isRead
      && st'.current.sender == (if Classify(g, line) == FromField then Some(Strip(Drop(line, 5))) else st.current.sender)
      && st'.current.date == (if Classify(g, line) == DateField then Some(Strip(Drop(line, 5))) else st.current.date)
      && st'.current.preview == (if Classify(g, line) == PreviewField then Some(Strip(Drop(line, 8))) else st.current.preview)
  {
  }

  // ---------------------------------------------------------------------------------------
  // Whole scans

  /** Scanning a concatenation is scanning the first part, then the second. */
  lemma {:induction false} ScanAppend(g: Glyphs, st: ScanState, a: seq<string>, b: seq<string>)
    ensures Scan(g, st, a + b) == Scan(g, Scan(g, st, a), b)
    decreases |a|
  {
    if a != [] && !st.stopped {
      assert (a + b)[1..] == a[1..] + b;
      ScanAppend(g, Step(g, st, a[0]), a[1..], b);
    } else if a == [] {
      assert a + b == b;
    } else {
      ScanStoppedStays(g, st, b);
    }
  }

  lemma ScanStoppedStays(g: Glyphs, st: ScanState, lines: seq<string>)
    requires st.stopped
    ensures Scan(g, st, lines) == st
  {
  }

  /** Lines that are blank, `=` rules or banner glyphs leave the scan state as it was. */
  lemma {:induction false} ScanSkipsDecoration(g: Glyphs, st: ScanState, lines: seq<string>)
    requires forall k :: 0 <= k < |lines| ==> Classify(g, Strip(lines[k])) == Skipped
    ensures Scan(g, st, lines) == st
    decreases |lines|
  {
    if lines != [] && !st.stopped {
      assert Classify(g, Strip(lines[0])) == Skipped;
      ScanSkipsDecoration(g, st, lines[1..]);
    }
  }

  /** Output made only of blank, rule and banner lines (the empty output among them)
      parses to no records. */
  lemma DecorationOnlyParsesEmpty(g: Glyphs, output: string)
    requires forall k :: 0 <= k < |Split(output, '\n')| ==> Classify(g, Strip(Split(output, '\n')[k])) == Skipped
    ensures ParseEmails(g, output) == []
  {
    ScanSkipsDecoration(g, Start, Split(output, '\n'));
  }

  lemma EmptyOutputParsesEmpty(g: Glyphs)
    ensures ParseEmails(g, "") == []
  {
    assert Split("", '\n') == [""];
    DecorationOnlyParsesEmpty(g, "");
  }

  /** Removing or inserting a skipped line anywhere does not change the result. */
  lemma SkippedLineIsInert(g: Glyphs, pre: seq<string>, raw: string, post: seq<string>)
    requires Classify(g, Strip(raw)) == Skipped
    ensures ParseLines(g, pre + [raw] + post) == ParseLines(g, pre + post)
  {
    assert pre + [raw] + post == pre + ([raw] + post);
    ScanAppend(g, Start, pre, [raw] + post);
    ScanAppend(g, Start, pre, post);
    var mid := Scan(g, Start, pre);
    if mid.stopped {
      ScanStoppedStays(g, mid, [raw] + post);
      ScanStoppedStays(g, mid, post);
    } else {
      assert ([raw] + post)[1..] == post;
      assert Scan(g, mid, [raw] + post) == Scan(g, Step(g, mid, raw), post);
      assert Step(g, mid, raw) == mid;
    }
  }

  /** After `TOTAL EMAILS` the open record has been appended (unless empty). */
  ghost predicate ClosedWhenStopped(st: ScanState) {
    st.stopped ==> IsEmpty(st.current) || st.current in st.emails
  }

  lemma {:induction false} ScanKeepsClosed(g: Glyphs, st: ScanState, lines: seq<string>)
    requires ClosedWhenStopped(st)
    ensures ClosedWhenStopped(Scan(g, st, lines))
    decreases |lines|
  {
    if lines != [] && !st.stopped {
      ScanKeepsClosed(g, Step(g, st, lines[0]), lines[1..]);
    }
  }

  /** The final flush never appends the record a `TOTAL EMAILS` line already appended. */
  lemma NoDuplicateAfterTotal(g: Glyphs, lines: seq<string>)
    requires Scan(g, Start, lines).stopped
    ensures ParseLines(g, lines) == Scan(g, Start, lines).emails
  {
    ScanKeepsClosed(g, Start, lines);
  }

  /** A `TOTAL EMAILS` line reached by the scan fixes the result: the records emitted before it
      plus the open record once, whatever lines follow. */
  lemma TotalEndsScan(g: Glyphs, pre: seq<string>, raw: string, post: seq<string>)
    requires !Scan(g, Start, pre).stopped
    requires Classify(g, Strip(raw)) == Total
    ensures var mid := Scan(g, Start, pre);
      ParseLines(g, pre + [raw] + post) == Close(mid.emails, mid.current)
  {
    var mid := Scan(g, Start, pre);
    assert pre + [raw] + post == pre + ([raw] + post);
    ScanAppend(g, Start, pre, [raw] + post);
    ScanCons(g, mid, raw, post);
    TotalStep(g, mid, raw);
    var fin := ScanState(Close(mid.emails, mid.current), mid.current, true);
    ScanStoppedStays(g, fin, post);
    FlushClosed(mid.emails, mid.current);
  }

  /** Flushing after the open record was closed adds nothing. */
  lemma FlushClosed(emails: seq<EmailRecord>, current: EmailRecord)
    ensures Flush(ScanState(Close(emails, current), current, true)) == Close(emails, current)
  {
    if !IsEmpty(current) {
      var closed := emails + [current];
      assert closed[|emails|] == current;
    }
  }

  lemma TotalStep(g: Glyphs, st: ScanState, raw: string)
    requires !st.stopped && Classify(g, Strip(raw)) == Total
    ensures Step(g, st, raw) == ScanState(Close(st.emails, st.current), st.current, true)
  {
  }

  /** Number of lines the scan would treat as record markers. */
  function MarkerCount(g: Glyphs, lines: seq<string>): nat {
    if lines == [] then 0
    else (if Classify(g, Strip(lines[0])) == Marker then 1 else 0) + MarkerCount(g, lines[1..])
  }

  ghost predicate AllNonEmpty(emails: seq<EmailRecord>) {
    forall k :: 0 <= k < |emails| ==> !IsEmpty(emails[k])
  }

  function Pending(st: ScanState): nat {
    if st.stopped then 0 else 1
  }

  lemma {:induction false} ScanBound(g: Glyphs, st: ScanState, lines: seq<string>)
    requires AllNonEmpty(st.emails)
    ensures var fin := Scan(g, st, lines);
      && AllNonEmpty(fin.emails)
      && |fin.emails| + Pending(fin) <= |st.emails| + Pending(st) + MarkerCount(g, lines)
    decreases |lines|
  {
    if lines != [] && !st.stopped {
      StepBound(g, st, lines[0]);
      ScanBound(g, Step(g, st, lines[0]), lines[1..]);
    }
  }

  lemma StepBound(g: Glyphs, st: ScanState, raw: string)
    requires !st.stopped && AllNonEmpty(st.emails)
    ensures var st' := Step(g, st, raw);
      && AllNonEmpty(st'.emails)
      && |st'.emails| + Pending(st') <= |st.emails| + Pending(st) + (if Classify(g, Strip(raw)) == Marker then 1 else 0)
  {
    var st' := Step(g, st, raw);
    var kind := Classify(g, Strip(raw));
    if kind == Marker || kind == Total {
      assert st'.emails == Close(st.emails, st.current);
    } else {
      assert st'.emails == st.emails && !st'.stopped;
    }
  }

  /** Every emitted record is non-empty, and there are at most one more records than marker
      lines. */
  lemma ParseBound(g: Glyphs, lines: seq<string>)
    ensures var emails := ParseLines(g, lines);
      && (forall k :: 0 <= k < |emails| ==> !IsEmpty(emails[k]))
      && |emails| <= 1 + MarkerCount(g, lines)
  {
    ScanBound(g, Start, lines);
    ScanKeepsClosed(g, Start, lines);
  }

  /** The record has the field that a line of this kind sets. */
  predicate HasField(r: EmailRecord, kind: LineKind) {
    match kind
    case FromField => r.sender.Some?
    case DateField => r.date.Some?
    case PreviewField => r.preview.Some?
    case _ => false
  }

  /** A record no marker line opened: it has neither subject nor read flag. */
  predicate Subjectless(r: EmailRecord) {
    r.subject.None? && r.isRead.None?
  }

  /** Lines that neither open a record nor end the scan. */
  predicate OpensNothing(g: Glyphs, lines: seq<string>) {
    forall k :: 0 <= k < |lines| ==> Classify(g, Strip(lines[k])) != Marker && Classify(g, Strip(lines[k])) != Total
  }

  /** The first record of the scan, emitted or still open, is subject-less and has the field. */
  predicate FirstSubjectless(st: ScanState, kind: LineKind) {
    if st.emails == [] then Subjectless(st.current) && HasField(st.current, kind)
    else Subjectless(st.emails[0]) && HasField(st.emails[0], kind)
  }

  /** Lines before any marker leave the initial dict without subject and emit nothing. */
  lemma {:induction false} PreambleScan(g: Glyphs, st: ScanState, pre: seq<string>)
    requires !st.stopped && st.emails == [] && Subjectless(st.current)
    requires OpensNothing(g, pre)
    ensures var st' := Scan(g, st, pre); !st'.stopped && st'.emails == [] && Subjectless(st'.current)
    decreases |pre|
  {
    if pre != [] {
      assert Classify(g, Strip(pre[0])) != Marker && Classify(g, Strip(pre[0])) != Total;
      var rest := pre[1..];
      assert OpensNothing(g, rest) by {
        forall k | 0 <= k < |rest| ensures Classify(g, Strip(rest[k])) != Marker && Classify(g, Strip(rest[k])) != Total {
          assert rest[k] == pre[k + 1];
        }
      }
      PreambleScan(g, Step(g, st, pre[0]), rest);
    }
  }

  /** Every line keeps the first record subject-less and its field set. */
  lemma SubjectlessStep(g: Glyphs, st: ScanState, raw: string, kind: LineKind)
    requires !st.stopped && FirstSubjectless(st, kind)
    ensures FirstSubjectless(Step(g, st, raw), kind)
  {
    var line := Strip(raw);
    var c := Classify(g, line);
    if c == Marker || c == Total {
      if st.emails != [] {
        assert Close(st.emails, st.current)[0] == st.emails[0];
      } else {
        assert !IsEmpty(st.current);
        assert Close(st.emails, st.current) == [st.current];
      }
    }
  }

  lemma {:induction false} SubjectlessScan(g: Glyphs, st: ScanState, lines: seq<string>, kind: LineKind)
    requires FirstSubjectless(st, kind)
    ensures FirstSubjectless(Scan(g, st, lines), kind)
    decreases |lines|
  {
    if lines != [] && !st.stopped {
      SubjectlessStep(g, st, lines[0], kind);
      SubjectlessScan(g, Step(g, st, lines[0]), lines[1..], kind);
    }
  }

  /** A field line before any marker fills the initial empty dict; whatever follows, that
      subject-less record, with the field set, is the first record returned. */
  lemma FieldBeforeMarkerIsEmitted(g: Glyphs, pre: seq<string>, raw: string, post: seq<string>)
    requires OpensNothing(g, pre)
    requires Classify(g, Strip(raw)) == FromField || Classify(g, Strip(raw)) == DateField
          || Classify(g, Strip(raw)) == PreviewField
    ensures var emails := ParseLines(g, pre + [raw] + post);
      emails != [] && Subjectless(emails[0]) && HasField(emails[0], Classify(g, Strip(raw)))
  {
    var kind := Classify(g, Strip(raw));
    PreambleScan(g, Start, pre);
    var s0 := Scan(g, Start, pre);
    var s1 := Step(g, s0, raw);
    assert FirstSubjectless(s1, kind);
    assert Scan(g, s0, [raw]) == s1 by {
      assert Scan(g, s0, [raw]) == Scan(g, s1, []);
    }
    ScanAppend(g, Start, pre, [raw]);
    ScanAppend(g, Start, pre + [raw], post);
    SubjectlessScan(g, s1, post, kind);
    var fin := Scan(g, Start, pre + [raw] + post);
    assert fin == Scan(g, s1, post);
    if fin.emails != [] {
      assert Flush(fin)[0] == fin.emails[0];
    } else {
      assert Flush(fin) == [fin.current];
    }
  }

  // ---------------------------------------------------------------------------------------
  // The listing format the scripts print, and what the two glyph tables make of it

  /** One message as a listing script prints it. */
  datatype Listed = Listed(subject: string, read: bool, sender: string, date: string)

  /** A field the scripts print that has text and no whitespace at either end. */
  predicate Clean(s: string) {
    s != [] && !IsSpace(s[0]) && !IsSpace(s[|s| - 1])
  }

  predicate CleanMessage(m: Listed) {
    Clean(m.subject) && Clean(m.sender) && Clean(m.date)
  }

  /** The lines a listing script prints for one message: the read or unread glyph, a space and
      the subject; the indented `From:` and `Date:` lines; a blank line. */
  function MessageLines(m: Listed): seq<string> {
    [GlyphLineOf(m),
     FieldLineOf(true, m.sender),
     FieldLineOf(false, m.date),
     ""]
  }

  /** An indented field line: three spaces, the field name, a space and the value. */
  function FieldLineOf(from: bool, value: string): string {
    "   " + FieldName(from) + " " + value
  }

  function ListingBody(msgs: seq<Listed>): seq<string> {
    if msgs == [] then [] else MessageLines(msgs[0]) + ListingBody(msgs[1..])
  }

  /** A whole listing: the message blocks, then the `TOTAL EMAILS: n` line. */
  function Listing(msgs: seq<Listed>): seq<string> {
    ListingBody(msgs) + ["TOTAL EMAILS: " + DecimalString(|msgs|)]
  }

  /** The record a correct parse gives for a listed message. */
  function Expected(m: Listed): EmailRecord {
    EmailRecord(Some(m.subject), Some(m.read), Some(m.sender), Some(m.date), None)
  }

  function ExpectedAll(msgs: seq<Listed>): (r: seq<EmailRecord>)
    ensures |r| == |msgs|
  {
    if msgs == [] then [] else [Expected(msgs[0])] + ExpectedAll(msgs[1..])
  }

  /** A line does not start with a literal whose first character it does not share. */
  lemma FirstDiffers(line: string, p: string)
    requires line != [] && p != [] && line[0] != p[0]
    ensures !StartsWith(line, p)
  {
    if |p| <= |line| {
      assert line[..|p|][0] == line[0];
    }
  }

  lemma StartsWithConcat(p: string, s: string)
    ensures StartsWith(p + s, p)
  {
    assert (p + s)[..|p|] == p;
  }

  /** No literal of the table starts with `c`. */
  predicate AvoidsGlyphs(g: Glyphs, c: char) {
    && g.unread != [] && g.read != [] && g.rule != [] && g.mail != [] && g.warning != []
    && c != g.unread[0] && c != g.read[0] && c != g.rule[0] && c != g.mail[0] && c != g.warning[0]
  }

  /** A line whose first character is neither `=` nor the start of a glyph is classified by
      its field name alone. */
  lemma ClassifyPlain(g: Glyphs, line: string)
    requires line != [] && line[0] != '=' && AvoidsGlyphs(g, line[0])
    ensures Classify(g, line)
         == if StartsWith(line, "From:") then FromField
            else if StartsWith(line, "Date:") then DateField
            else if StartsWith(line, "Preview:") then PreviewField
            else if StartsWith(line, "TOTAL EMAILS") then Total
            else Ignored
  {
    FirstDiffers(line, "=");
    FirstDiffers(line, g.rule);
    FirstDiffers(line, g.mail);
    FirstDiffers(line, g.warning);
    FirstDiffers(line, g.unread);
    FirstDiffers(line, g.read);
  }

  /** The first characters that the listing's lines begin with, against both tables. */
  lemma GlyphHeads()
    ensures AvoidsGlyphs(IntendedGlyphs, 'F') && AvoidsGlyphs(IntendedGlyphs, 'D') && AvoidsGlyphs(IntendedGlyphs, 'T')
    ensures AvoidsGlyphs(SourceGlyphs, 'F') && AvoidsGlyphs(SourceGlyphs, 'D') && AvoidsGlyphs(SourceGlyphs, 'T')
    ensures AvoidsGlyphs(SourceGlyphs, IntendedGlyphs.unread[0]) && AvoidsGlyphs(SourceGlyphs, IntendedGlyphs.read[0])
  {
  }

  /** The first line of a message block. */
  function GlyphLineOf(m: Listed): string {
    (if m.read then IntendedGlyphs.read else IntendedGlyphs.unread) + " " + m.subject
  }

  /** A one-character glyph, a space and a clean subject: already stripped, and `line[2:]` is
      the subject. */
  lemma GlyphLineShape(glyph: string, subject: string)
    requires |glyph| == 1 && !IsSpace(glyph[0]) && Clean(subject)
    ensures var line := glyph + " " + subject;
      && Strip(line) == line && line[0] == glyph[0] && Drop(line, 2) == subject
  {
    var line := glyph + " " + subject;
    assert line[0] == glyph[0] && line[|line| - 1] == subject[|subject| - 1];
    StripUnchanged(line);
    assert line[2..] == subject;
  }

  /** Two one-character markers, distinct from each other, from `=` and from the banner glyphs. */
  predicate MarkersApart(g: Glyphs) {
    && |g.unread| == 1 && |g.read| == 1 && g.rule != [] && g.mail != [] && g.warning != []
    && g.unread[0] != g.read[0]
    && !IsSpace(g.unread[0]) && g.unread[0] != '='
    && g.unread[0] != g.rule[0] && g.unread[0] != g.mail[0] && g.unread[0] != g.warning[0]
    && !IsSpace(g.read[0]) && g.read[0] != '='
    && g.read[0] != g.rule[0] && g.read[0] != g.mail[0] && g.read[0] != g.warning[0]
  }

  /** With markers kept apart, a marker line opens the record of its subject and flag. */
  lemma MarkerLine(g: Glyphs, read: bool, subject: string)
    requires MarkersApart(g) && Clean(subject)
    ensures var line := (if read then g.read else g.unread) + " " + subject;
      && Classify(g, Strip(line)) == Marker
      && OpenRecord(g, Strip(line)) == NoFields.(subject := Some(subject), isRead := Some(read))
  {
    var glyph := if read then g.read else g.unread;
    var line := glyph + " " + subject;
    GlyphLineShape(glyph, subject);
    StripUnchanged(subject);
    FirstDiffers(line, "=");
    FirstDiffers(line, g.rule);
    FirstDiffers(line, g.mail);
    FirstDiffers(line, g.warning);
    assert line == glyph + (" " + subject);
    StartsWithConcat(glyph, " " + subject);
    if !read {
      FirstDiffers(line, g.read);
    }
  }

  /** With the glyphs the scripts print, the first line of a block is a marker. */
  lemma IntendedGlyphLine(m: Listed)
    requires Clean(m.subject)
    ensures var line := GlyphLineOf(m);
      && Classify(IntendedGlyphs, Strip(line)) == Marker
      && OpenRecord(IntendedGlyphs, Strip(line)) == NoFields.(subject := Some(m.subject), isRead := Some(m.read))
  {
    assert MarkersApart(IntendedGlyphs);
    MarkerLine(IntendedGlyphs, m.read, m.subject);
  }

  /** With the literals as written, the first line of a block is not recognised at all. */
  lemma SourceGlyphLine(m: Listed)
    requires Clean(m.subject)
    ensures Classify(SourceGlyphs, Strip(GlyphLineOf(m))) == Ignored
  {
    var line := GlyphLineOf(m);
    assert !IsSpace(IntendedGlyphs.read[0]) && !IsSpace(IntendedGlyphs.unread[0]);
    GlyphLineShape(if m.read then IntendedGlyphs.read else IntendedGlyphs.unread, m.subject);
    GlyphHeads();
    ClassifyPlain(SourceGlyphs, line);
    FirstDiffers(line, "From:");
    FirstDiffers(line, "Date:");
    FirstDiffers(line, "Preview:");
    FirstDiffers(line, "TOTAL EMAILS");
  }

  /** The indented `From:` or `Date:` line of a block yields its value. */
  lemma FieldLine(g: Glyphs, from: bool, value: string)
    requires Clean(value) && FieldsPlain(g)
    ensures var line := FieldLineOf(from, value);
      && Classify(g, Strip(line)) == (if from then FromField else DateField)
      && Strip(Drop(Strip(line), 5)) == value
  {
    var field := FieldName(from);
    var t := field + (" " + value);
    FieldText(field, value);
    PaddedField(field, value);
    FieldClass(g, from, t, value);
  }

  function FieldName(from: bool): (field: string)
    ensures |field| == 5 && field[0] == (if from then 'F' else 'D')
  {
    if from then "From:" else "Date:"
  }

  lemma PaddedField(field: string, value: string)
    requires |field| == 5 && !IsSpace(field[0]) && Clean(value)
    ensures Strip("   " + field + " " + value) == field + (" " + value)
  {
    var t := field + (" " + value);
    assert "   " + field + " " + value == "   " + t;
    assert t[0] == field[0] && t[|t| - 1] == value[|value| - 1];
    assert "   " + t + "" == "   " + t;
    StripPadded("   ", t, "");
  }

  lemma FieldClass(g: Glyphs, from: bool, t: string, value: string)
    requires t == FieldName(from) + (" " + value) && FieldsPlain(g)
    ensures Classify(g, t) == (if from then FromField else DateField)
  {
    ClassifyPlain(g, t);
    StartsWithConcat(FieldName(from), " " + value);
    if !from {
      FirstDiffers(t, "From:");
    }
  }

  /** `field + " " + value` has non-space ends and drops to `value` after five characters. */
  lemma FieldText(field: string, value: string)
    requires |field| == 5 && field[0] in {'F', 'D'} && Clean(value)
    ensures var t := field + (" " + value);
      && t[0] == field[0] && !IsSpace(t[0]) && !IsSpace(t[|t| - 1])
      && Strip(Drop(t, 5)) == value
  {
    var t := field + (" " + value);
    assert t[|t| - 1] == value[|value| - 1];
    assert Drop(t, 5) == " " + value;
    assert " " + value + "" == " " + value;
    StripPadded(" ", value, "");
  }

  lemma BlankLine(g: Glyphs)
    ensures Classify(g, Strip("")) == Skipped
  {
    StripUnchanged("");
  }

  /** A field line of a block overwrites its field of the open record. */
  lemma FieldStep(g: Glyphs, st: ScanState, from: bool, value: string)
    requires !st.stopped && Clean(value) && FieldsPlain(g)
    ensures Step(g, st, FieldLineOf(from, value))
         == if from then st.(current := st.current.(sender := Some(value)))
            else st.(current := st.current.(date := Some(value)))
  {
    FieldLine(g, from, value);
  }

  lemma BlankStep(g: Glyphs, st: ScanState)
    requires !st.stopped
    ensures Step(g, st, "") == st
  {
    BlankLine(g);
  }

  /** With the glyphs the scripts print, the first line of a block opens the message's record. */
  lemma MarkerStep(st: ScanState, m: Listed)
    requires !st.stopped && Clean(m.subject)
    ensures Step(IntendedGlyphs, st, GlyphLineOf(m))
         == ScanState(Close(st.emails, st.current), NoFields.(subject := Some(m.subject), isRead := Some(m.read)), false)
  {
    IntendedGlyphLine(m);
  }

  /** With the glyphs the scripts print, one message block closes the open record and leaves
      the message's own record open. */
  lemma IntendedBlock(st: ScanState, m: Listed)
    requires !st.stopped && CleanMessage(m)
    ensures Scan(IntendedGlyphs, st, MessageLines(m)) == ScanState(Close(st.emails, st.current), Expected(m), false)
  {
    MarkerStep(st, m);
    assert FieldsPlain(IntendedGlyphs) by {
      GlyphHeads();
    }
    var s1 := ScanState(Close(st.emails, st.current), NoFields.(subject := Some(m.subject), isRead := Some(m.read)), false);
    BlockAfterFirst(IntendedGlyphs, st, m, s1);
  }

  /** The table does not mistake a `From:` or `Date:` line for a marker or a banner. */
  predicate FieldsPlain(g: Glyphs) {
    AvoidsGlyphs(g, 'F') && AvoidsGlyphs(g, 'D')
  }

  /** After the first line of a block, the `From:` and `Date:` lines fill their fields and the
      blank line changes nothing. */
  lemma BlockAfterFirst(g: Glyphs, st: ScanState, m: Listed, s1: ScanState)
    requires !st.stopped && CleanMessage(m) && FieldsPlain(g)
    requires s1 == Step(g, st, GlyphLineOf(m)) && !s1.stopped
    ensures Scan(g, st, MessageLines(m)) == s1.(current := s1.current.(sender := Some(m.sender), date := Some(m.date)))
  {
    FieldStep(g, s1, true, m.sender);
    var s2 := s1.(current := s1.current.(sender := Some(m.sender)));
    FieldStep(g, s2, false, m.date);
    var s3 := s2.(current := s2.current.(date := Some(m.date)));
    BlankStep(g, s3);
    MessageLinesChain(m);
    ScanFour(g, st, GlyphLineOf(m), FieldLineOf(true, m.sender), FieldLineOf(false, m.date), "", s1, s2, s3, s3);
  }

  /** A scan over four lines is four steps. */
  lemma ScanFour(g: Glyphs, st: ScanState, l0: string, l1: string, l2: string, l3: string,
                 s1: ScanState, s2: ScanState, s3: ScanState, s4: ScanState)
    requires !st.stopped
    requires s1 == Step(g, st, l0) && !s1.stopped
    requires s2 == Step(g, s1, l1) && !s2.stopped
    requires s3 == Step(g, s2, l2) && !s3.stopped
    requires s4 == Step(g, s3, l3)
    ensures Scan(g, st, [l0] + ([l1] + ([l2] + [l3]))) == s4
  {
    ScanCons(g, st, l0, [l1] + ([l2] + [l3]));
    ScanCons(g, s1, l1, [l2] + [l3]);
    ScanCons(g, s2, l2, [l3]);
    ScanCons(g, s3, l3, []);
    assert [l3] == [l3] + [];
  }

  lemma ScanCons(g: Glyphs, st: ScanState, l: string, rest: seq<string>)
    requires !st.stopped
    ensures Scan(g, st, [l] + rest) == Scan(g, Step(g, st, l), rest)
  {
    assert ([l] + rest)[1..] == rest;
  }

  /** The four lines of a block, as a chain of one-line pieces. */
  lemma MessageLinesChain(m: Listed)
    ensures MessageLines(m)
         == [GlyphLineOf(m)] + ([FieldLineOf(true, m.sender)] + ([FieldLineOf(false, m.date)] + [""]))
  {
  }

  /** With the literals as written, a message block is only its `From:` and `Date:` lines: they
      overwrite the fields of whatever record is open. */
  lemma SourceBlock(st: ScanState, m: Listed)
    requires !st.stopped && CleanMessage(m)
    ensures Scan(SourceGlyphs, st, MessageLines(m))
         == st.(current := st.current.(sender := Some(m.sender), date := Some(m.date)))
  {
    SourceGlyphLine(m);
    assert Step(SourceGlyphs, st, GlyphLineOf(m)) == st;
    assert FieldsPlain(SourceGlyphs) by {
      GlyphHeads();
    }
    BlockAfterFirst(SourceGlyphs, st, m, st);
  }

  lemma {:induction false} IntendedBody(st: ScanState, msgs: seq<Listed>)
    requires !st.stopped && msgs != []
    requires forall k :: 0 <= k < |msgs| ==> CleanMessage(msgs[k])
    ensures Scan(IntendedGlyphs, st, ListingBody(msgs))
         == ScanState(Close(st.emails, st.current) + ExpectedAll(msgs[..|msgs| - 1]), Expected(msgs[|msgs| - 1]), false)
    decreases |msgs|
  {
    var g := IntendedGlyphs;
    var rest := msgs[1..];
    assert ListingBody(msgs) == MessageLines(msgs[0]) + ListingBody(rest);
    ScanAppend(g, st, MessageLines(msgs[0]), ListingBody(rest));
    IntendedBlock(st, msgs[0]);
    var st' := ScanState(Close(st.emails, st.current), Expected(msgs[0]), false);
    assert Scan(g, st, ListingBody(msgs)) == Scan(g, st', ListingBody(rest));
    if rest == [] {
      assert ListingBody(rest) == [];
      assert msgs[..|msgs| - 1] == [];
    } else {
      assert forall k :: 0 <= k < |rest| ==> CleanMessage(rest[k]) by {
        forall k | 0 <= k < |rest| ensures CleanMessage(rest[k]) {
          assert rest[k] == msgs[k + 1];
        }
      }
      IntendedBody(st', rest);
      IntendedStep(st, msgs);
    }
  }

  lemma IntendedStep(st: ScanState, msgs: seq<Listed>)
    requires |msgs| >= 2
    ensures var st' := ScanState(Close(st.emails, st.current), Expected(msgs[0]), false);
      var rest := msgs[1..];
      Close(st'.emails, st'.current) + ExpectedAll(rest[..|rest| - 1])
        == Close(st.emails, st.current) + ExpectedAll(msgs[..|msgs| - 1])
      && rest[|rest| - 1] == msgs[|msgs| - 1]
  {
    var init := msgs[..|msgs| - 1];
    var rest := msgs[1..];
    assert init[0] == msgs[0] && init[1..] == rest[..|rest| - 1];
    assert ExpectedAll(init) == [Expected(msgs[0])] + ExpectedAll(rest[..|rest| - 1]);
    assert !IsEmpty(Expected(msgs[0]));
  }

  lemma {:induction false} SourceBody(st: ScanState, msgs: seq<Listed>)
    requires !st.stopped && msgs != []
    requires forall k :: 0 <= k < |msgs| ==> CleanMessage(msgs[k])
    ensures var last := msgs[|msgs| - 1];
      Scan(SourceGlyphs, st, ListingBody(msgs))
        == st.(current := st.current.(sender := Some(last.sender), date := Some(last.date)))
    decreases |msgs|
  {
    var g := SourceGlyphs;
    ScanAppend(g, st, MessageLines(msgs[0]), ListingBody(msgs[1..]));
    SourceBlock(st, msgs[0]);
    if |msgs| == 1 {
      assert ListingBody(msgs[1..]) == [];
    } else {
      SourceBody(st.(current := st.current.(sender := Some(msgs[0].sender), date := Some(msgs[0].date))), msgs[1..]);
    }
  }

  /** The closing line of a listing is recognised as `TOTAL EMAILS` by any table whose glyphs do
      not start with `T`. */
  lemma TotalLine(g: Glyphs, n: nat)
    requires AvoidsGlyphs(g, 'T')
    ensures Classify(g, Strip("TOTAL EMAILS: " + DecimalString(n))) == Total
  {
    var d := DecimalString(n);
    var line := "TOTAL EMAILS" + (": " + d);
    assert "TOTAL EMAILS: " + d == line;
    assert line[0] == 'T' && line[|line| - 1] == d[|d| - 1];
    StripUnchanged(line);
    ClassifyPlain(g, line);
    StartsWithConcat("TOTAL EMAILS", ": " + d);
    FirstDiffers(line, "From:");
    FirstDiffers(line, "Date:");
    FirstDiffers(line, "Preview:");
  }

  lemma ListingEnd(g: Glyphs, msgs: seq<Listed>, body: ScanState)
    requires (g == IntendedGlyphs || g == SourceGlyphs)
    requires Scan(g, Start, ListingBody(msgs)) == body && !body.stopped
    ensures ParseLines(g, Listing(msgs)) == Close(body.emails, body.current)
  {
    GlyphHeads();
    TotalLine(g, |msgs|);
    TotalEndsScan(g, ListingBody(msgs), "TOTAL EMAILS: " + DecimalString(|msgs|), []);
    assert ListingBody(msgs) + ["TOTAL EMAILS: " + DecimalString(|msgs|)] + [] == Listing(msgs);
  }

  /** With the glyphs the scripts print, parsing a listing gives back exactly its messages,
      one record each, in order. */
  lemma IntendedGlyphsParseListing(msgs: seq<Listed>)
    requires forall k :: 0 <= k < |msgs| ==> CleanMessage(msgs[k])
    ensures ParseLines(IntendedGlyphs, Listing(msgs)) == ExpectedAll(msgs)
  {
    if msgs == [] {
      ListingEnd(IntendedGlyphs, msgs, Start);
    } else {
      IntendedNonEmptyListing(msgs);
    }
  }

  lemma IntendedNonEmptyListing(msgs: seq<Listed>)
    requires msgs != [] && forall k :: 0 <= k < |msgs| ==> CleanMessage(msgs[k])
    ensures ParseLines(IntendedGlyphs, Listing(msgs)) == ExpectedAll(msgs)
  {
    var body := ScanState(ExpectedAll(msgs[..|msgs| - 1]), Expected(msgs[|msgs| - 1]), false);
    assert Scan(IntendedGlyphs, Start, ListingBody(msgs)) == body by {
      IntendedScanFromEmpty(Start, msgs);
    }
    assert ParseLines(IntendedGlyphs, Listing(msgs)) == Close(body.emails, body.current) by {
      ListingEnd(IntendedGlyphs, msgs, body);
    }
    assert ExpectedAll(msgs) == body.emails + [body.current] by {
      ExpectedAllSnoc(msgs);
    }
    assert !IsEmpty(body.current);
  }

  lemma IntendedScanFromEmpty(st: ScanState, msgs: seq<Listed>)
    requires st.emails == [] && IsEmpty(st.current) && !st.stopped
    requires msgs != [] && forall k :: 0 <= k < |msgs| ==> CleanMessage(msgs[k])
    ensures Scan(IntendedGlyphs, st, ListingBody(msgs))
         == ScanState(ExpectedAll(msgs[..|msgs| - 1]), Expected(msgs[|msgs| - 1]), false)
  {
    IntendedBody(st, msgs);
    assert Close(st.emails, st.current) == [];
  }

  lemma {:induction false} ExpectedAllSnoc(msgs: seq<Listed>)
    requires msgs != []
    ensures ExpectedAll(msgs) == ExpectedAll(msgs[..|msgs| - 1]) + [Expected(msgs[|msgs| - 1])]
    decreases |msgs|
  {
    if |msgs| > 1 {
      var init, rest := msgs[..|msgs| - 1], msgs[1..];
      ExpectedAllSnoc(rest);
      assert rest[..|rest| - 1] == init[1..];
      assert rest[|rest| - 1] == msgs[|msgs| - 1];
      assert ExpectedAll(init) == [Expected(init[0])] + ExpectedAll(init[1..]);
      assert init[0] == msgs[0];
    }
  }

  /** With the literals as written, no line of a listing is a marker: a non-empty listing comes
      out as one record without subject or read flag, holding the last message's sender and
      date. */
  lemma SourceGlyphsMergeListing(msgs: seq<Listed>)
    requires forall k :: 0 <= k < |msgs| ==> CleanMessage(msgs[k])
    ensures ParseLines(SourceGlyphs, Listing(msgs))
         == if msgs == [] then []
            else [EmailRecord(None, None, Some(msgs[|msgs| - 1].sender), Some(msgs[|msgs| - 1].date), None)]
  {
    if msgs == [] {
      ListingEnd(SourceGlyphs, msgs, Start);
    } else {
      SourceBody(Start, msgs);
      var body := Scan(SourceGlyphs, Start, ListingBody(msgs));
      ListingEnd(SourceGlyphs, msgs, body);
    }
  }

  // ---------------------------------------------------------------------------------------
  // inject_preferences

  function PreferencesLine(prefs: string): string {
    "User Preferences: " + prefs
  }

  /** The docstring a tool ends up with: unchanged without preferences; otherwise the
      preferences line is appended after a blank line, or forms the whole docstring when
      there was none. */
  function InjectPreferences(doc: Option<string>, prefs: string): (r: Option<string>)
    ensures prefs == "" ==> r == doc
    ensures prefs != "" ==> (r.Some? && |PreferencesLine(prefs)| <= |r.value|
      && r.value[|r.value| - |PreferencesLine(prefs)|..] == PreferencesLine(prefs))
    ensures prefs != "" && Provided(doc) ==>
      (var kept := RStrip(doc.value); kept <= doc.value && r.value == kept + "\n\n" + PreferencesLine(prefs))
    ensures prefs != "" && !Provided(doc) ==> r == Some(PreferencesLine(prefs))
  {
    if prefs != "" then
      var line := PreferencesLine(prefs);
      if Provided(doc) then
        var text := RStrip(doc.value) + "\n\n" + line;
        assert text[|text| - |line|..] == line;
        Some(text)
      else Some(line)
    else doc
  }
}
