/** Sending the progress report by email: choosing the address, the empty-address guard,
    the status shown beside the form, and the per-subject summary text of the message. */
module Email {
  import opened Options
  import opened Strings
  import opened Catalog
  import opened ProgressStore
  import opened Aggregation

  /** `emailStatus`: whether a send is in flight, the message shown, and whether it is an
      error. */
  datatype EmailStatus = EmailStatus(sending: bool, message: string, error: bool)

  /** The status before any send, and after the success message is cleared. */
  const Idle: EmailStatus := EmailStatus(false, "", false)

  const MissingAddress: EmailStatus := EmailStatus(false, "Please provide an email address", true)
  const Sending: EmailStatus := EmailStatus(true, "Sending email...", false)
  const Sent: EmailStatus := EmailStatus(false, "Progress data sent to your email!", false)
  const SendFailed: EmailStatus := EmailStatus(false, "Failed to send email. Please try again later.", true)

  /** `backupEmail || userProfile.email`: the address typed into the form wins, and the
      profile's address is used when the form field is empty. */
  function ChooseAddress(backup: string, profileEmail: string): (r: string)
    ensures r == "" <==> backup == "" && profileEmail == ""
    ensures r == backup || r == profileEmail
    ensures r != backup ==> backup == ""
  {
    if backup != "" then backup else profileEmail
  }

  /** The template parameters handed to the mail service; the JSON dump of the whole state is
      not part of this model. */
  datatype EmailRequest = EmailRequest(toEmail: string, userName: string, subjectSummary: string)

  /** `${name}: ${percent}% complete (${value}/${total})`. */
  function SummaryLine(row: SubjectSummary): (line: string)
    ensures |line| >= |row.name| + 19
    ensures row.name <= line && line[|line| - 1] == ')'
  {
    row.name + ": " + NatToString(row.percent) + "% complete ("
      + NatToString(row.value) + "/" + NatToString(row.total) + ")"
  }

  function SummaryLines(rows: seq<SubjectSummary>): (lines: seq<string>)
    ensures |lines| == |rows|
    ensures forall i :: 0 <= i < |rows| ==> lines[i] == SummaryLine(rows[i])
  {
    seq(|rows|, i requires 0 <= i < |rows| => SummaryLine(rows[i]))
  }

  /** The `subject_summary` parameter: one line per subject, joined with newlines. */
  function SummaryText(rows: seq<SubjectSummary>): (text: string)
    ensures |rows| >= 1 ==> SummaryLine(rows[0]) <= text
  {
    Join(SummaryLines(rows), '\n')
  }

  /** `sendProgressByEmail(email)` up to the call into the mail service: an empty address
      only reports the error and sends nothing; otherwise the status becomes "sending" and
      the request carries the address, the profile name and the summary text. */
  function SendProgress(email: string, userName: string, rows: seq<SubjectSummary>)
    : (r: (EmailStatus, Option<EmailRequest>))
    ensures r.1.None? <==> email == ""
    ensures r.0.error <==> email == ""
    ensures r.0.sending <==> r.1.Some?
    ensures email == "" ==> r.0 == MissingAddress
    ensures r.1.Some? ==> r.1.value.toEmail == email && r.1.value.userName == userName
    ensures r.1.Some? ==> r.1.value.subjectSummary == SummaryText(rows)
  {
    if email == "" then (MissingAddress, None)
    else (Sending, Some(EmailRequest(email, userName, SummaryText(rows))))
  }

  /** The status once the mail service answers: not sending any more, and an error exactly
      when the send failed. */
  function Delivered(succeeded: bool): (s: EmailStatus)
    ensures !s.sending
    ensures s.error <==> !succeeded
    ensures s.message != ""
  {
    if succeeded then Sent else SendFailed
  }

  /** Submitting the form sends nothing, and shows the error, exactly when neither the form
      nor the profile holds an address; a request goes to the address chosen. */
  lemma SubmitGuard(backup: string, profile: string, userName: string, rows: seq<SubjectSummary>)
    ensures var r := SendProgress(ChooseAddress(backup, profile), userName, rows);
            && (r.1.None? <==> backup == "" && profile == "")
            && (r.1.None? ==> r.0 == MissingAddress)
            && (backup != "" ==> r.1 == Some(EmailRequest(backup, userName, SummaryText(rows))))
            && (backup == "" && profile != "" ==> r.1 == Some(EmailRequest(profile, userName, SummaryText(rows))))
  {
  }

  predicate IsNumeral(s: string) {
    |s| >= 1 && AllDigits(s)
  }

  /** Reads a summary line back into its record; `None` for text not of that shape. */
  function ParseSummaryLine(line: string): Option<SubjectSummary> {
    var f := Split(line, ':');
    if |f| != 2 || |f[1]| == 0 || f[1][0] != ' ' then None
    else
      var g := Split(f[1][1..], '%');
      if |g| != 2 || !IsNumeral(g[0]) then None
      else
        var rest := g[1];
        if |rest| < 12 || rest[..11] != " complete (" || rest[|rest| - 1] != ')' then None
        else
          var h := Split(rest[11..|rest| - 1], '/');
          if |h| != 2 || !IsNumeral(h[0]) || !IsNumeral(h[1]) then None
          else Some(SubjectSummary(f[0], DigitsValue(h[0]), DigitsValue(h[1]), DigitsValue(g[0])))
  }

  /** The part of a summary line after the percent sign, around the two counts. */
  lemma TailShape(inner: string)
    ensures var tail := " complete (" + inner + ")";
            && |tail| >= 12 && tail[..11] == " complete (" && tail[|tail| - 1] == ')'
            && tail[11..|tail| - 1] == inner
            && ('%' !in inner ==> '%' !in tail)
            && (':' !in inner ==> ':' !in tail)
  {
    var tail := " complete (" + inner + ")";
    assert tail[11..|tail| - 1] == inner;
  }

  /** A summary line regrouped around its three separators: the colon, the percent sign and
      the slash. */
  lemma SummaryLineShape(name: string, p: string, v: string, t: string)
    ensures name + ": " + p + "% complete (" + v + "/" + t + ")"
         == name + [':'] + ([' '] + (p + ['%'] + (" complete (" + (v + ['/'] + t) + ")")))
  {
    assert ": " == [':'] + [' '];
    assert "% complete (" == ['%'] + " complete (";
    assert "/" == ['/'];
  }

  /** A summary line shows the whole record: for a subject name without a colon, reading
      the line back gives the name, the completed count, the total and the percentage. */
  lemma SummaryLineRoundTrip(row: SubjectSummary)
    requires ':' !in row.name
    ensures ParseSummaryLine(SummaryLine(row)) == Some(row)
  {
    var p, v, t := NatToString(row.percent), NatToString(row.value), NatToString(row.total);
    NatToStringRoundTrip(row.percent);
    NatToStringRoundTrip(row.value);
    NatToStringRoundTrip(row.total);
    DigitsExclude(p, ':'); DigitsExclude(v, ':'); DigitsExclude(t, ':');
    DigitsExclude(p, '%'); DigitsExclude(v, '%'); DigitsExclude(t, '%');
    DigitsExclude(v, '/'); DigitsExclude(t, '/');
    var inner := v + ['/'] + t;
    SplitTwo(v, t, '/');
    assert ':' !in inner && '%' !in inner;
    var tail := " complete (" + inner + ")";
    TailShape(inner);
    var rest := p + ['%'] + tail;
    SplitTwo(p, tail, '%');
    assert ':' !in [' '] + rest;
    SplitTwo(row.name, [' '] + rest, ':');
    SummaryLineShape(row.name, p, v, t);
    assert ([' '] + rest)[1..] == rest;
  }

  lemma LineHasNoNewline(row: SubjectSummary)
    requires '\n' !in row.name
    ensures '\n' !in SummaryLine(row)
  {
    DigitsExclude(NatToString(row.percent), '\n');
    DigitsExclude(NatToString(row.value), '\n');
    DigitsExclude(NatToString(row.total), '\n');
  }

  /** A subject name the summary text can carry: no colon and no line break. */
  predicate PlainName(name: string) {
    ':' !in name && '\n' !in name
  }

  /** The summary text splits back into its lines, one per subject, in subject order, and each
      line reads back into its subject's record. */
  lemma SummaryTextRoundTrip(rows: seq<SubjectSummary>)
    requires |rows| >= 1
    requires forall i :: 0 <= i < |rows| ==> PlainName(rows[i].name)
    ensures Split(SummaryText(rows), '\n') == SummaryLines(rows)
    ensures forall i :: 0 <= i < |rows| ==>
              ParseSummaryLine(Split(SummaryText(rows), '\n')[i]) == Some(rows[i])
  {
    var lines := SummaryLines(rows);
    forall i | 0 <= i < |rows|
      ensures '\n' !in lines[i] && ParseSummaryLine(lines[i]) == Some(rows[i])
    {
      LineHasNoNewline(rows[i]);
      SummaryLineRoundTrip(rows[i]);
    }
    SplitJoin(lines, '\n');
  }

  /** No subject name of the catalog holds a colon or a newline. */
  lemma SubjectNamesPlain()
    ensures forall i :: 0 <= i < |SUBJECTS| ==> PlainName(SUBJECTS[i].0)
  {
    SubjectsSizes();
    NamesPlain(SubjectNames(SUBJECTS));
  }

  lemma NamesPlain(names: seq<string>)
    requires names == ["Advanced Accounting", "Corporate and Other Law", "Taxation",
                       "Cost and Management Accounting", "Auditing and Ethics", "FM and SM"]
    ensures forall i :: 0 <= i < |names| ==> PlainName(names[i])
  {
    assert PlainName("Advanced Accounting");
    assert PlainName("Corporate and Other Law");
    assert PlainName("Taxation");
    assert PlainName("Cost and Management Accounting");
    assert PlainName("Auditing and Ethics");
    assert PlainName("FM and SM");
  }

  /** The email for the catalog: the summary has one line per subject, and each reads back
      into that subject's progress record. */
  lemma CatalogSummaryRoundTrip(data: Progress)
    ensures var rows := SubjectData(SUBJECTS, data);
            && |Split(SummaryText(rows), '\n')| == 6
            && forall i :: 0 <= i < 6 ==>
                 ParseSummaryLine(Split(SummaryText(rows), '\n')[i]) == Some(rows[i])
  {
    SubjectsSizes();
    SubjectNamesPlain();
    var rows := SubjectData(SUBJECTS, data);
    assert forall i :: 0 <= i < |rows| ==> rows[i].name == SUBJECTS[i].0;
    SummaryTextRoundTrip(rows);
  }
}
