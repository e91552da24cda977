/** Step 5 of the report wizard, the output options: the output format, the
    file name, and the optional e-mail of the report to a comma-separated
    list of recipients, whose fields are cleared whenever e-mailing is
    switched off. */
module Output {
  import opened Wrappers
  import opened Text

  /** The form's values; optional fields are `None` when absent. `format`
      is kept as the raw string the schema checks. */
  datatype OutputOptions = OutputOptions(
    format: Option<string>,
    fileName: Option<string>,
    location: Option<string>,
    emailImmediately: bool,
    recipients: Option<string>,
    emailMessage: Option<string>)

  const DefaultMessage: string := "Please find the attached SCADA report."

  // ---------------------------------------------------------------------------
  // `outputOptionsSchema`

  datatype OutputError = FormatRequired | FormatInvalid | FileNameRequired | RecipientsInvalid

  function Message(e: OutputError): string {
    match e
    case FormatRequired => "You need to select an output format."
    case FormatInvalid => "Invalid enum value. Expected 'pdf' | 'csv'"
    case FileNameRequired => "File name is required."
    case RecipientsInvalid => "Please provide valid email addresses, separated by commas."
  }

  predicate FormatValid(format: Option<string>) {
    format == Some("pdf") || format == Some("csv")
  }

  /** An absent file name is replaced by the schema's default, which is never
      empty; a present one must have at least one character. */
  predicate FileNameValid(fileName: Option<string>) {
    fileName.None? || |fileName.value| >= 1
  }

  /** `pieces.every(piece => isEmail(piece.trim()))`. `isEmail` stands for
      the schema library's address check. */
  predicate EveryIsEmail(pieces: seq<string>, isEmail: string -> bool) {
    pieces == [] || (isEmail(Trim(pieces[0])) && EveryIsEmail(pieces[1..], isEmail))
  }

  /** `every` holds exactly when each piece, trimmed, is an address. */
  lemma {:induction false} EveryIsEmailIff(pieces: seq<string>, isEmail: string -> bool)
    ensures EveryIsEmail(pieces, isEmail) <==> forall i :: 0 <= i < |pieces| ==> isEmail(Trim(pieces[i]))
  {
    if pieces != [] {
      EveryIsEmailIff(pieces[1..], isEmail);
      assert forall i :: 1 <= i < |pieces| ==> pieces[i] == pieces[1..][i - 1];
    }
  }

  /** Whether every comma-separated piece, trimmed, is an address. */
  predicate EveryPieceIsEmail(val: string, isEmail: string -> bool) {
    EveryIsEmail(Split(val, ','), isEmail)
  }

  /** The `recipients` refinement: blank (absent, empty or only white space)
      is accepted; otherwise every piece must be an address. */
  predicate RecipientsValid(recipients: Option<string>, isEmail: string -> bool) {
    recipients.None? || recipients.value == "" || Trim(recipients.value) == ""
    || EveryPieceIsEmail(recipients.value, isEmail)
  }

  /** What the refinement accepts: an absent list, a list of nothing but
      white space, and otherwise exactly the lists whose every piece is an
      address. */
  lemma RecipientsRule(recipients: Option<string>, isEmail: string -> bool)
    ensures recipients.None? ==> RecipientsValid(recipients, isEmail)
    ensures recipients.Some? && (forall i :: 0 <= i < |recipients.value| ==> IsSpace(recipients.value[i])) ==>
      RecipientsValid(recipients, isEmail)
    ensures recipients.Some? && (exists i :: 0 <= i < |recipients.value| && !IsSpace(recipients.value[i])) ==>
      (RecipientsValid(recipients, isEmail) <==> EveryPieceIsEmail(recipients.value, isEmail))
  {
    if recipients.Some? {
      TrimEmptyIff(recipients.value);
    }
  }

  /** The finding `e` unless the rule holds. */
  function Check(ok: bool, e: OutputError): (r: seq<OutputError>)
    ensures forall x :: x in r <==> !ok && x == e
    ensures r == [] <==> ok
  {
    if ok then [] else [e]
  }

  /** Whether the values call for the finding `e`. */
  predicate Fails(o: OutputOptions, isEmail: string -> bool, e: OutputError) {
    match e
    case FormatRequired => o.format.None?
    case FormatInvalid => o.format.Some? && !FormatValid(o.format)
    case FileNameRequired => !FileNameValid(o.fileName)
    case RecipientsInvalid => !RecipientsValid(o.recipients, isEmail)
  }

  /** The schema's findings, in field order; no finding means valid. */
  function ValidateOutput(o: OutputOptions, isEmail: string -> bool): (errors: seq<OutputError>)
    ensures errors == [] <==>
      FormatValid(o.format) && FileNameValid(o.fileName) && RecipientsValid(o.recipients, isEmail)
    ensures forall e :: e in errors <==> Fails(o, isEmail, e)
  {
    Check(o.format.Some?, FormatRequired)
    + Check(o.format.None? || FormatValid(o.format), FormatInvalid)
    + Check(FileNameValid(o.fileName), FileNameRequired)
    + Check(RecipientsValid(o.recipients, isEmail), RecipientsInvalid)
  }

  /** The recipients rule does not look at the e-mail switch: a malformed list
      is rejected even while e-mailing is off. */
  lemma RecipientsIgnoreSwitch(o: OutputOptions, isEmail: string -> bool, b: bool)
    ensures ValidateOutput(o.(emailImmediately := b), isEmail) == ValidateOutput(o, isEmail)
  {
  }

  /** A trailing comma leaves an empty last piece, so the list is rejected
      whenever the empty string is not an address. */
  lemma TrailingCommaRejected(val: string, isEmail: string -> bool)
    requires !isEmail("")
    ensures !RecipientsValid(Some(val + ","), isEmail)
  {
    var s := val + ",";
    assert !IsSpace(s[|s| - 1]);
    SplitAppend(val, "", ',');
    assert val + [','] + "" == s;
    RecipientsRule(Some(s), isEmail);
    var pieces := Split(s, ',');
    assert pieces[|pieces| - 1] == "";
    assert Trim("") == "";
    EveryIsEmailIff(pieces, isEmail);
  }

  /** An empty piece anywhere (",," or a leading comma) is rejected the same
      way. */
  lemma EmptyPieceRejected(a: string, b: string, isEmail: string -> bool)
    requires !isEmail("")
    ensures !RecipientsValid(Some(a + ",," + b), isEmail)
  {
    var s := a + ",," + b;
    assert !IsSpace(s[|a|]);
    SplitAppend(a, [','] + b, ',');
    assert a + [','] + ([','] + b) == s;
    SplitAppend([], b, ',');
    assert [] + [','] + b == [','] + b;
    RecipientsRule(Some(s), isEmail);
    var pieces := Split(s, ',');
    assert pieces[|Split(a, ',')|] == "";
    assert Trim("") == "";
    EveryIsEmailIff(pieces, isEmail);
  }

  /** A list written as addresses joined with commas, each possibly padded
      with white space, is accepted: splitting recovers the padded addresses
      and trimming strips the padding. */
  lemma JoinedAddressesAccepted(words: seq<string>, isEmail: string -> bool)
    requires words != []
    requires forall i :: 0 <= i < |words| ==> ',' !in words[i] && isEmail(Trim(words[i]))
    ensures RecipientsValid(Some(Join(words, ',')), isEmail)
  {
    SplitJoin(words, ',');
    EveryIsEmailIff(words, isEmail);
  }

  // ---------------------------------------------------------------------------
  // The form's state

  /** The form's default values; `today` stands for the ISO date the default
      file name is built from. */
  function Defaults(today: string): (o: OutputOptions)
    ensures o.format == Some("pdf") && !o.emailImmediately
    ensures o.recipients == Some("") && o.emailMessage == Some(DefaultMessage)
  {
    OutputOptions(Some("pdf"), Some("SCADA_Report_" + today), None, false, Some(""), Some(DefaultMessage))
  }

  /** The defaults pass the schema, whatever the date and the address check. */
  lemma DefaultsValid(today: string, isEmail: string -> bool)
    ensures ValidateOutput(Defaults(today), isEmail) == []
  {
    assert |"SCADA_Report_" + today| >= 1;
  }

  class OutputForm {
    var values: OutputOptions

    /** While e-mailing is off, the recipients are empty and the message is
        the default one. */
    ghost predicate Valid()
      reads this
    {
      !values.emailImmediately ==> values.recipients == Some("") && values.emailMessage == Some(DefaultMessage)
    }

    constructor (today: string)
      ensures Valid() && values == Defaults(today)
    {
      values := Defaults(today);
    }

    /** The e-mail switch, followed by the effect that clears the e-mail
        fields when the switch is off. */
    method SetEmailImmediately(on: bool)
      modifies this
      ensures Valid()
      ensures values.emailImmediately == on
      ensures on ==> values == old(values).(emailImmediately := on)
      ensures !on ==> values == old(values).(emailImmediately := on, recipients := Some(""), emailMessage := Some(DefaultMessage))
    {
      values := values.(emailImmediately := on);
      if !on {
        values := values.(recipients := Some(""), emailMessage := Some(DefaultMessage));
      }
    }

    /** The recipients box, only shown while e-mailing is on. */
    method SetRecipients(recipients: string)
      requires values.emailImmediately
      modifies this
      ensures Valid() && values == old(values).(recipients := Some(recipients))
    {
      values := values.(recipients := Some(recipients));
    }

    /** The message box, only shown while e-mailing is on. */
    method SetEmailMessage(message: string)
      requires values.emailImmediately
      modifies this
      ensures Valid() && values == old(values).(emailMessage := Some(message))
    {
      values := values.(emailMessage := Some(message));
    }

    method SetFormat(format: string)
      requires Valid()
      modifies this
      ensures Valid() && values == old(values).(format := Some(format))
    {
      values := values.(format := Some(format));
    }

    method SetFileName(fileName: string)
      requires Valid()
      modifies this
      ensures Valid() && values == old(values).(fileName := Some(fileName))
    {
      values := values.(fileName := Some(fileName));
    }
  }
}
