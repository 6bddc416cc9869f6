/**
  `BulkOps::Error`: the error record every other part of the library
  accumulates, and the plain-text report that `write_errors!` assembles
  from a list of them, one section per kind of error.
 */
module Errors {
  import opened Text

  const MAX_ERROR: nat := 5000
  const MAX_ERROR_SHORT: nat := 50

  /** An error; `kind` is the name of the Ruby symbol in `type`. */
  datatype Error = Error(
    kind: string,
    rowNumber: Option<int>,
    objectId: Option<string>,
    message: Option<string>,
    optionName: Option<string>,
    optionValues: Option<string>,
    field: Option<string>,
    url: Option<string>,
    file: Option<string>
  )

  /** `Error.new` as written: the keyword is `options_name:` but the body
      assigns `@option_name = option_name`, which reads the (still nil)
      accessor, so the option name given is never stored. */
  function NewErrorAsWritten(kind: string, rowNumber: Option<int>, objectId: Option<string>, message: Option<string>,
                             optionsName: Option<string>, optionValues: Option<string>, field: Option<string>,
                             url: Option<string>, file: Option<string>): (e: Error)
    ensures e.optionName == None
  {
    Error(kind, rowNumber, objectId, message, None, optionValues, field, url, file)
  }

  /** `Error.new` as evidently intended: every argument is stored. */
  function NewError(kind: string, rowNumber: Option<int>, objectId: Option<string>, message: Option<string>,
                    optionsName: Option<string>, optionValues: Option<string>, field: Option<string>,
                    url: Option<string>, file: Option<string>): (e: Error)
    ensures e.optionName == optionsName
    ensures e.kind == kind && e.rowNumber == rowNumber && e.url == url && e.message == message
  {
    Error(kind, rowNumber, objectId, message, optionsName, optionValues, field, url, file)
  }

  /** The option name handed to the constructor is lost as written, and kept
      once the assignment reads the keyword argument. */
  lemma OptionNameLost(name: string)
    ensures NewErrorAsWritten("invalid_config_value", None, None, None, Some(name), None, None, None, None).optionName
            != Some(name)
    ensures NewError("invalid_config_value", None, None, None, Some(name), None, None, None, None).optionName
            == Some(name)
  {
  }

  // ---------------------------------------------------------------------
  // error_message

  /** What `error_message` produces: the section text, or the exception a
      branch raises (several branches name undefined variables). */
  datatype Rendered = Message(text: string) | Raises(reason: string)

  function MaxError(short: bool): nat {
    if short then MAX_ERROR_SHORT else MAX_ERROR
  }

  /** String interpolation of an optional value: nil renders as "". */
  function Show(o: Option<string>): string {
    match o
    case Some(s) => s
    case None => ""
  }

  function ShowRow(r: Option<int>): string {
    match r
    case Some(n) => IntToString(n)
    case None => ""
  }

  /** `errors.map(...)`: one rendered line per error. */
  function Lines(errors: seq<Error>, line: Error -> string): (r: seq<string>)
    ensures |r| == |errors| && forall i :: 0 <= i < |errors| ==> r[i] == line(errors[i])
  {
    seq(|errors|, i requires 0 <= i < |errors| => line(errors[i]))
  }

  // The sections are built as `message += ...` builds them, left to right;
  // these three lemmas find a listed line or a count inside such a text.

  lemma ListedIn(pre: string, lines: seq<string>, sep: string, i: nat)
    requires i < |lines|
    ensures Contains(pre + Join(lines, sep), lines[i])
  {
    JoinContains(lines, sep, i);
    ContainsPrepend(pre, Join(lines, sep), lines[i]);
  }

  lemma ListedBefore(pre: string, lines: seq<string>, sep: string, post: string, i: nat)
    requires i < |lines|
    ensures Contains(pre + Join(lines, sep) + post, lines[i])
  {
    ListedIn(pre, lines, sep, i);
    ContainsAppendLeft(pre + Join(lines, sep), post, lines[i]);
  }

  lemma StatedIn(pre: string, n: string, mid: string, post: string)
    ensures Contains(pre + n + mid + post, n)
  {
    ContainsSelf(n);
    ContainsPrepend(pre, n, n);
    ContainsAppendLeft(pre + n, mid, n);
    ContainsAppendLeft(pre + n + mid, post, n);
  }

  // Each branch of `error_message` is one function of the errors of that
  // kind and of the threshold `max`.

  /** `:mismatched_auth_terms`: the row numbers, joined by ",". */
  const MISMATCH_LEAD: string :=
    "\n-- Controlled Authority IDs and Labels don't match -- \nThe operation is set to create an error if the provided URLs for controlled authority terms do not resolve to the provided labels.\n"

  function MismatchLine(e: Error): string {
    ShowRow(e.rowNumber)
  }

  function MismatchExample(e: Error): string {
    ShowRow(e.rowNumber) + ".\n"
  }

  function MismatchSection(errors: seq<Error>, max: nat): string
    requires max > 0
  {
    if |errors| < max then
      MISMATCH_LEAD + "The following rows were affected:\n" + Join(Lines(errors, MismatchLine), ",") + "\n"
    else
      MISMATCH_LEAD + NatToString(|errors|) + " rows were affected. An example is row # " + MismatchExample(errors[0])
  }

  /** `:upload_error`. Below the threshold each line interpolates
      `row_number`, which is undefined in `error_message`. */
  const UPLOAD_LEAD: string :=
    "\n-- Errors uploading files -- \nYour files looked ok when we checked earlier, but we couldn't access them when we were trying to actually start the operation.\n"

  function UploadExample(e: Error): string {
    ShowRow(e.rowNumber) + " with file " + Show(e.file) + ".\n"
  }

  function UploadSection(errors: seq<Error>, max: nat): Rendered
    requires max > 0
  {
    if |errors| < max && |errors| > 0 then Raises("undefined local variable or method `row_number'")
    else if |errors| < max then Message(UPLOAD_LEAD + "The following files were affected:\n" + "\n")
    else Message(UPLOAD_LEAD + NatToString(|errors|) + " rows were affected. An example is row # "
                 + UploadExample(errors[0]))
  }

  /** `:no_work_id_field`, `:job_failure` and `:missing_required_option`:
      their blocks name `error` where the block parameter is `arg`, so any
      error at all raises. */
  function NoWorkIdSection(errors: seq<Error>): Rendered {
    if |errors| > 0 then Raises("undefined local variable or method `error'")
    else Message("\n-- Cannot find work id field in spreadsheet -- \nWe were trying to start your operation, but could find find the work id for "
                 + NatToString(|errors|)
                 + " different rows of the spreadsheet.\nCheck your spreadsheet and try again.\n" + "\n")
  }

  function JobFailureSection(errors: seq<Error>): Rendered {
    if |errors| > 0 then Raises("undefined local variable or method `error'")
    else Message("\n-- Jobs Failed -- \n:" + "\n")
  }

  function MissingOptionSection(errors: seq<Error>): Rendered {
    if |errors| > 0 then Raises("undefined local variable or method `error'")
    else Message("\n-- Errors in configuration file -- \nMissing required option(s):" + "\n")
  }

  /** `:invalid_config_value`: one line per error, never truncated. */
  const INVALID_VALUE_LEAD: string := "\n-- Errors in configuration file values --\n"

  function InvalidValueLine(e: Error): string {
    "Unacceptable value for " + Show(e.optionName) + ". Acceptable values include: " + Show(e.optionValues) + "\n"
  }

  function InvalidValueSection(errors: seq<Error>): string {
    INVALID_VALUE_LEAD + Join(Lines(errors, InvalidValueLine), "")
  }

  /** `:bad_header`: every field, joined by ", ". */
  const BAD_HEADER_LEAD: string :=
    "\n-- Error interpreting column header(s) --\nWe cannot interpret all of the headers from your metadata spreadsheet. \nSpecifically, the following headers did not make sense to us:\n"

  function FieldLine(e: Error): string {
    Show(e.field)
  }

  function BadHeaderSection(errors: seq<Error>): string {
    BAD_HEADER_LEAD + Join(Lines(errors, FieldLine), ", ") + "\n"
  }

  /** The errors whose url is `u`, in order. */
  function WithUrl(errors: seq<Error>, u: Option<string>): (r: seq<Error>)
    ensures |r| <= |errors|
    ensures forall e :: e in r <==> e in errors && e.url == u
  {
    if |errors| == 0 then []
    else (if errors[0].url == u then [errors[0]] else []) + WithUrl(errors[1..], u)
  }

  function Urls(errors: seq<Error>): (r: seq<Option<string>>)
    ensures |r| == |errors| && forall i :: 0 <= i < |errors| ==> r[i] == errors[i].url
  {
    seq(|errors|, i requires 0 <= i < |errors| => errors[i].url)
  }

  /** `map(&:row_number).compact`, rendered. */
  function PresentRows(errors: seq<Error>): seq<string> {
    if |errors| == 0 then []
    else (if errors[0].rowNumber.Some? then [IntToString(errors[0].rowNumber.value)] else [])
         + PresentRows(errors[1..])
  }

  /** The rows of one url's errors, joined by the two characters backslash
      and `n` (the single-quoted `'\n'`). */
  function RowList(hits: seq<Error>): string {
    Join(PresentRows(hits), "\\n") + "\n"
  }

  function UrlIntro(forLabels: bool, u: Option<string>): string {
    if forLabels then "Error retrieving label for remote url " + Show(u) + ". \nThis url appears in "
    else "Error retrieving URL for remote authority term " + Show(u) + ". \nThis term appears in "
  }

  /** The paragraph `:cannot_retrieve_label` (when `forLabels`) or
      `:cannot_retrieve_url` writes for one distinct url. */
  function UrlParagraph(forLabels: bool, u: Option<string>, errors: seq<Error>): string {
    UrlIntro(forLabels, u) + NatToString(|WithUrl(errors, u)|)
    + " instances in the spreadsheet.\nThe affected rows are listed here:\n" + RowList(WithUrl(errors, u))
  }

  function UrlParagraphs(forLabels: bool, urls: seq<Option<string>>, errors: seq<Error>): (r: seq<string>)
    ensures |r| == |urls| && forall i :: 0 <= i < |urls| ==> r[i] == UrlParagraph(forLabels, urls[i], errors)
  {
    seq(|urls|, i requires 0 <= i < |urls| => UrlParagraph(forLabels, urls[i], errors))
  }

  function UrlLead(forLabels: bool): string {
    if forLabels then "\n-- Errors Retrieving Remote Labels --\n" else "\n-- Errors Retrieving Remote URLs --\n"
  }

  /** The one-example summary either url kind writes at or above the
      threshold of distinct urls. */
  function UrlSummary(forLabels: bool, urlCount: nat, first: Error, errorCount: nat): string {
    if forLabels then
      "There were " + NatToString(urlCount)
      + " different URLs in the spreadsheet that we couldn't retrieve labels for,\n making a total of "
      + NatToString(errorCount) + " url related errors.\n These are too many to list, but an example is "
      + Show(first.url) + "\n in row " + ShowRow(first.rowNumber) + ".\n"
    else
      "There were " + NatToString(urlCount)
      + " different controlled vocab terms in the spreadsheet that we couldn't retrieve or create URLs for,\n making a total of "
      + NatToString(errorCount) + " controlled term related errors.\n These are too many to list, but an example is "
      + Show(first.url) + "\n in row " + ShowRow(first.rowNumber) + ".\n"
  }

  /** The section of either url kind; the threshold applies to the number
      of distinct urls. */
  function UrlSection(forLabels: bool, errors: seq<Error>, max: nat): string
    requires max > 0
  {
    var urls := Uniq(Urls(errors));
    if |urls| < max then UrlLead(forLabels) + Join(UrlParagraphs(forLabels, urls, errors), "")
    else
      assert |errors| > 0;
      UrlLead(forLabels) + UrlSummary(forLabels, |urls|, errors[0], |errors|)
  }

  /** `:bad_object_reference`. */
  const BAD_REFERENCE_LEAD: string := "\n-- Error: bad object reference --\nWe enountered "

  function ReferenceLine(e: Error): string {
    "row number " + ShowRow(e.rowNumber) + " references the object " + Show(e.objectId)
  }

  function ReferenceExample(e: Error): string {
    "For example, row number " + ShowRow(e.rowNumber) + " references an object identified by "
    + Show(e.objectId) + ", which we cannot find."
  }

  function BadReferenceSection(errors: seq<Error>, max: nat): string
    requires max > 0
  {
    if |errors| < max then
      BAD_REFERENCE_LEAD + NatToString(|errors|) + " problems resolving object references.\n"
      + "The row numbers with problems were:\n" + Join(Lines(errors, ReferenceLine), "\n")
    else
      BAD_REFERENCE_LEAD + NatToString(|errors|) + " problems resolving object references.\n"
      + ReferenceExample(errors[0])
  }

  /** `:cannot_find_file`. */
  const MISSING_FILE_LEAD: string := "\n-- Missing File Errors --\n We couldn't find the files listed on "

  function FileLine(e: Error): string {
    Show(e.file)
  }

  function FileExample(e: Error): string {
    "An example of a missing filename is: " + Show(e.file) + "\n"
  }

  function MissingFileSection(errors: seq<Error>, max: nat): string
    requires max > 0
  {
    if |errors| < max then
      MISSING_FILE_LEAD + NatToString(|errors|) + " rows.\n" + "Missing filenames:\n" + Join(Lines(errors, FileLine), "\n")
    else
      MISSING_FILE_LEAD + NatToString(|errors|) + " rows.\n" + FileExample(errors[0])
  }

  /** `:relationship_error`. At or above the threshold the example names
      `er`, which is undefined there. */
  const RELATIONSHIP_LEAD: string := "\n-- Errors resolving relationships --\n There were issues resolving "

  function RelationshipLine(e: Error): string {
    "Row " + ShowRow(e.rowNumber) + ", relationship #" + Show(e.objectId) + ": " + Show(e.message)
  }

  function RelationshipSection(errors: seq<Error>, max: nat): Rendered
    requires max > 0
  {
    if |errors| < max then
      Message(RELATIONSHIP_LEAD + NatToString(|errors|) + " relationships.\n" + "errors:\n"
              + Join(Lines(errors, RelationshipLine), "\n"))
    else Raises("undefined local variable or method `er'")
  }

  /** `:ingest_failure`. */
  const INGEST_LEAD: string :=
    "\n-- Ingested File is Broken or Missing --\n After the ingest completed, we had issues finding and re-saving the ingested works associated with "

  function IngestLine(e: Error): string {
    ShowRow(e.rowNumber) + " - proxy #" + Show(e.objectId)
  }

  function IngestExample(e: Error): string {
    "An example of a failed ingest is row " + ShowRow(e.rowNumber) + " with work proxy " + Show(e.objectId) + " \n"
  }

  function IngestSection(errors: seq<Error>, max: nat): string
    requires max > 0
  {
    if |errors| < max then
      INGEST_LEAD + NatToString(|errors|) + " rows.\n" + "Problem rows:\n" + Join(Lines(errors, IngestLine), "\n")
    else
      INGEST_LEAD + NatToString(|errors|) + " rows.\n" + IngestExample(errors[0])
  }

  /** `:id_not_unique`: every line calls `options_name`, which an error does
      not respond to, and the example at or above the threshold names the
      undefined `er`. */
  function NotUniqueSection(errors: seq<Error>, max: nat): Rendered
    requires max > 0
  {
    if |errors| >= max then Raises("undefined local variable or method `er'")
    else if |errors| > 0 then Raises("undefined method `options_name'")
    else Message("\n-- Multiple works shared a supposedly unique identifier, and we don't know which one to edit --\n "
                 + "Problem rows:\n")
  }

  const UNRECOGNISED_MESSAGE: string :=
    "\n-- There were other errors of an unrecognized type. Check the application logs --\n "

  /** The kinds `error_message` has a branch for, and every other kind. */
  datatype Kind =
    | MismatchedAuthTerms | UploadError | NoWorkIdField | JobFailure | MissingRequiredOption
    | InvalidConfigValue | CannotGetHeaders | BadHeader | CannotRetrieveLabel | CannotRetrieveUrl
    | BadObjectReference | CannotFindFile | RelationshipError | IngestFailure | IdNotUnique
    | Unrecognised

  /** The `case type` dispatch of `error_message`. */
  function KindOf(name: string): Kind {
    if name == "mismatched_auth_terms" then MismatchedAuthTerms
    else if name == "upload_error" then UploadError
    else if name == "no_work_id_field" then NoWorkIdField
    else if name == "job_failure" then JobFailure
    else if name == "missing_required_option" then MissingRequiredOption
    else if name == "invalid_config_value" then InvalidConfigValue
    else if name == "cannot_get_headers" then CannotGetHeaders
    else if name == "bad_header" then BadHeader
    else if name == "cannot_retrieve_label" then CannotRetrieveLabel
    else if name == "cannot_retrieve_url" then CannotRetrieveUrl
    else if name == "bad_object_reference" then BadObjectReference
    else if name == "cannot_find_file" then CannotFindFile
    else if name == "relationship_error" then RelationshipError
    else if name == "ingest_failure" then IngestFailure
    else if name == "id_not_unique" then IdNotUnique
    else Unrecognised
  }

  /** The section for kind `k` with threshold `max`. The
      `:cannot_get_headers` branch starts with `message +=` on a message
      that is still nil, so it always raises. */
  function Render(k: Kind, errors: seq<Error>, max: nat): Rendered
    requires max > 0
  {
    match k
    case MismatchedAuthTerms => Message(MismatchSection(errors, max))
    case UploadError => UploadSection(errors, max)
    case NoWorkIdField => NoWorkIdSection(errors)
    case JobFailure => JobFailureSection(errors)
    case MissingRequiredOption => MissingOptionSection(errors)
    case InvalidConfigValue => Message(InvalidValueSection(errors))
    case CannotGetHeaders => Raises("undefined method `+' for nil")
    case BadHeader => Message(BadHeaderSection(errors))
    case CannotRetrieveLabel => Message(UrlSection(true, errors, max))
    case CannotRetrieveUrl => Message(UrlSection(false, errors, max))
    case BadObjectReference => Message(BadReferenceSection(errors, max))
    case CannotFindFile => Message(MissingFileSection(errors, max))
    case RelationshipError => RelationshipSection(errors, max)
    case IngestFailure => Message(IngestSection(errors, max))
    case IdNotUnique => NotUniqueSection(errors, max)
    case Unrecognised => Message(UNRECOGNISED_MESSAGE)
  }

  /** `Error.error_message(type, errors, short)`. */
  function ErrorMessage(kind: string, errors: seq<Error>, short: bool): Rendered {
    Render(KindOf(kind), errors, MaxError(short))
  }

  /** The threshold is 50 for a short report and 5000 otherwise. */
  lemma Threshold(short: bool)
    ensures MaxError(short) == (if short then 50 else 5000)
  {
  }

  /** Kinds with no branch of their own, such as `:cannot_find_work`. */
  lemma UnlistedKinds()
    ensures KindOf("cannot_find_work") == Unrecognised && KindOf("cannot_find_parent") == Unrecognised
  {
  }

  // Below the threshold each counted kind lists every one of its errors.

  lemma MismatchEnumerates(errors: seq<Error>, max: nat, i: nat)
    requires |errors| < max && i < |errors|
    ensures Contains(MismatchSection(errors, max), MismatchLine(errors[i]))
  {
    ListedBefore(MISMATCH_LEAD + "The following rows were affected:\n", Lines(errors, MismatchLine), ",", "\n", i);
  }

  lemma BadReferenceEnumerates(errors: seq<Error>, max: nat, i: nat)
    requires |errors| < max && i < |errors|
    ensures Contains(BadReferenceSection(errors, max), ReferenceLine(errors[i]))
  {
    ListedIn(BAD_REFERENCE_LEAD + NatToString(|errors|) + " problems resolving object references.\n"
             + "The row numbers with problems were:\n", Lines(errors, ReferenceLine), "\n", i);
  }

  lemma MissingFileEnumerates(errors: seq<Error>, max: nat, i: nat)
    requires |errors| < max && i < |errors|
    ensures Contains(MissingFileSection(errors, max), FileLine(errors[i]))
  {
    ListedIn(MISSING_FILE_LEAD + NatToString(|errors|) + " rows.\n" + "Missing filenames:\n",
             Lines(errors, FileLine), "\n", i);
  }

  lemma RelationshipEnumerates(errors: seq<Error>, max: nat, i: nat)
    requires |errors| < max && i < |errors|
    ensures RelationshipSection(errors, max).Message?
    ensures Contains(RelationshipSection(errors, max).text, RelationshipLine(errors[i]))
  {
    ListedIn(RELATIONSHIP_LEAD + NatToString(|errors|) + " relationships.\n" + "errors:\n",
             Lines(errors, RelationshipLine), "\n", i);
  }

  lemma IngestEnumerates(errors: seq<Error>, max: nat, i: nat)
    requires |errors| < max && i < |errors|
    ensures Contains(IngestSection(errors, max), IngestLine(errors[i]))
  {
    ListedIn(INGEST_LEAD + NatToString(|errors|) + " rows.\n" + "Problem rows:\n", Lines(errors, IngestLine), "\n", i);
  }

  // At or above the threshold a counted kind's section depends only on the
  // number of errors and the first one, and it states that number.

  lemma MismatchTruncates(errors: seq<Error>, others: seq<Error>, max: nat)
    requires 0 < max <= |errors| && |others| == |errors| && others[0] == errors[0]
    ensures MismatchSection(errors, max) == MismatchSection(others, max)
  {
  }

  lemma MismatchStatesCount(errors: seq<Error>, max: nat)
    requires 0 < max <= |errors|
    ensures Contains(MismatchSection(errors, max), NatToString(|errors|))
  {
    StatedIn(MISMATCH_LEAD, NatToString(|errors|), " rows were affected. An example is row # ",
             MismatchExample(errors[0]));
  }

  lemma UploadTruncates(errors: seq<Error>, others: seq<Error>, max: nat)
    requires 0 < max <= |errors| && |others| == |errors| && others[0] == errors[0]
    ensures UploadSection(errors, max) == UploadSection(others, max)
  {
  }

  lemma UploadStatesCount(errors: seq<Error>, max: nat)
    requires 0 < max <= |errors|
    ensures UploadSection(errors, max).Message? && Contains(UploadSection(errors, max).text, NatToString(|errors|))
  {
    StatedIn(UPLOAD_LEAD, NatToString(|errors|), " rows were affected. An example is row # ", UploadExample(errors[0]));
  }

  lemma BadReferenceTruncates(errors: seq<Error>, others: seq<Error>, max: nat)
    requires 0 < max <= |errors| && |others| == |errors| && others[0] == errors[0]
    ensures BadReferenceSection(errors, max) == BadReferenceSection(others, max)
  {
  }

  lemma BadReferenceStatesCount(errors: seq<Error>, max: nat)
    requires 0 < max <= |errors|
    ensures Contains(BadReferenceSection(errors, max), NatToString(|errors|))
  {
    StatedIn(BAD_REFERENCE_LEAD, NatToString(|errors|), " problems resolving object references.\n", ReferenceExample(errors[0]));
  }

  lemma MissingFileTruncates(errors: seq<Error>, others: seq<Error>, max: nat)
    requires 0 < max <= |errors| && |others| == |errors| && others[0] == errors[0]
    ensures MissingFileSection(errors, max) == MissingFileSection(others, max)
  {
  }

  lemma MissingFileStatesCount(errors: seq<Error>, max: nat)
    requires 0 < max <= |errors|
    ensures Contains(MissingFileSection(errors, max), NatToString(|errors|))
  {
    StatedIn(MISSING_FILE_LEAD, NatToString(|errors|), " rows.\n", FileExample(errors[0]));
  }

  lemma IngestTruncates(errors: seq<Error>, others: seq<Error>, max: nat)
    requires 0 < max <= |errors| && |others| == |errors| && others[0] == errors[0]
    ensures IngestSection(errors, max) == IngestSection(others, max)
  {
  }

  lemma IngestStatesCount(errors: seq<Error>, max: nat)
    requires 0 < max <= |errors|
    ensures Contains(IngestSection(errors, max), NatToString(|errors|))
  {
    StatedIn(INGEST_LEAD, NatToString(|errors|), " rows.\n", IngestExample(errors[0]));
  }

  /** Below the threshold of distinct urls each url gets its own paragraph,
      whatever the number of errors. */
  lemma UrlKindsListEachDistinctUrl(forLabels: bool, errors: seq<Error>, max: nat, i: nat)
    requires 0 < max && |Uniq(Urls(errors))| < max && i < |errors|
    ensures Contains(UrlSection(forLabels, errors, max), UrlParagraph(forLabels, errors[i].url, errors))
  {
    var urls := Uniq(Urls(errors));
    var u := errors[i].url;
    assert Urls(errors)[i] == u;
    assert u in urls;
    var j :| 0 <= j < |urls| && urls[j] == u;
    ListedIn(UrlLead(forLabels), UrlParagraphs(forLabels, urls, errors), "", j);
  }

  /** At or above the threshold of distinct urls the section depends only
      on the numbers of urls and errors and on the first error. */
  lemma UrlKindsTruncate(forLabels: bool, errors: seq<Error>, others: seq<Error>, max: nat)
    requires 0 < max <= |Uniq(Urls(errors))| && |Uniq(Urls(others))| == |Uniq(Urls(errors))|
    requires |others| == |errors| && others[0] == errors[0]
    ensures UrlSection(forLabels, errors, max) == UrlSection(forLabels, others, max)
  {
  }

  /** Each distinct url's paragraph states how many of the errors carry it. */
  lemma UrlParagraphCounts(forLabels: bool, u: Option<string>, errors: seq<Error>)
    ensures Contains(UrlParagraph(forLabels, u, errors), NatToString(multiset(Urls(errors))[u]))
  {
    StatedIn(UrlIntro(forLabels, u), NatToString(|WithUrl(errors, u)|),
             " instances in the spreadsheet.\nThe affected rows are listed here:\n", RowList(WithUrl(errors, u)));
    WithUrlCount(errors, u);
  }

  lemma {:induction false} WithUrlCount(errors: seq<Error>, u: Option<string>)
    ensures |WithUrl(errors, u)| == multiset(Urls(errors))[u]
    decreases |errors|
  {
    if |errors| > 0 {
      WithUrlCount(errors[1..], u);
      UrlsCons(errors);
      assert multiset(Urls(errors)) == multiset([errors[0].url]) + multiset(Urls(errors[1..]));
    }
  }

  /** The urls of a list are its head's url before the urls of its tail. */
  lemma UrlsCons(errors: seq<Error>)
    requires |errors| > 0
    ensures Urls(errors) == [errors[0].url] + Urls(errors[1..])
  {
    assert forall i :: 1 <= i < |errors| ==> errors[i] == errors[1..][i - 1];
  }

  /** `:bad_header` is never truncated: every offending field is listed. */
  lemma BadHeaderListsEveryField(errors: seq<Error>, i: nat)
    requires i < |errors|
    ensures Contains(BadHeaderSection(errors), Show(errors[i].field))
  {
    ListedBefore(BAD_HEADER_LEAD, Lines(errors, FieldLine), ", ", "\n", i);
  }

  /** Every unrecognised kind yields the same fixed message, whatever the
      errors and the threshold. */
  lemma UnknownKindsShareOneMessage(kind: string, errors: seq<Error>, short: bool)
    requires KindOf(kind) == Unrecognised
    ensures ErrorMessage(kind, errors, short) == Message(UNRECOGNISED_MESSAGE)
  {
  }

  // ---------------------------------------------------------------------
  // write_errors!

  /** What `write_errors!` does with a list of errors: nothing for an empty
      list (it returns false), otherwise the sections it writes to the
      error file in order, unless one of them raises. */
  datatype WriteOutcome = NoErrors | Written(sections: seq<string>) | WriteRaises(kind: string, reason: string)

  /** The errors of one kind, in list order. */
  function OfKind(errors: seq<Error>, kind: string): (r: seq<Error>)
    ensures |r| <= |errors|
    ensures forall e :: e in r <==> e in errors && e.kind == kind
  {
    if |errors| == 0 then []
    else (if errors[0].kind == kind then [errors[0]] else []) + OfKind(errors[1..], kind)
  }

  function Kinds(errors: seq<Error>): (r: seq<string>)
    ensures |r| == |errors| && forall i :: 0 <= i < |errors| ==> r[i] == errors[i].kind
  {
    seq(|errors|, i requires 0 <= i < |errors| => errors[i].kind)
  }

  predicate StrictlySorted(xs: seq<string>) {
    forall i, j :: 0 <= i < j < |xs| ==> StrLt(xs[i], xs[j])
  }

  function InsertSorted(x: string, xs: seq<string>): (r: seq<string>)
    ensures |r| == |xs| + 1
    ensures forall y :: y in r <==> y == x || y in xs
  {
    if |xs| == 0 then [x]
    else if StrLt(x, xs[0]) then [x] + xs
    else [xs[0]] + InsertSorted(x, xs[1..])
  }

  lemma {:induction false} InsertSortedKeepsOrder(x: string, xs: seq<string>)
    requires StrictlySorted(xs) && x !in xs
    ensures StrictlySorted(InsertSorted(x, xs))
    decreases |xs|
  {
    if |xs| > 0 && !StrLt(x, xs[0]) {
      assert xs[0] != x;
      StrLtTotal(x, xs[0]);
      InsertSortedKeepsOrder(x, xs[1..]);
      var r := InsertSorted(x, xs);
      forall i, j | 0 <= i < j < |r|
        ensures StrLt(r[i], r[j])
      {
        if i == 0 {
          assert r[j] in InsertSorted(x, xs[1..]);
          if r[j] != x {
            assert r[j] in xs[1..];
          }
        }
      }
    } else if |xs| > 0 {
      var r := InsertSorted(x, xs);
      forall i, j | 0 <= i < j < |r|
        ensures StrLt(r[i], r[j])
      {
        if i == 0 && j > 1 {
          StrLtTransitive(x, xs[0], xs[j - 1]);
        }
      }
    }
  }

  /** The distinct kinds, in ascending order by name. */
  function SortStrings(xs: seq<string>): (r: seq<string>)
    ensures forall y :: y in r <==> y in xs
  {
    if |xs| == 0 then [] else InsertSorted(xs[|xs| - 1], SortStrings(xs[..|xs| - 1]))
  }

  lemma {:induction false} SortDistinctIsStrict(xs: seq<string>)
    requires forall i, j :: 0 <= i < j < |xs| ==> xs[i] != xs[j]
    ensures StrictlySorted(SortStrings(xs))
    decreases |xs|
  {
    if |xs| > 0 {
      SortDistinctIsStrict(xs[..|xs| - 1]);
      assert xs[|xs| - 1] !in xs[..|xs| - 1];
      InsertSortedKeepsOrder(xs[|xs| - 1], SortStrings(xs[..|xs| - 1]));
    }
  }

  /** `errors.sort!` by type, then `map(&:type).uniq`: the distinct kinds in
      ascending order. */
  function ReportKinds(errors: seq<Error>): seq<string> {
    SortStrings(Uniq(Kinds(errors)))
  }

  /** How a section is rendered from a kind and the errors of that kind. */
  type Renderer = (string, seq<Error>) -> Rendered

  /** The section `write_errors!` writes for one kind: `error_message` with
      the default, long threshold. */
  function Section(kind: string, typed: seq<Error>): Rendered {
    ErrorMessage(kind, typed, false)
  }

  /** The report sections for the kinds from `i` on. */
  function SectionsFrom(render: Renderer, errors: seq<Error>, kinds: seq<string>, i: nat, acc: seq<string>): WriteOutcome
    requires i <= |kinds|
    decreases |kinds| - i
  {
    if i == |kinds| then Written(acc)
    else
      match render(kinds[i], OfKind(errors, kinds[i]))
      case Raises(reason) => WriteRaises(kinds[i], reason)
      case Message(t) => SectionsFrom(render, errors, kinds, i + 1, acc + [t])
  }

  /** `write_errors!` with sections rendered by `render`. */
  function ReportWith(render: Renderer, errors: seq<Error>): WriteOutcome {
    if |errors| == 0 then NoErrors else SectionsFrom(render, errors, ReportKinds(errors), 0, [])
  }

  /** `Error.write_errors!(errors, git)`. */
  function Report(errors: seq<Error>): WriteOutcome {
    ReportWith(Section, errors)
  }

  /** `write_errors!`, looping over the sorted kinds. */
  method WriteErrors(errors: seq<Error>) returns (r: WriteOutcome)
    ensures r == Report(errors)
  {
    if |errors| == 0 {
      return NoErrors;
    }
    var kinds := SortStrings(Uniq(Kinds(errors)));
    var sections: seq<string> := [];
    var i := 0;
    while i < |kinds|
      invariant i <= |kinds|
      invariant SectionsFrom(Section, errors, kinds, i, sections) == Report(errors)
    {
      var typed := OfKind(errors, kinds[i]);
      var m := ErrorMessage(kinds[i], typed, false);
      if m.Raises? {
        return WriteRaises(kinds[i], m.reason);
      }
      sections := sections + [m.text];
      i := i + 1;
    }
    return Written(sections);
  }

  lemma {:induction false} SectionsFromSpec(render: Renderer, errors: seq<Error>, kinds: seq<string>, i: nat, acc: seq<string>)
    requires i <= |kinds| && |acc| == i
    requires forall j :: 0 <= j < i ==> render(kinds[j], OfKind(errors, kinds[j])) == Message(acc[j])
    ensures !SectionsFrom(render, errors, kinds, i, acc).NoErrors?
    ensures SectionsFrom(render, errors, kinds, i, acc).Written? ==>
      var s := SectionsFrom(render, errors, kinds, i, acc).sections;
      |s| == |kinds| &&
      forall j :: 0 <= j < |kinds| ==> render(kinds[j], OfKind(errors, kinds[j])) == Message(s[j])
    ensures SectionsFrom(render, errors, kinds, i, acc).WriteRaises? ==>
      var w := SectionsFrom(render, errors, kinds, i, acc);
      exists j :: i <= j < |kinds| && kinds[j] == w.kind &&
        render(kinds[j], OfKind(errors, kinds[j])) == Raises(w.reason) &&
        forall j' :: i <= j' < j ==> render(kinds[j'], OfKind(errors, kinds[j'])).Message?
    decreases |kinds| - i
  {
    if i < |kinds| {
      var m := render(kinds[i], OfKind(errors, kinds[i]));
      if m.Message? {
        SectionsFromSpec(render, errors, kinds, i + 1, acc + [m.text]);
        var w := SectionsFrom(render, errors, kinds, i, acc);
        if w.WriteRaises? {
          var j :| i + 1 <= j < |kinds| && kinds[j] == w.kind &&
            render(kinds[j], OfKind(errors, kinds[j])) == Raises(w.reason) &&
            forall j' :: i + 1 <= j' < j ==> render(kinds[j'], OfKind(errors, kinds[j'])).Message?;
          assert forall j' :: i <= j' < j ==> render(kinds[j'], OfKind(errors, kinds[j'])).Message?;
        }
      }
    }
  }

  /** `write_errors!` is false exactly for an empty list; otherwise it writes
      one section per distinct kind, the kinds in ascending order, each
      section rendered from exactly the errors of its kind, or it raises at
      the first kind whose rendering raises, with that rendering's reason. */
  lemma ReportSections(render: Renderer, errors: seq<Error>)
    ensures ReportWith(render, errors) == NoErrors <==> |errors| == 0
    ensures ReportWith(render, errors).Written? ==>
      var kinds := ReportKinds(errors);
      var s := ReportWith(render, errors).sections;
      StrictlySorted(kinds) && (forall k :: k in kinds <==> exists e :: e in errors && e.kind == k) &&
      |s| == |kinds| &&
      forall j :: 0 <= j < |kinds| ==> render(kinds[j], OfKind(errors, kinds[j])) == Message(s[j])
    ensures ReportWith(render, errors).WriteRaises? ==>
      var kinds := ReportKinds(errors);
      var w := ReportWith(render, errors);
      exists j :: 0 <= j < |kinds| && kinds[j] == w.kind &&
        render(kinds[j], OfKind(errors, kinds[j])) == Raises(w.reason) &&
        forall j' :: 0 <= j' < j ==> render(kinds[j'], OfKind(errors, kinds[j'])).Message?
  {
    if |errors| > 0 {
      var kinds := ReportKinds(errors);
      SortDistinctIsStrict(Uniq(Kinds(errors)));
      SectionsFromSpec(render, errors, kinds, 0, []);
      forall k | k in kinds
        ensures exists e :: e in errors && e.kind == k
      {
        assert k in Kinds(errors);
        var i :| 0 <= i < |errors| && Kinds(errors)[i] == k;
        assert errors[i] in errors;
      }
      forall e | e in errors
        ensures e.kind in kinds
      {
        var i :| 0 <= i < |errors| && errors[i] == e;
        assert Kinds(errors)[i] == e.kind;
      }
    }
  }
}
