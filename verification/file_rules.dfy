/** The upload page's per-file rules: the MIME allow-list and size ceiling used by
    `validateFile` (the page's and the file service's), and the icon classifier. */
module FileRules {

  import opened Wrappers
  import opened Text

  const JpegType: string := "image/jpeg"
  const PngType: string := "image/png"
  const GifType: string := "image/gif"
  const WebpType: string := "image/webp"
  const PdfType: string := "application/pdf"
  const TextType: string := "text/plain"
  const CsvType: string := "text/csv"
  const DocType: string := "application/msword"
  const XlsType: string := "application/vnd.ms-excel"
  /** The common head of the two Office Open XML types. The two constants are spelled
      in pieces because the icon lemmas below slice them at fixed offsets, and the solver
      reasons about a concatenation of short literals far more cheaply than about one
      literal of some seventy characters. The pieces join to the exact strings; the
      file service's copy below is written out whole, and `ServiceCopiesAgree` checks
      the two against each other. */
  const OpenXmlPrefix: string := "application/" + "vnd.openxmlformats-" + "officedocument."
  const DocxType: string := OpenXmlPrefix + "wordprocessingml." + "document"
  const XlsxType: string := OpenXmlPrefix + "spreadsheetml." + "sheet"

  /** The eleven accepted MIME types, in the order the page lists them. */
  const AcceptedTypes: seq<string> := [
    JpegType, PngType, GifType, WebpType, PdfType, TextType, CsvType,
    DocType, DocxType, XlsType, XlsxType
  ]

  /** 50 MiB: the largest accepted size, in bytes. */
  const MaxFileSize: nat := 50 * 1024 * 1024

  function UnsupportedTypeMessage(mimeType: string): string {
    "File type " + mimeType + " is not supported"
  }

  const TooLargeMessage: string := "File size must be less than 50MB"

  /** The page's `validateFile`: the error message, or `None` (JavaScript `null`)
      for an acceptable file. The type is checked before the size. */
  function ValidateFile(mimeType: string, size: nat): Option<string> {
    if mimeType !in AcceptedTypes then Some(UnsupportedTypeMessage(mimeType))
    else if size > MaxFileSize then Some(TooLargeMessage)
    else None
  }

  /** A file is accepted exactly when its type is listed and it is at most 50 MiB. */
  lemma ValidateAcceptsIff(mimeType: string, size: nat)
    ensures ValidateFile(mimeType, size).None? <==> mimeType in AcceptedTypes && size <= MaxFileSize
  {
  }

  /** An unlisted type is reported as such whatever the size; a listed type that is
      too large is reported as too large. */
  lemma ValidateMessages(mimeType: string, size: nat)
    ensures mimeType !in AcceptedTypes ==> ValidateFile(mimeType, size) == Some(UnsupportedTypeMessage(mimeType))
    ensures mimeType in AcceptedTypes && size > MaxFileSize ==> ValidateFile(mimeType, size) == Some(TooLargeMessage)
  {
  }

  /** Every message is non-empty, so the page's truthiness test `error ? 'error' : 'pending'`
      sees every failure. */
  lemma ValidateMessageNonEmpty(mimeType: string, size: nat)
    ensures ValidateFile(mimeType, size).Some? ==> |ValidateFile(mimeType, size).value| > 0
  {
  }

  /** The ceiling is inclusive: a listed file of exactly 50 MiB passes, one byte more fails. */
  lemma LimitIsInclusive()
    ensures ValidateFile(PdfType, 52428800) == None
    ensures ValidateFile(PdfType, 52428801) == Some(TooLargeMessage)
  {
  }

  /** `{valid, error}` as the file service's `validateFile` returns it. */
  datatype ValidationResult = ValidationResult(valid: bool, error: Option<string>)

  /** The file service's own copy of the accepted types, written out apart from the
      page's list. */
  const ServiceAcceptedTypes: seq<string> := [
    "image/jpeg", "image/png", "image/gif", "image/webp",
    "application/pdf", "text/plain", "text/csv",
    "application/msword", ServiceDocxType,
    "application/vnd.ms-excel", ServiceXlsxType
  ]

  /** The service's spelling of the two Office Open XML types, written out whole. */
  const ServiceDocxType: string := "application/vnd.openxmlformats-officedocument.wordprocessingml.document"
  const ServiceXlsxType: string := "application/vnd.openxmlformats-officedocument.spreadsheetml.sheet"

  /** The file service's own ceiling. */
  const ServiceMaxFileSize: nat := 50 * 1024 * 1024

  /** The three pieces of `OpenXmlPrefix` join to one literal. */
  lemma OpenXmlPrefixJoins()
    ensures "application/" + "vnd.openxmlformats-" + "officedocument."
      == "application/vnd.openxmlformats-officedocument."
  {
  }

  /** The word-processing tail joins the prefix to one literal. */
  lemma DocxJoins()
    ensures "application/vnd.openxmlformats-officedocument." + "wordprocessingml." + "document"
      == "application/vnd.openxmlformats-officedocument.wordprocessingml.document"
  {
  }

  /** The spreadsheet tail joins the prefix to one literal. */
  lemma XlsxJoins()
    ensures "application/vnd.openxmlformats-officedocument." + "spreadsheetml." + "sheet"
      == "application/vnd.openxmlformats-officedocument.spreadsheetml.sheet"
  {
  }

  /** The pieces of `DocxType` join to the service's spelling of it. */
  lemma DocxSpelledOut()
    ensures ServiceDocxType == DocxType
  {
    OpenXmlPrefixJoins();
    DocxJoins();
  }

  /** The pieces of `XlsxType` join to the service's spelling of it. */
  lemma XlsxSpelledOut()
    ensures ServiceXlsxType == XlsxType
  {
    OpenXmlPrefixJoins();
    XlsxJoins();
  }

  /** The two copies hold the same types in the same order, and the same ceiling. */
  lemma ServiceCopiesAgree()
    ensures ServiceAcceptedTypes == AcceptedTypes && ServiceMaxFileSize == MaxFileSize
  {
    DocxSpelledOut();
    XlsxSpelledOut();
  }

  /** The file service's `validateFile`, over its own copy of the list and ceiling. */
  function ServiceValidateFile(mimeType: string, size: nat): ValidationResult {
    if mimeType !in ServiceAcceptedTypes then
      ValidationResult(false, Some("File type " + mimeType + " is not supported"))
    else if size > ServiceMaxFileSize then
      ValidationResult(false, Some("File size must be less than 50MB"))
    else ValidationResult(true, None)
  }

  /** The service and the page agree: `valid` holds exactly when the page reports no
      error, and the service carries the page's message. */
  lemma ServiceAgreesWithPage(mimeType: string, size: nat)
    ensures ServiceValidateFile(mimeType, size).valid <==> ValidateFile(mimeType, size).None?
    ensures ServiceValidateFile(mimeType, size).error == ValidateFile(mimeType, size)
  {
    ServiceCopiesAgree();
  }

  /** The icon names `getFileIcon` returns. */
  datatype Icon = Image | FileText | FileSpreadsheet | File

  /** `getFileIcon`: the first matching rule wins. */
  function FileIcon(mimeType: string): Icon {
    if StartsWith(mimeType, "image/") then Image
    else if mimeType == PdfType then FileText
    else if Contains(mimeType, "word") then FileText
    else if Contains(mimeType, "excel") || Contains(mimeType, "spreadsheet") then FileSpreadsheet
    else if StartsWith(mimeType, "text/") then FileText
    else File
  }

  /** The rules are tried in order: `Image` only for `image/`, `FileSpreadsheet` only when
      neither the image rule nor the two document rules matched, `File` when nothing did. */
  lemma FileIconFirstMatch(mimeType: string)
    ensures FileIcon(mimeType) == Image <==> StartsWith(mimeType, "image/")
    ensures FileIcon(mimeType) == FileSpreadsheet <==>
      !StartsWith(mimeType, "image/") && mimeType != PdfType && !Contains(mimeType, "word") &&
      (Contains(mimeType, "excel") || Contains(mimeType, "spreadsheet"))
    ensures FileIcon(mimeType) == File <==>
      !StartsWith(mimeType, "image/") && mimeType != PdfType && !Contains(mimeType, "word") &&
      !Contains(mimeType, "excel") && !Contains(mimeType, "spreadsheet") && !StartsWith(mimeType, "text/")
  {
  }

  lemma ImageIcons()
    ensures FileIcon(JpegType) == Image && FileIcon(PngType) == Image
    ensures FileIcon(GifType) == Image && FileIcon(WebpType) == Image
  {
    assert JpegType[..6] == "image/";
    assert PngType[..6] == "image/";
    assert GifType[..6] == "image/";
    assert WebpType[..6] == "image/";
  }

  lemma PlainTextIcons()
    ensures FileIcon(PdfType) == FileText
    ensures FileIcon(TextType) == FileText && FileIcon(CsvType) == FileText
  {
    NotStartsWith(PdfType, "image/", 0);
    TextIcon();
    CsvIcon();
  }

  lemma TextIcon()
    ensures FileIcon(TextType) == FileText
  {
    NotStartsWith(TextType, "image/", 0);
    MissingCharNotContained(TextType, "word", 'w');
    MissingCharNotContained(TextType, "excel", 'c');
    MissingCharNotContained(TextType, "spreadsheet", 's');
    assert TextType[..5] == "text/";
  }

  lemma CsvIcon()
    ensures FileIcon(CsvType) == FileText
  {
    NotStartsWith(CsvType, "image/", 0);
    MissingCharNotContained(CsvType, "word", 'w');
    MissingCharNotContained(CsvType, "excel", 'l');
    MissingCharNotContained(CsvType, "spreadsheet", 'p');
    assert CsvType[..5] == "text/";
  }

  lemma WordIcons()
    ensures FileIcon(DocType) == FileText && FileIcon(DocxType) == FileText
  {
    NotStartsWith(DocType, "image/", 0);
    assert DocType == "application/ms" + "word";
    assert DocType[14..18] == "word";
    OccurrenceContained(DocType, "word", 14);
    NotStartsWith(DocxType, "image/", 0);
    assert DocxType[46..50] == "wordprocessingml."[..4];
    OccurrenceContained(DocxType, "word", 46);
  }

  lemma ExcelIcons()
    ensures FileIcon(XlsType) == FileSpreadsheet && FileIcon(XlsxType) == FileSpreadsheet
  {
    XlsIcon();
    XlsxIcon();
  }

  lemma XlsIcon()
    ensures FileIcon(XlsType) == FileSpreadsheet
  {
    NotStartsWith(XlsType, "image/", 0);
    MissingCharNotContained(XlsType, "word", 'w');
    assert XlsType == "application/vnd.ms-" + "excel";
    assert XlsType[19..24] == "excel";
    OccurrenceContained(XlsType, "excel", 19);
  }

  lemma XlsxIcon()
    ensures FileIcon(XlsxType) == FileSpreadsheet
  {
    NotStartsWith(XlsxType, "image/", 0);
    MissingCharNotContained(XlsxType, "word", 'w');
    assert XlsxType[46..57] == "spreadsheetml."[..11];
    OccurrenceContained(XlsxType, "spreadsheet", 46);
  }

  /** Each accepted type gets a specific icon: the four images `Image`, the two Excel
      types `FileSpreadsheet`, the other five `FileText`; none falls through to `File`. */
  lemma AcceptedTypeIcons()
    ensures forall i :: 0 <= i < 4 ==> FileIcon(AcceptedTypes[i]) == Image
    ensures forall i :: 4 <= i < 9 ==> FileIcon(AcceptedTypes[i]) == FileText
    ensures forall i :: 9 <= i < 11 ==> FileIcon(AcceptedTypes[i]) == FileSpreadsheet
  {
    ImageIcons();
    PlainTextIcons();
    WordIcons();
    ExcelIcons();
  }
}
