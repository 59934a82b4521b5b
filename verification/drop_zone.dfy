/** The drop zone's "Supported formats" line: each accepted MIME type shown by its
    short label, or failing that by its subtype in upper case, joined with ", ". */
module DropZone {

  import opened Wrappers
  import opened Text
  import opened FileRules
  import opened Lists

  /** The labels of the eleven known types. */
  const TypeLabels: map<string, string> := map[
    JpegType := "JPG", PngType := "PNG", GifType := "GIF", WebpType := "WebP",
    PdfType := "PDF", TextType := "TXT", CsvType := "CSV", DocType := "DOC",
    DocxType := "DOCX", XlsType := "XLS", XlsxType := "XLSX"
  ]

  /** One type's label: the known label, else the text after the first '/' (up to a
      second '/') in upper case. A type with no '/' has no such text and the page's
      lookup throws: `None`. */
  function Label(t: string): Option<string> {
    if t in TypeLabels then Some(TypeLabels[t])
    else
      match SecondField(t, '/')
      case None => None
      case Some(sub) => Some(Upper(sub))
  }

  /** A known type gets its table label; any other type fails exactly when it has no
      '/', and otherwise shows its subtype in upper case. */
  lemma LabelSpec(t: string)
    ensures t in TypeLabels ==> Label(t) == Some(TypeLabels[t])
    ensures t !in TypeLabels ==> (Label(t).None? <==> '/' !in t)
    ensures t !in TypeLabels && Label(t).Some? ==> Label(t) == Some(Upper(SecondField(t, '/').value))
  {
  }

  /** The labels of a list of types, or `None` as soon as one of them throws. */
  function Labels(types: seq<string>): (r: Option<seq<string>>)
    ensures r.Some? ==> |r.value| == |types|
  {
    MapAll(types, Label)
  }

  /** `getAcceptedTypesDisplay` */
  function AcceptedTypesDisplay(types: seq<string>): Option<string> {
    match Labels(types)
    case None => None
    case Some(ls) => Some(Join(ls, ", "))
  }

  /** The labels line up with the types, and they all exist exactly when no type fails. */
  lemma LabelsPointwise(types: seq<string>)
    ensures Labels(types).Some? <==> forall i :: 0 <= i < |types| ==> Label(types[i]).Some?
    ensures Labels(types).Some? ==>
      forall i :: 0 <= i < |types| ==> Labels(types).value[i] == Label(types[i]).value
  {
    MapAllPointwise(types, Label);
  }

  /** An empty list shows the empty line. */
  lemma EmptyDisplay()
    ensures AcceptedTypesDisplay([]) == Some("")
  {
  }

  /** The display fails exactly when some type is neither known nor holds a '/'. */
  lemma DisplayFailsIff(types: seq<string>)
    ensures AcceptedTypesDisplay(types).None? <==>
      exists i :: 0 <= i < |types| && types[i] !in TypeLabels && '/' !in types[i]
  {
    LabelsPointwise(types);
  }

  /** No label holds a comma unless its type's subtype does. */
  lemma LabelCommaFree(t: string)
    requires Label(t).Some?
    requires t !in TypeLabels ==> ',' !in SecondField(t, '/').value
    ensures ',' !in Label(t).value
  {
    if t !in TypeLabels {
      var sub := SecondField(t, '/').value;
      forall i | 0 <= i < |sub| ensures Upper(sub)[i] != ',' {
        assert sub[i] != ',';
      }
    }
  }

  /** The line reads back as the list of labels, one per type in order, when no
      label holds a comma. */
  lemma DisplayRoundTrip(types: seq<string>)
    requires |types| > 0 && Labels(types).Some?
    requires CommaFree(Labels(types).value)
    ensures AcceptedTypesDisplay(types) == Some(Join(Labels(types).value, ", "))
    ensures SplitList(AcceptedTypesDisplay(types).value) == Labels(types).value
  {
    SplitJoin(Labels(types).value);
  }

  /** The labels shown for the page's own list. */
  const AcceptedLabels: seq<string> :=
    ["JPG", "PNG", "GIF", "WebP", "PDF", "TXT", "CSV", "DOC", "DOCX", "XLS", "XLSX"]

  /** Each accepted type has its own key in the label table: the types of equal
      length differ in some character. */
  lemma AcceptedTypesLabelled()
    ensures forall i :: 0 <= i < |AcceptedTypes| ==> Label(AcceptedTypes[i]) == Some(AcceptedLabels[i])
  {
    assert JpegType[6] != WebpType[6] && JpegType[0] != TextType[0] && WebpType[0] != TextType[0];
    assert PngType[6] != GifType[6];
  }

  /** The page's own list is shown as the eleven short labels, joined with ", ", and
      the line reads back as exactly those labels. */
  lemma AcceptedTypesShown()
    ensures AcceptedTypesDisplay(AcceptedTypes) == Some(Join(AcceptedLabels, ", "))
    ensures SplitList(Join(AcceptedLabels, ", ")) == AcceptedLabels
  {
    AcceptedTypesLabelled();
    LabelsPointwise(AcceptedTypes);
    assert Labels(AcceptedTypes).value == AcceptedLabels;
    forall i | 0 <= i < |AcceptedLabels| ensures ',' !in AcceptedLabels[i] {
    }
    SplitJoin(AcceptedLabels);
  }
}
