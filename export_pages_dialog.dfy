/** The export dialog (app/_components/export-pages-dialog.tsx): the suggested download name, the page
    range prefilled on open and kept in the suggested name, the Ctrl/Cmd+E and Escape keys, and the
    range normalisation on submit that yields the 0-based page indices copied into the new document.

    Copying pages with pdf-lib, fetching the source bytes and the download itself are not part of this
    model; their success or failure is a parameter of `OnSubmit`. */
module ExportPagesDialog {
  import opened Wrappers
  import opened JsString
  import opened PdfStore
  import opened ShortcutDispatch

  const PdfSuffix: string := ".pdf"
  const FallbackBaseName: string := "export"

  // ---------------------------------------------------------------- names

  lemma LowerPdfSuffix()
    ensures Lower(PdfSuffix) == PdfSuffix
  {
    assert LowerChar('.') == '.' && LowerChar('p') == 'p' && LowerChar('d') == 'd' && LowerChar('f') == 'f';
  }

  /** `ensurePdfSuffix`: appends `.pdf` unless the name already ends with it in any case. */
  function EnsurePdfSuffix(name: string): string {
    if EndsWith(Lower(name), PdfSuffix) then name else name + PdfSuffix
  }

  /** The result always ends with `.pdf` (ignoring case), a name that does is returned unchanged, and so
      applying it twice is applying it once. */
  lemma EnsurePdfSuffixSpec(name: string)
    ensures EndsWith(Lower(EnsurePdfSuffix(name)), PdfSuffix)
    ensures EndsWith(Lower(name), PdfSuffix) ==> EnsurePdfSuffix(name) == name
    ensures !EndsWith(Lower(name), PdfSuffix) ==> EnsurePdfSuffix(name) == name + PdfSuffix
    ensures EnsurePdfSuffix(EnsurePdfSuffix(name)) == EnsurePdfSuffix(name)
  {
    if !EndsWith(Lower(name), PdfSuffix) {
      LowerAppend(name, PdfSuffix);
      LowerPdfSuffix();
      var l := Lower(name + PdfSuffix);
      assert l == Lower(name) + PdfSuffix;
      assert l[|l| - |PdfSuffix|..] == PdfSuffix;
    }
  }

  /** `replace(/\.pdf$/i, "")`: drops one trailing `.pdf`, in any case. */
  function StripPdfExt(name: string): (r: string)
    ensures |r| <= |name| && r == name[..|r|]
    ensures EndsWith(Lower(name), PdfSuffix) ==> |r| == |name| - |PdfSuffix|
    ensures !EndsWith(Lower(name), PdfSuffix) ==> r == name
  {
    if EndsWith(Lower(name), PdfSuffix) then name[..|name| - |PdfSuffix|] else name
  }

  /** Stripping undoes `ensurePdfSuffix` on a name that lacked the suffix. */
  lemma StripUndoesEnsure(name: string)
    requires !EndsWith(Lower(name), PdfSuffix)
    ensures StripPdfExt(EnsurePdfSuffix(name)) == name
  {
    EnsurePdfSuffixSpec(name);
    assert (name + PdfSuffix)[..|name|] == name;
  }

  /** `deriveTitle`: an uploaded file's name, nothing for a `data:` URL, and otherwise the last path
      segment of the URL as `urlFileName` (the URL parsing of `getFilenameFromUrlString`) gives it. */
  function DeriveTitle(source: PdfSource, urlFileName: string -> Option<string>): Option<string> {
    match source
    case UploadedFile(name) => Some(name)
    case Url(url) => if StartsWith(url, "data:") then None else urlFileName(url)
  }

  lemma FallbackKeepsName()
    ensures StripPdfExt(FallbackBaseName) == FallbackBaseName
  {
    assert Lower(FallbackBaseName)[|FallbackBaseName| - |PdfSuffix|] == 'p';
  }

  /** `defaultBaseName`: the title without one trailing `.pdf`, falling back to `export` when there is no
      title, the title is empty, or nothing is left after stripping. */
  function DefaultBaseName(title: Option<string>): (base: string)
    ensures base != ""
    ensures title.None? || title == Some("") ==> base == FallbackBaseName
    ensures title.Some? && title.value != "" && StripPdfExt(title.value) != "" ==> base == StripPdfExt(title.value)
    ensures title.Some? && title.value != "" && StripPdfExt(title.value) == "" ==> base == FallbackBaseName
  {
    FallbackKeepsName();
    var t := if title.None? || title.value == "" then FallbackBaseName else title.value;
    var stripped := StripPdfExt(t);
    if stripped == "" then FallbackBaseName else stripped
  }

  /** `report.PDF` gives `report`; a title that is only `.pdf` gives `export`. */
  lemma DefaultBaseNameExamples()
    ensures DefaultBaseName(Some("report.PDF")) == "report"
    ensures DefaultBaseName(Some(".pdf")) == FallbackBaseName
  {
    assert Lower("report.PDF") == "report.pdf";
    assert EndsWith(Lower("report.PDF"), PdfSuffix);
    assert "report.PDF"[..6] == "report";
    LowerPdfSuffix();
  }

  // ---------------------------------------------------------------- page ranges

  /** `Math.max(totalPages, 1)`. */
  function MaxPage(totalPages: int): (m: int)
    ensures m >= 1 && m >= totalPages
  {
    if totalPages > 1 then totalPages else 1
  }

  /** `Math.min(Math.max(v, 1), Math.max(totalPages, 1))`. */
  function Clamp(v: int, totalPages: int): (r: int)
    ensures 1 <= r <= MaxPage(totalPages)
    ensures 1 <= v <= MaxPage(totalPages) ==> r == v
    ensures v < 1 ==> r == 1
    ensures v > MaxPage(totalPages) ==> r == MaxPage(totalPages)
  {
    var lower := if v > 1 then v else 1;
    if lower < MaxPage(totalPages) then lower else MaxPage(totalPages)
  }

  datatype PageRange = PageRange(low: int, high: int)

  /** Both ends clamped, then ordered. */
  function ClampedRange(start: int, end: int, totalPages: int): (r: PageRange)
    ensures 1 <= r.low <= r.high <= MaxPage(totalPages)
    ensures (r.low == Clamp(start, totalPages) && r.high == Clamp(end, totalPages))
         || (r.low == Clamp(end, totalPages) && r.high == Clamp(start, totalPages))
  {
    var s := Clamp(start, totalPages);
    var e := Clamp(end, totalPages);
    PageRange(if s < e then s else e, if s < e then e else s)
  }

  /** A range already inside the document is kept, and the two ends may be given in either order. */
  lemma ClampedRangeProperties(start: int, end: int, totalPages: int)
    ensures 1 <= start <= end <= totalPages ==> ClampedRange(start, end, totalPages) == PageRange(start, end)
    ensures ClampedRange(start, end, totalPages) == ClampedRange(end, start, totalPages)
  {
  }

  /** `Array.from({ length: high - low + 1 }, (_, i) => low - 1 + i)`. */
  function PageIndices(r: PageRange): seq<int>
    requires r.low <= r.high
  {
    seq(r.high - r.low + 1, i requires 0 <= i <= r.high - r.low => r.low - 1 + i)
  }

  /** The indices are `low-1, ..., high-1`: consecutive and `high - low + 1` of them. */
  lemma PageIndicesSpec(r: PageRange)
    requires r.low <= r.high
    ensures var ix := PageIndices(r);
      && |ix| == r.high - r.low + 1
      && ix[0] == r.low - 1 && ix[|ix| - 1] == r.high - 1
      && (forall i :: 0 <= i < |ix| - 1 ==> ix[i + 1] == ix[i] + 1)
      && (forall i :: 0 <= i < |ix| ==> r.low - 1 <= ix[i] <= r.high - 1)
  {
  }

  /** The suggested name before its suffix: `<base>-p<low>-<high>`. */
  function RangeName(base: string, low: int, high: int): string {
    base + "-p" + IntToString(low) + "-" + IntToString(high)
  }

  datatype FormValues = FormValues(startPage: string, endPage: string, fileName: string)

  /** `useForm`'s default values. */
  function DefaultForm(): FormValues {
    FormValues("1", "1", "export.pdf")
  }

  /** The form as the dialog fills it when it opens: both ends at the clamped current page. */
  function Prefill(currentPage: int, totalPages: int, base: string): FormValues {
    var start := Clamp(currentPage, totalPages);
    FormValues(IntToString(start), IntToString(start), EnsurePdfSuffix(RangeName(base, start, start)))
  }

  /** JavaScript's `n || fallback` on a parsed number: `NaN` and `0` are falsy. */
  function OrIfFalsy(n: Option<int>, fallback: int): (r: int)
    ensures n.Some? && n.value != 0 ==> r == n.value
    ensures n.None? || n == Some(0) ==> r == fallback
  {
    if n.Some? && n.value != 0 then n.value else fallback
  }

  /** The auto-filename effect's start: `parseInt(watchedStart || "1") || 1`. */
  function AutoStart(watchedStart: string): int {
    OrIfFalsy(ParseInt(if watchedStart == "" then "1" else watchedStart), 1)
  }

  /** The auto-filename effect's end: `parseInt(watchedEnd || String(start)) || start`. */
  function AutoEnd(watchedEnd: string, start: int): int {
    OrIfFalsy(ParseInt(if watchedEnd == "" then IntToString(start) else watchedEnd), start)
  }

  function AutoFileName(watchedStart: string, watchedEnd: string, totalPages: int, base: string): string {
    var start := AutoStart(watchedStart);
    var r := ClampedRange(start, AutoEnd(watchedEnd, start), totalPages);
    EnsurePdfSuffix(RangeName(base, r.low, r.high))
  }

  lemma IntToStringOne()
    ensures IntToString(1) == "1"
  {
    assert DigitChar(1) == '1';
  }

  /** The prefill puts both ends on the current page clamped into `[1, max(totalPages, 1)]` (page 0
      gives 1); its fields read back as that page; and it already holds the name the auto-filename rule
      would suggest for it. */
  lemma PrefillSpec(currentPage: int, totalPages: int, base: string)
    ensures var f := Prefill(currentPage, totalPages, base); var p := Clamp(currentPage, totalPages);
      && 1 <= p <= MaxPage(totalPages)
      && ParseInt(f.startPage) == Some(p) && ParseInt(f.endPage) == Some(p)
      && (currentPage == 0 ==> f.startPage == "1")
      && f.fileName == AutoFileName(f.startPage, f.endPage, totalPages, base)
  {
    var p := Clamp(currentPage, totalPages);
    ParseIntOfIntToString(p);
    IntToStringOne();
    assert IntToString(p) != "" by { assert |NatToString(p)| >= 1; }
  }

  /** The fallbacks: an empty start means page 1, and an empty end means the start. */
  lemma AutoFileNameFallbacks(watchedStart: string, totalPages: int, base: string)
    ensures AutoFileName("", "", totalPages, base) == EnsurePdfSuffix(RangeName(base, 1, 1))
    ensures AutoStart(watchedStart) != 0
    ensures var s := Clamp(AutoStart(watchedStart), totalPages);
      AutoFileName(watchedStart, "", totalPages, base) == EnsurePdfSuffix(RangeName(base, s, s))
  {
    IntToStringOne();
    ParseIntOfIntToString(1);
    ParseIntOfIntToString(AutoStart(watchedStart));
    ParseIntOfIntToString(AutoStart(""));
  }

  // ---------------------------------------------------------------- submit

  datatype SubmitOutcome =
    | NoPdfLoaded
    | NotNumbers
    | Export(range: PageRange, indices: seq<int>, downloadName: string, title: string)

  /** `onSubmit`, up to the export: no document, or a start or an end that does not parse, is reported; otherwise the
      range is clamped and ordered, and the trimmed file name (or the range name when it is blank) gives
      both the download name and the document title. */
  function SubmitPlan(pdfLoaded: bool, values: FormValues, totalPages: int, base: string): SubmitOutcome {
    if !pdfLoaded then NoPdfLoaded
    else
      var start := ParseInt(values.startPage);
      var end := ParseInt(values.endPage);
      if start.None? || end.None? then NotNumbers
      else
        var r := ClampedRange(start.value, end.value, totalPages);
        var trimmed := Trim(values.fileName);
        var name := if trimmed == "" then RangeName(base, r.low, r.high) else trimmed;
        Export(r, PageIndices(r), EnsurePdfSuffix(name), StripPdfExt(name))
  }

  /** An export copies exactly the pages `low-1, ..., high-1`, all inside `[1, max(totalPages, 1)]`: consecutive,
      `high - low + 1` of them; and its download name ends with `.pdf`. */
  lemma SubmitExportSpec(pdfLoaded: bool, values: FormValues, totalPages: int, base: string)
    ensures var o := SubmitPlan(pdfLoaded, values, totalPages, base);
      o.Export? ==> ExportWellFormed(o, totalPages)
  {
    var start, end := ParseInt(values.startPage), ParseInt(values.endPage);
    if pdfLoaded && start.Some? && end.Some? {
      var r := ClampedRange(start.value, end.value, totalPages);
      var trimmed := Trim(values.fileName);
      var name := if trimmed == "" then RangeName(base, r.low, r.high) else trimmed;
      ExportOf(r, name, totalPages);
    }
  }

  /** The properties of an export that `SubmitExportSpec` promises. */
  predicate ExportWellFormed(o: SubmitOutcome, totalPages: int)
    requires o.Export?
  {
    && 1 <= o.range.low <= o.range.high <= MaxPage(totalPages)
    && |o.indices| == o.range.high - o.range.low + 1
    && o.indices[0] == o.range.low - 1 && o.indices[|o.indices| - 1] == o.range.high - 1
    && (forall i :: 0 <= i < |o.indices| - 1 ==> o.indices[i + 1] == o.indices[i] + 1)
    && (forall i :: 0 <= i < |o.indices| ==> 0 <= o.indices[i] < MaxPage(totalPages))
    && EndsWith(Lower(o.downloadName), PdfSuffix)
  }

  lemma ExportOf(r: PageRange, name: string, totalPages: int)
    requires 1 <= r.low <= r.high <= MaxPage(totalPages)
    ensures ExportWellFormed(Export(r, PageIndices(r), EnsurePdfSuffix(name), StripPdfExt(name)), totalPages)
  {
    PageIndicesSpec(r);
    EnsurePdfSuffixSpec(name);
  }

  /** Without a document nothing else is looked at; with one, a start or an end that does not parse stops
      the export; when both parse, the export goes ahead. */
  lemma SubmitErrors(pdfLoaded: bool, values: FormValues, totalPages: int, base: string)
    ensures !pdfLoaded <==> SubmitPlan(pdfLoaded, values, totalPages, base) == NoPdfLoaded
    ensures pdfLoaded ==>
      (SubmitPlan(pdfLoaded, values, totalPages, base) == NotNumbers
       <==> ParseInt(values.startPage).None? || ParseInt(values.endPage).None?)
  {
  }

  // ---------------------------------------------------------------- keys

  datatype KeyEffect = KeyEffect(preventDefault: bool, setOpen: Option<bool>)

  /** The window `keydown` listener: Ctrl/Cmd+E opens the dialog (and prevents the default) only while a
      document is loaded; Escape closes it only while it is open; nothing else has an effect. */
  function DialogKey(e: KeyEvent, pdfLoaded: bool, open: bool): (r: KeyEffect)
    ensures r.setOpen == Some(true) <==> (e.metaKey || e.ctrlKey) && (e.key == "e" || e.key == "E") && pdfLoaded
    ensures r.setOpen == Some(false) <==> !((e.metaKey || e.ctrlKey) && (e.key == "e" || e.key == "E")) && e.key == "Escape" && open
    ensures r.preventDefault <==> r.setOpen == Some(true)
  {
    var meta := e.metaKey || e.ctrlKey;
    if meta && (e.key == "e" || e.key == "E") then
      if !pdfLoaded then KeyEffect(false, None) else KeyEffect(true, Some(true))
    else if e.key == "Escape" && open then KeyEffect(false, Some(false))
    else KeyEffect(false, None)
  }

  // ---------------------------------------------------------------- the component

  class Dialog {
    const store: Store
    const totalPages: int
    const urlFileName: string -> Option<string>
    var form: FormValues
    var hasManuallyEditedName: bool

    constructor(store: Store, totalPages: int, urlFileName: string -> Option<string>)
      ensures this.store == store && this.totalPages == totalPages && this.urlFileName == urlFileName
      ensures form == DefaultForm() && !hasManuallyEditedName
    {
      this.store := store;
      this.totalPages := totalPages;
      this.urlFileName := urlFileName;
      form := DefaultForm();
      hasManuallyEditedName := false;
    }

    /** The memoised `defaultBaseName` for the store's current document. */
    function BaseName(): string
      reads store
    {
      DefaultBaseName(match store.pdf case None => None case Some(src) => DeriveTitle(src, urlFileName))
    }

    /** The prefill effect: runs only while the dialog is open, and resets the manual-edit flag. */
    method PrefillOnOpen()
      modifies this
      ensures store.showExportDialog ==>
        form == Prefill(store.currentPage, totalPages, BaseName()) && !hasManuallyEditedName
      ensures !store.showExportDialog ==> form == old(form) && hasManuallyEditedName == old(hasManuallyEditedName)
    {
      if !store.showExportDialog {
        return;
      }
      form := Prefill(store.currentPage, totalPages, BaseName());
      hasManuallyEditedName := false;
    }

    /** The auto-filename effect: rewrites the name from the watched range only while the dialog is open
        and the name has not been edited by hand. */
    method AutoUpdateFileName()
      modifies this
      ensures hasManuallyEditedName == old(hasManuallyEditedName)
      ensures store.showExportDialog && !hasManuallyEditedName ==>
        form == old(form).(fileName := AutoFileName(old(form).startPage, old(form).endPage, totalPages, BaseName()))
      ensures !store.showExportDialog || hasManuallyEditedName ==> form == old(form)
    {
      if !store.showExportDialog {
        return;
      }
      if hasManuallyEditedName {
        return;
      }
      form := form.(fileName := AutoFileName(form.startPage, form.endPage, totalPages, BaseName()));
    }

    /** Typing in the file-name field. */
    method EditFileName(value: string)
      modifies this
      ensures form == old(form).(fileName := value) && hasManuallyEditedName
    {
      form := form.(fileName := value);
      hasManuallyEditedName := true;
    }

    method EditStartPage(value: string)
      modifies this
      ensures form == old(form).(startPage := value) && hasManuallyEditedName == old(hasManuallyEditedName)
    {
      form := form.(startPage := value);
    }

    method EditEndPage(value: string)
      modifies this
      ensures form == old(form).(endPage := value) && hasManuallyEditedName == old(hasManuallyEditedName)
    {
      form := form.(endPage := value);
    }

    method OnKey(e: KeyEvent) returns (event: KeyEvent)
      modifies store
      ensures var k := DialogKey(e, old(store.pdf).Some?, old(store.showExportDialog));
        && event == e.(defaultPrevented := e.defaultPrevented || k.preventDefault)
        && store.State() == old(store.State()).(showExportDialog := k.setOpen.GetOr(old(store.showExportDialog)))
    {
      event := e;
      var meta := e.metaKey || e.ctrlKey;
      if meta && (e.key == "e" || e.key == "E") {
        if store.pdf.None? {
          return;
        }
        event := e.(defaultPrevented := true);
        store.SetShowExportDialog(true);
      } else if e.key == "Escape" && store.showExportDialog {
        store.SetShowExportDialog(false);
      }
    }

    /** `onSubmit`; the dialog closes after a successful export. */
    method OnSubmit(exportSucceeded: bool) returns (outcome: SubmitOutcome)
      modifies store
      ensures outcome == SubmitPlan(old(store.pdf).Some?, form, totalPages, old(BaseName()))
      ensures store.State() == if outcome.Export? && exportSucceeded then old(store.State()).(showExportDialog := false)
                               else old(store.State())
    {
      outcome := SubmitPlan(store.pdf.Some?, form, totalPages, BaseName());
      if outcome.Export? && exportSucceeded {
        store.SetShowExportDialog(false);
      }
    }
  }
}
