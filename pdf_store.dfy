/** The viewer's shared store (zustand/pdf-zustand.ts): the loaded document, the current page, whether
    the export dialog is shown, and how pages fit the viewport. Every action is a `set` of a partial
    state, which replaces the named fields and keeps the others. */
module PdfStore {
  import opened Wrappers

  datatype FitMode = Height | Width {
    /** `toggleFitMode`'s choice. */
    function Flip(): (r: FitMode)
      ensures r != this
    {
      if this == Height then Width else Height
    }
  }

  /** A loaded document: a URL string or an uploaded `File`, whose bytes are not modelled. */
  datatype PdfSource = Url(url: string) | UploadedFile(name: string)

  datatype StoreState = StoreState(pdf: Option<PdfSource>, currentPage: int, showExportDialog: bool, fitMode: FitMode)

  function InitialStore(): (s: StoreState)
    ensures s.pdf == None && s.currentPage == 0 && !s.showExportDialog && s.fitMode == Height
  {
    StoreState(None, 0, false, Height)
  }

  /** Toggling the fit mode twice restores it. */
  lemma FlipInvolution(m: FitMode)
    ensures m.Flip().Flip() == m
    ensures m.Flip() == (if m == Height then Width else Height)
  {
  }

  class Store {
    var pdf: Option<PdfSource>
    var currentPage: int
    var showExportDialog: bool
    var fitMode: FitMode

    function State(): StoreState
      reads this
    {
      StoreState(pdf, currentPage, showExportDialog, fitMode)
    }

    constructor()
      ensures State() == InitialStore()
    {
      pdf := None;
      currentPage := 0;
      showExportDialog := false;
      fitMode := Height;
    }

    method SetShowExportDialog(show: bool)
      modifies this
      ensures State() == old(State()).(showExportDialog := show)
    {
      showExportDialog := show;
    }

    method OpenExportDialog()
      modifies this
      ensures State() == old(State()).(showExportDialog := true)
    {
      showExportDialog := true;
    }

    method CloseExportDialog()
      modifies this
      ensures State() == old(State()).(showExportDialog := false)
    {
      showExportDialog := false;
    }

    method ToggleExportDialog()
      modifies this
      ensures State() == old(State()).(showExportDialog := !old(showExportDialog))
    {
      showExportDialog := !showExportDialog;
    }

    method SetFitMode(mode: FitMode)
      modifies this
      ensures State() == old(State()).(fitMode := mode)
    {
      fitMode := mode;
    }

    method ToggleFitMode()
      modifies this
      ensures State() == old(State()).(fitMode := old(fitMode).Flip())
      ensures fitMode != old(fitMode)
    {
      fitMode := if fitMode == Height then Width else Height;
    }

    /** `usePDFZustand.setState({ currentPage })`, as the canvas does when it scrolls. */
    method SetCurrentPage(page: int)
      modifies this
      ensures State() == old(State()).(currentPage := page)
    {
      currentPage := page;
    }

    /** `usePDFZustand.setState({ pdf })`, as the upload and link inputs do. */
    method SetPdf(source: Option<PdfSource>)
      modifies this
      ensures State() == old(State()).(pdf := source)
    {
      pdf := source;
    }
  }

  /** Two toggles of the export dialog restore the store. */
  method ToggleExportDialogTwice(store: Store)
    modifies store
    ensures store.State() == old(store.State())
  {
    store.ToggleExportDialog();
    store.ToggleExportDialog();
  }

  /** Two toggles of the fit mode restore the store. */
  method ToggleFitModeTwice(store: Store)
    modifies store
    ensures store.State() == old(store.State())
  {
    store.ToggleFitMode();
    store.ToggleFitMode();
  }
}
