/** The upload hook (hooks/use-file-upload.ts): the `accept` filter, which follows the `accept` attribute
    of the HTML Living Standard (section 4.10.5.1.18, File Upload state); per-file validation;
    `prepareValidFiles`, which sorts a batch into duplicates, errors and accepted files; and the hook's
    state updates (`addFiles`, `removeFile`, `clearFiles`, `clearErrors`, the drag handlers).

    Error messages are values of `UploadError` rather than strings, since their text depends on
    `formatBytes`, which is not part of this model. `Number.POSITIVE_INFINITY` limits are `Unlimited`. */
module FileUpload {
  import opened Wrappers
  import opened JsString

  datatype Limit = Unlimited | AtMost(n: nat)

  /** The fields of a `File` (or of `FileMetadata`) that the hook reads. */
  datatype FileInfo = FileInfo(name: string, size: nat, mimeType: string)

  /** An `initialFiles` entry: a file that is already stored, with its own id. */
  datatype FileMetadata = FileMetadata(info: FileInfo, id: string)

  datatype FileWithPreview = FileWithPreview(file: FileInfo, id: string)

  datatype UploadError =
    | FileTooLarge(maxSize: nat)                  // prepareValidFiles' own size check
    | NamedFileTooLarge(name: string, maxSize: nat) // validateFile's size check
    | NotAcceptedType(name: string)
    | TooManyFiles(maxFiles: nat)

  // ---------------------------------------------------------------- file names and types

  /** `getFileExtension`: a dot and the text after the last dot (the whole name when there is no dot), or
      `""` when that text is empty. */
  function FileExtension(name: string): (ext: string)
    ensures ext == "" || (ext[0] == '.' && '.' !in ext[1..])
  {
    var last := LastPart(name, '.');
    if last == "" then "" else "." + last
  }

  /** The extension of `stem.last` is `.last`, whatever the stem holds, and `""` for a trailing dot. */
  lemma ExtensionAfterLastDot(stem: string, last: string)
    requires '.' !in last
    ensures FileExtension(stem + "." + last) == (if last == "" then "" else "." + last)
  {
    assert stem + "." + last == stem + ['.'] + last;
    SplitAround(stem, '.', last);
    SplitNoSeparator(last, '.');
  }

  /** A name without a dot is its own extension, behind a dot. */
  lemma ExtensionWithoutDot(name: string)
    requires '.' !in name && name != ""
    ensures FileExtension(name) == "." + name
  {
    SplitNoSeparator(name, '.');
  }

  predicate OverMaxSize(f: FileInfo, maxSize: Limit) {
    maxSize.AtMost? && f.size > maxSize.n
  }

  // ---------------------------------------------------------------- isTypeAccepted

  /** `accept.split(",").map(type => type.trim())`. */
  function AcceptEntries(accept: string): seq<string> {
    var parts := Split(accept, ',');
    seq(|parts|, i requires 0 <= i < |parts| => Trim(parts[i]))
  }

  /** One entry of the list: a `.ext` entry compares extensions ignoring case, a wildcard entry (`base/`
      then `*`) compares the part before its first slash with the MIME type's prefix, any other entry
      compares MIME types. */
  predicate EntryMatches(entry: string, mimeType: string, extension: string) {
    if StartsWith(entry, ".") then Lower(extension) == Lower(entry)
    else if EndsWith(entry, "/*") then StartsWith(mimeType, Split(entry, '/')[0] + "/")
    else mimeType == entry
  }

  /** Some entry of the list matches. */
  predicate AnyEntryMatches(entries: seq<string>, mimeType: string, extension: string) {
    exists i :: 0 <= i < |entries| && EntryMatches(entries[i], mimeType, extension)
  }

  predicate TypeAccepted(accept: string, mimeType: string, extension: string) {
    accept == "*" || AnyEntryMatches(AcceptEntries(accept), mimeType, extension)
  }

  /** `isTypeAccepted`: the wildcard `"*"` accepts everything; otherwise the trimmed entries are tried in
      order. */
  method IsTypeAccepted(accept: string, mimeType: string, extension: string) returns (accepted: bool)
    ensures accepted == TypeAccepted(accept, mimeType, extension)
  {
    if accept == "*" {
      return true;
    }
    var acceptedTypes := AcceptEntries(accept);
    accepted := MatchEntries(acceptedTypes, mimeType, extension);
  }

  /** The early-return loop of `isTypeAccepted` over the entries. */
  method MatchEntries(acceptedTypes: seq<string>, mimeType: string, extension: string) returns (accepted: bool)
    ensures accepted == AnyEntryMatches(acceptedTypes, mimeType, extension)
  {
    for i := 0 to |acceptedTypes|
      invariant forall j :: 0 <= j < i ==> !EntryMatches(acceptedTypes[j], mimeType, extension)
    {
      var entry := acceptedTypes[i];
      if StartsWith(entry, ".") {
        if Lower(extension) == Lower(entry) {
          assert EntryMatches(acceptedTypes[i], mimeType, extension);
          return true;
        }
        continue;
      }
      if EndsWith(entry, "/*") {
        var baseType := Split(entry, '/')[0];
        if StartsWith(mimeType, baseType + "/") {
          assert EntryMatches(acceptedTypes[i], mimeType, extension);
          return true;
        }
        continue;
      }
      if mimeType == entry {
        assert EntryMatches(acceptedTypes[i], mimeType, extension);
        return true;
      }
    }
    return false;
  }

  /** `.ext` entries: the extension, ignoring case, decides. */
  lemma ExtensionEntry(entry: string, mimeType: string, extension: string)
    requires |entry| > 0 && entry[0] == '.'
    ensures EntryMatches(entry, mimeType, extension) <==> Lower(extension) == Lower(entry)
  {
    assert StartsWith(entry, ".");
  }

  /** Wildcard entries, `base/` then `*`, with no other slash in `base`: the MIME type must start with
      `base/`. */
  lemma WildcardEntry(base: string, mimeType: string, extension: string)
    requires '/' !in base && (|base| == 0 || base[0] != '.')
    ensures EntryMatches(base + "/*", mimeType, extension) <==> StartsWith(mimeType, base + "/")
  {
    var entry := base + "/*";
    assert entry == base + ['/'] + "*";
    SplitAround(base, '/', "*");
    SplitNoSeparator(base, '/');
    assert Split(entry, '/')[0] == base;
    assert EndsWith(entry, "/*") by { assert entry[|entry| - 2..] == "/*"; }
    assert !StartsWith(entry, ".") by { assert entry[0] == if |base| == 0 then '/' else base[0]; }
  }

  /** Every other entry matches by MIME equality only. */
  lemma ExactEntry(entry: string, mimeType: string, extension: string)
    requires !StartsWith(entry, ".") && !EndsWith(entry, "/*")
    ensures EntryMatches(entry, mimeType, extension) <==> mimeType == entry
  {
  }

  /** An empty entry, as a trailing comma leaves, accepts every file whose MIME type is unknown (`""`),
      whatever its extension: `.pdf,` lets `notes.txt` with no type through. */
  lemma TrailingCommaAcceptsUntyped()
    ensures TypeAccepted(".pdf,", "", ".txt")
  {
    assert ".pdf," == ".pdf" + [','] + "";
    SplitAround(".pdf", ',', "");
    SplitNoSeparator(".pdf", ',');
    SplitNoSeparator("", ',');
    assert Split(".pdf,", ',') == [".pdf", ""];
    assert AcceptEntries(".pdf,")[1] == "";
    assert EntryMatches("", "", ".txt");
  }

  // ---------------------------------------------------------------- validateFile

  /** What `validateFile` decides for a file. */
  function Validation(f: FileInfo, maxSize: Limit, accept: string): Option<UploadError> {
    if OverMaxSize(f, maxSize) then Some(NamedFileTooLarge(f.name, maxSize.n))
    else if accept == "*" then None
    else if !TypeAccepted(accept, f.mimeType, FileExtension(f.name)) then Some(NotAcceptedType(f.name))
    else None
  }

  method ValidateFile(f: FileInfo, maxSize: Limit, accept: string) returns (error: Option<UploadError>)
    ensures error == Validation(f, maxSize, accept)
  {
    if OverMaxSize(f, maxSize) {
      return Some(NamedFileTooLarge(f.name, maxSize.n));
    }
    if accept == "*" {
      return None;
    }
    var mimeType := f.mimeType;
    var extension := FileExtension(f.name);
    var accepted := IsTypeAccepted(accept, mimeType, extension);
    if !accepted {
      return Some(NotAcceptedType(f.name));
    }
    return None;
  }

  /** The size is checked before the type: an over-size file gets the size error whatever its type. */
  lemma SizeCheckedFirst(f: FileInfo, maxSize: Limit, accept: string)
    requires OverMaxSize(f, maxSize)
    ensures Validation(f, maxSize, accept) == Some(NamedFileTooLarge(f.name, maxSize.n))
  {
  }

  /** A file passes exactly when it is within the size limit and its type is accepted; with `accept ==
      "*"` only the size is checked. */
  lemma ValidationPasses(f: FileInfo, maxSize: Limit, accept: string)
    ensures Validation(f, maxSize, accept) == None
      <==> !OverMaxSize(f, maxSize) && TypeAccepted(accept, f.mimeType, FileExtension(f.name))
    ensures Validation(f, maxSize, "*") == None <==> !OverMaxSize(f, maxSize)
  {
  }

  // ---------------------------------------------------------------- prepareValidFiles

  datatype PrepareOptions = PrepareOptions(multiple: bool, existingFiles: seq<FileWithPreview>, maxSize: Limit, accept: string)

  /** The three ways `prepareValidFiles` treats one file. */
  datatype Disposition = Duplicate | Rejected(error: UploadError) | Accepted

  /** Same name and size as a file already in the list. */
  predicate IsDuplicate(f: FileInfo, existing: seq<FileWithPreview>) {
    exists j :: 0 <= j < |existing| && existing[j].file.name == f.name && existing[j].file.size == f.size
  }

  /** The loop body for one file: the duplicate check (multiple mode only), then the size check, then
      `validateFile`. Because the size is checked first with the same limit, `validateFile`'s own size
      error never reaches the list. */
  function Classify(f: FileInfo, o: PrepareOptions): Disposition {
    if o.multiple && IsDuplicate(f, o.existingFiles) then Duplicate
    else if OverMaxSize(f, o.maxSize) then Rejected(FileTooLarge(o.maxSize.n))
    else
      match Validation(f, o.maxSize, o.accept)
      case Some(err) => Rejected(err)
      case None => Accepted
  }

  /** Only multiple mode skips duplicates; an accepted file is within the size limit and of an accepted
      type; and the errors are never `validateFile`'s size error nor the file-count error. */
  lemma ClassifySpec(f: FileInfo, o: PrepareOptions)
    ensures Classify(f, o) == Duplicate <==> o.multiple && IsDuplicate(f, o.existingFiles)
    ensures Classify(f, o).Rejected? ==> !Classify(f, o).error.NamedFileTooLarge? && !Classify(f, o).error.TooManyFiles?
    ensures Classify(f, o) == Accepted ==> !OverMaxSize(f, o.maxSize) && TypeAccepted(o.accept, f.mimeType, FileExtension(f.name))
  {
  }

  datatype PreparedFiles = PreparedFiles(validFiles: seq<FileWithPreview>, errors: seq<UploadError>)

  /** The outcome of `prepareValidFiles` on `files`, where `ids[i]` is the id generated for `files[i]`. */
  function Prepare(files: seq<FileInfo>, o: PrepareOptions, ids: seq<string>): (p: PreparedFiles)
    requires |ids| == |files|
    ensures |p.validFiles| + |p.errors| <= |files|
    decreases |files|
  {
    if |files| == 0 then PreparedFiles([], [])
    else
      var n := |files| - 1;
      Step(Prepare(files[..n], o, ids[..n]), files[n], ids[n], o)
  }

  /** Every accepted file comes from the batch and was classified as accepted; every error belongs to a
      file of the batch that was rejected with it. */
  lemma {:induction false} PrepareSound(files: seq<FileInfo>, o: PrepareOptions, ids: seq<string>)
    requires |ids| == |files|
    ensures var p := Prepare(files, o, ids);
      && (forall v :: v in p.validFiles ==> v.file in files && Classify(v.file, o) == Accepted)
      && (forall e :: e in p.errors ==> exists f :: f in files && Classify(f, o) == Rejected(e))
    decreases |files|
  {
    if |files| > 0 {
      var n := |files| - 1;
      var before, f := files[..n], files[n];
      var p0 := Prepare(before, o, ids[..n]);
      var p := Prepare(files, o, ids);
      PrepareSound(before, o, ids[..n]);
      assert p == Step(p0, f, ids[n], o);
      forall v | v in p.validFiles
        ensures v.file in files && Classify(v.file, o) == Accepted
      {
        if v in p0.validFiles {
          assert v.file in before;
        } else {
          assert Classify(f, o) == Accepted && v == FileWithPreview(f, ids[n]);
        }
      }
      forall e | e in p.errors
        ensures exists g :: g in files && Classify(g, o) == Rejected(e)
      {
        if e in p0.errors {
          var g :| g in before && Classify(g, o) == Rejected(e);
          assert g in files;
        } else {
          assert Classify(f, o) == Rejected(e) && f in files;
        }
      }
    }
  }

  /** The loop body's effect on the lists built so far. */
  function Step(p: PreparedFiles, f: FileInfo, id: string, o: PrepareOptions): PreparedFiles {
    match Classify(f, o)
    case Duplicate => p
    case Rejected(err) => p.(errors := p.errors + [err])
    case Accepted => p.(validFiles := p.validFiles + [FileWithPreview(f, id)])
  }

  function Concat(p: PreparedFiles, q: PreparedFiles): PreparedFiles {
    PreparedFiles(p.validFiles + q.validFiles, p.errors + q.errors)
  }

  /** Files are handled independently and in input order: a batch's outcome is the outcomes of its parts,
      concatenated. */
  lemma {:induction false} PrepareAppend(a: seq<FileInfo>, b: seq<FileInfo>, ia: seq<string>, ib: seq<string>, o: PrepareOptions)
    requires |ia| == |a| && |ib| == |b|
    ensures Prepare(a + b, o, ia + ib) == Concat(Prepare(a, o, ia), Prepare(b, o, ib))
    decreases |b|
  {
    var p := Prepare(a, o, ia);
    if |b| == 0 {
      assert a + b == a && ia + ib == ia;
      assert p.validFiles + [] == p.validFiles && p.errors + [] == p.errors;
    } else {
      var n := |b| - 1;
      var ab, iab := a + b, ia + ib;
      var q := Prepare(b[..n], o, ib[..n]);
      assert ab[..|ab| - 1] == a + b[..n] && iab[..|iab| - 1] == ia + ib[..n];
      assert ab[|ab| - 1] == b[n] && iab[|iab| - 1] == ib[n];
      calc {
        Prepare(ab, o, iab);
        { PrepareLast(ab, o, iab); }
        Step(Prepare(a + b[..n], o, ia + ib[..n]), b[n], ib[n], o);
        { PrepareAppend(a, b[..n], ia, ib[..n], o); }
        Step(Concat(p, q), b[n], ib[n], o);
        { StepConcat(p, q, b[n], ib[n], o); }
        Concat(p, Step(q, b[n], ib[n], o));
        { PrepareLast(b, o, ib); }
        Concat(p, Prepare(b, o, ib));
      }
    }
  }

  lemma PrepareLast(files: seq<FileInfo>, o: PrepareOptions, ids: seq<string>)
    requires |ids| == |files| > 0
    ensures Prepare(files, o, ids) == Step(Prepare(files[..|files| - 1], o, ids[..|ids| - 1]), files[|files| - 1], ids[|ids| - 1], o)
  {
  }

  /** The outcome for one more file of the batch. */
  lemma PreparePrefix(files: seq<FileInfo>, o: PrepareOptions, ids: seq<string>, i: nat)
    requires |ids| == |files| && i < |files|
    ensures Prepare(files[..i + 1], o, ids[..i + 1]) == Step(Prepare(files[..i], o, ids[..i]), files[i], ids[i], o)
  {
    assert files[..i + 1][..i] == files[..i] && ids[..i + 1][..i] == ids[..i];
    PrepareLast(files[..i + 1], o, ids[..i + 1]);
  }

  lemma StepConcat(p: PreparedFiles, q: PreparedFiles, f: FileInfo, id: string, o: PrepareOptions)
    ensures Step(Concat(p, q), f, id, o) == Concat(p, Step(q, f, id, o))
  {
    match Classify(f, o)
    case Duplicate =>
    case Rejected(err) =>
      assert p.errors + q.errors + [err] == p.errors + (q.errors + [err]);
    case Accepted =>
      var v := FileWithPreview(f, id);
      assert p.validFiles + q.validFiles + [v] == p.validFiles + (q.validFiles + [v]);
  }

  /** A single file is skipped silently, contributes one error, or is accepted under its id. */
  lemma PrepareOne(f: FileInfo, id: string, o: PrepareOptions)
    ensures Classify(f, o) == Duplicate ==> Prepare([f], o, [id]) == PreparedFiles([], [])
    ensures Classify(f, o).Rejected? ==> Prepare([f], o, [id]) == PreparedFiles([], [Classify(f, o).error])
    ensures Classify(f, o) == Accepted ==> Prepare([f], o, [id]) == PreparedFiles([FileWithPreview(f, id)], [])
  {
    assert [f][..0] == [] && [id][..0] == [];
  }

  /** `prepareValidFiles`. */
  method PrepareValidFiles(inputFiles: seq<FileInfo>, o: PrepareOptions, ids: seq<string>)
    returns (validFiles: seq<FileWithPreview>, errors: seq<UploadError>)
    requires |ids| == |inputFiles|
    ensures PreparedFiles(validFiles, errors) == Prepare(inputFiles, o, ids)
  {
    validFiles, errors := [], [];
    for i := 0 to |inputFiles|
      invariant PreparedFiles(validFiles, errors) == Prepare(inputFiles[..i], o, ids[..i])
    {
      PreparePrefix(inputFiles, o, ids, i);
      validFiles, errors := PrepareFile(validFiles, errors, inputFiles[i], ids[i], o);
    }
    assert inputFiles[..|inputFiles|] == inputFiles && ids[..|ids|] == ids;
  }

  /** One iteration of `prepareValidFiles`' loop: the duplicate check, the size check, `validateFile`. */
  method PrepareFile(validFiles: seq<FileWithPreview>, errors: seq<UploadError>, file: FileInfo, id: string, o: PrepareOptions)
    returns (validFiles': seq<FileWithPreview>, errors': seq<UploadError>)
    ensures PreparedFiles(validFiles', errors') == Step(PreparedFiles(validFiles, errors), file, id, o)
  {
    validFiles', errors' := validFiles, errors;
    if o.multiple {
      var isDuplicate := IsDuplicate(file, o.existingFiles);
      if isDuplicate {
        return;
      }
    }
    if OverMaxSize(file, o.maxSize) {
      errors' := errors + [FileTooLarge(o.maxSize.n)];
      return;
    }
    var error := ValidateFile(file, o.maxSize, o.accept);
    if error.Some? {
      errors' := errors + [error.value];
      return;
    }
    validFiles' := validFiles + [FileWithPreview(file, id)];
  }

  // ---------------------------------------------------------------- the hook's state

  datatype UploadOptions = UploadOptions(maxFiles: Limit, maxSize: Limit, accept: string, multiple: bool)

  /** `FileUploadOptions` with every option omitted. */
  function DefaultOptions(): UploadOptions {
    UploadOptions(Unlimited, Unlimited, "*", false)
  }

  datatype UploadState = UploadState(files: seq<FileWithPreview>, isDragging: bool, errors: seq<UploadError>)

  /** The files without those whose id is `id`. */
  function WithoutFile(files: seq<FileWithPreview>, id: string): (r: seq<FileWithPreview>)
    ensures |r| <= |files|
    ensures forall f :: f in r <==> f in files && f.id != id
    decreases |files|
  {
    if |files| == 0 then []
    else if files[0].id == id then WithoutFile(files[1..], id)
    else [files[0]] + WithoutFile(files[1..], id)
  }

  /** Removal keeps the order of what remains: it distributes over concatenation. */
  lemma {:induction false} WithoutFileAppend(a: seq<FileWithPreview>, b: seq<FileWithPreview>, id: string)
    ensures WithoutFile(a + b, id) == WithoutFile(a, id) + WithoutFile(b, id)
    decreases |a|
  {
    if |a| == 0 {
      assert a + b == b;
    } else {
      assert (a + b)[0] == a[0] && (a + b)[1..] == a[1..] + b;
      WithoutFileAppend(a[1..], b, id);
    }
  }

  /** Removing an id no file has changes nothing, so removing twice is removing once. */
  lemma {:induction false} WithoutFileAbsent(files: seq<FileWithPreview>, id: string)
    requires forall k :: 0 <= k < |files| ==> files[k].id != id
    ensures WithoutFile(files, id) == files
    ensures WithoutFile(WithoutFile(files, id), id) == files
    decreases |files|
  {
    if |files| > 0 {
      WithoutFileAbsent(files[1..], id);
      assert [files[0]] + files[1..] == files;
    }
  }

  lemma WithoutFileIdempotent(files: seq<FileWithPreview>, id: string)
    ensures WithoutFile(WithoutFile(files, id), id) == WithoutFile(files, id)
  {
    var r := WithoutFile(files, id);
    forall k | 0 <= k < |r| ensures r[k].id != id {
      assert r[k] in r;
    }
    WithoutFileAbsent(r, id);
  }

  /** The net effect of one `addFiles(newFiles)` call once React has applied its queued updates in order,
      where `s.files` is the list the calling render saw. */
  function Added(s: UploadState, options: UploadOptions, newFiles: seq<FileInfo>, ids: seq<string>): UploadState
    requires |ids| == |newFiles|
  {
    if |newFiles| == 0 then s
    else if options.multiple && options.maxFiles.AtMost? && |s.files| + |newFiles| > options.maxFiles.n then
      s.(errors := [TooManyFiles(options.maxFiles.n)])
    else
      var p := Prepare(newFiles, PrepareOptions(options.multiple, s.files, options.maxSize, options.accept), ids);
      s.(files := (if options.multiple then s.files else []) + p.validFiles, errors := p.errors)
  }

  /** In multiple mode a batch that would overflow `maxFiles` only sets the one error. */
  lemma TooManyAddsNothing(s: UploadState, options: UploadOptions, newFiles: seq<FileInfo>, ids: seq<string>)
    requires |ids| == |newFiles| && |newFiles| > 0
    requires options.multiple && options.maxFiles.AtMost? && |s.files| + |newFiles| > options.maxFiles.n
    ensures var r := Added(s, options, newFiles, ids);
      r.files == s.files && r.errors == [TooManyFiles(options.maxFiles.n)] && r.isDragging == s.isDragging
  {
  }

  /** In multiple mode `maxFiles` is never exceeded by adding, and existing files stay first, in order. */
  lemma MaxFilesRespected(s: UploadState, options: UploadOptions, newFiles: seq<FileInfo>, ids: seq<string>)
    requires |ids| == |newFiles| && options.multiple
    ensures var r := Added(s, options, newFiles, ids);
      && (options.maxFiles.AtMost? && |s.files| <= options.maxFiles.n ==> |r.files| <= options.maxFiles.n)
      && |s.files| <= |r.files| && r.files[..|s.files|] == s.files
  {
  }

  /** In single mode the previous files are dropped and the batch's accepted files replace them; no file
      counts as a duplicate. */
  lemma SingleModeReplaces(s: UploadState, options: UploadOptions, newFiles: seq<FileInfo>, ids: seq<string>)
    requires |ids| == |newFiles| && |newFiles| > 0 && !options.multiple
    ensures var o := PrepareOptions(false, s.files, options.maxSize, options.accept);
      && Added(s, options, newFiles, ids).files == Prepare(newFiles, o, ids).validFiles
      && forall f :: Classify(f, o) != Duplicate
  {
  }

  class Uploader {
    const options: UploadOptions
    var files: seq<FileWithPreview>
    var isDragging: bool
    var errors: seq<UploadError>

    function State(): UploadState
      reads this
    {
      UploadState(files, isDragging, errors)
    }

    /** `useFileUpload(options)`: the initial files keep their stored ids. */
    constructor(options: UploadOptions, initialFiles: seq<FileMetadata>)
      ensures this.options == options
      ensures |files| == |initialFiles|
      ensures forall i :: 0 <= i < |initialFiles| ==> files[i] == FileWithPreview(initialFiles[i].info, initialFiles[i].id)
      ensures !isDragging && errors == []
    {
      this.options := options;
      files := seq(|initialFiles|, i requires 0 <= i < |initialFiles| => FileWithPreview(initialFiles[i].info, initialFiles[i].id));
      isDragging := false;
      errors := [];
    }

    method ClearFiles()
      modifies this
      ensures State() == old(State()).(files := [], errors := [])
    {
      files := [];
      errors := [];
    }

    method ClearErrors()
      modifies this
      ensures State() == old(State()).(errors := [])
    {
      errors := [];
    }

    method RemoveFile(id: string)
      modifies this
      ensures State() == old(State()).(files := WithoutFile(old(files), id), errors := [])
    {
      files := WithoutFile(files, id);
      errors := [];
    }

    /** `addFiles`, performing its queued state updates in the order React applies them. */
    method AddFiles(newFiles: seq<FileInfo>, ids: seq<string>)
      requires |ids| == |newFiles|
      modifies this
      ensures State() == Added(old(State()), options, newFiles, ids)
    {
      if |newFiles| == 0 {
        return;
      }
      var stateFiles := files;
      errors := [];
      if !options.multiple {
        ClearFiles();
      }
      if options.multiple && options.maxFiles.AtMost? && |stateFiles| + |newFiles| > options.maxFiles.n {
        errors := [TooManyFiles(options.maxFiles.n)];
        return;
      }
      var validFiles, prepared := PrepareValidFiles(newFiles, PrepareOptions(options.multiple, stateFiles, options.maxSize, options.accept), ids);
      if |validFiles| > 0 {
        files := if options.multiple then files + validFiles else validFiles;
        errors := prepared;
      } else if |prepared| > 0 {
        errors := prepared;
      }
    }

    method HandleDragEnter()
      modifies this
      ensures State() == old(State()).(isDragging := true)
    {
      isDragging := true;
    }

    /** `relatedInside`: the pointer moved to a descendant of the drop zone. */
    method HandleDragLeave(relatedInside: bool)
      modifies this
      ensures State() == if relatedInside then old(State()) else old(State()).(isDragging := false)
    {
      if relatedInside {
        return;
      }
      isDragging := false;
    }

    /** A drop adds every dropped file in multiple mode and only the first one otherwise; nothing is added
        while the input is disabled. */
    method HandleDrop(dropped: seq<FileInfo>, ids: seq<string>, inputDisabled: bool)
      requires |ids| == |dropped|
      modifies this
      ensures var s := old(State()).(isDragging := false);
        State() == if inputDisabled || |dropped| == 0 then s
                   else if options.multiple then Added(s, options, dropped, ids)
                   else Added(s, options, dropped[..1], ids[..1])
    {
      isDragging := false;
      if inputDisabled {
        return;
      }
      if |dropped| > 0 {
        if options.multiple {
          AddFiles(dropped, ids);
        } else {
          AddFiles([dropped[0]], [ids[0]]);
          assert [dropped[0]] == dropped[..1] && [ids[0]] == ids[..1];
        }
      }
    }

    /** The input's `change` event adds every selected file. */
    method HandleFileChange(selected: seq<FileInfo>, ids: seq<string>)
      requires |ids| == |selected|
      modifies this
      ensures State() == Added(old(State()), options, selected, ids)
    {
      if |selected| > 0 {
        AddFiles(selected, ids);
      }
    }
  }
}
