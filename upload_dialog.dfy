/** The upload dialog's session: the parsed files, the error message, the
    parsing and uploading flags and the open flag, with the handlers that
    change them. Each handler is specified by a transition function on a
    `Session` value; the class `UploadSession` holds the fields and its methods
    are proved to perform those transitions. The transition functions take
    the per-file parser as a parameter `parse`, so that what they promise holds
    for any parser; the class passes `ParseInvoiceFile`. */
module UploadDialog {
  import opened Wrappers
  import opened Sequences
  import opened Json
  import opened Invoices

  /** One accepted file with its preview and the raw records it contributes. */
  datatype ParsedFile = ParsedFile(id: string, file: File, rows: seq<PreviewRow>, records: seq<Json>, expanded: bool)

  /** The two messages the dialog can show (translation keys
      `uploadDialog.invalidJson` and `uploadDialog.errorUpload`). */
  datatype Message = InvalidJson | ErrorUpload

  datatype Session = Session(
    open: bool,
    parsedFiles: seq<ParsedFile>,
    error: Option<Message>,
    isUploading: bool,
    isParsing: bool)

  const Initial := Session(false, [], None, false, false)

  /** `parseInvoiceFile`, or any function of the same type: what reading and
      parsing one file yields. */
  type Parser = File -> Result<ParsedInvoices, ParseError>

  /** An entry is what parsing its file produced, under the file's key. */
  predicate WellFormed(parse: Parser, pf: ParsedFile)
  {
    pf.id == FileKey(pf.file) &&
    parse(pf.file) == Success(ParsedInvoices(pf.rows, pf.records))
  }

  predicate AllWellFormed(parse: Parser, files: seq<ParsedFile>)
  {
    forall i :: 0 <= i < |files| ==> WellFormed(parse, files[i])
  }

  /** What a well-formed entry shows: its records are the normalised content of
      its file, and its preview has one row per record, row `i` made from
      record `i`. */
  lemma WellFormedEntryPreview(pf: ParsedFile)
    requires WellFormed(ParseInvoiceFile, pf)
    ensures pf.file.body.Some? && pf.records == RecordsOf(pf.file.body.value)
    ensures |pf.rows| == |pf.records|
    ensures forall i :: 0 <= i < |pf.records| ==> PreviewRowOf(pf.file.name, pf.records[i], i) == Success(pf.rows[i])
  {
    ParseInvoiceFileOutcome(pf.file);
    ParsedRowsFollowRecords(pf.file);
  }

  // ----- resetState, handleOpenChange, the cancel button -----

  /** `resetState`: no files, no error, no activity; the open flag is untouched. */
  function ResetSession(s: Session): (r: Session)
    ensures r.parsedFiles == [] && r.error == None && !r.isUploading && !r.isParsing
    ensures r.open == s.open
  {
    s.(parsedFiles := [], error := None, isUploading := false, isParsing := false)
  }

  /** `handleOpenChange`: closing clears the session; opening keeps it. */
  function OpenChanged(s: Session, nextOpen: bool): (r: Session)
    ensures r.open == nextOpen
    ensures !nextOpen ==> r == Initial
    ensures nextOpen ==> r == s.(open := true)
  {
    if nextOpen then s.(open := true) else ResetSession(s.(open := false))
  }

  /** The footer's cancel button sets only the open flag: the files stay. */
  function Cancelled(s: Session): (r: Session)
    ensures !r.open && r.parsedFiles == s.parsedFiles && r.error == s.error
    ensures r.isUploading == s.isUploading && r.isParsing == s.isParsing
  {
    s.(open := false)
  }

  // ----- addFiles -----

  /** Some entry of the session was made from a file with this key. */
  predicate HasKey(existing: seq<ParsedFile>, key: string)
  {
    exists j :: 0 <= j < |existing| && FileKey(existing[j].file) == key
  }

  /** `uniqueFiles`: the input files whose key no existing entry has, in input
      order. Files of one batch are not compared with each other. */
  function UniqueFiles(existing: seq<ParsedFile>, files: seq<File>): seq<File>
  {
    Filter((f: File) => !HasKey(existing, FileKey(f)), files)
  }

  /** The unique files are exactly the input files with an unknown key, in
      input order. */
  lemma UniqueFilesSpec(existing: seq<ParsedFile>, files: seq<File>)
    ensures forall f :: f in UniqueFiles(existing, files) <==> f in files && !HasKey(existing, FileKey(f))
    ensures forall f :: f in files && !HasKey(existing, FileKey(f)) ==>
      multiset(UniqueFiles(existing, files))[f] == multiset(files)[f]
    ensures IsSubsequence(UniqueFiles(existing, files), files)
  {
    FilterMembers((f: File) => !HasKey(existing, FileKey(f)), files);
    FilterCount((f: File) => !HasKey(existing, FileKey(f)), files);
    FilterSubsequence((f: File) => !HasKey(existing, FileKey(f)), files);
  }

  /** The entry pushed for a file that parsed: keyed, collapsed. */
  function Admitted(f: File, parsed: ParsedInvoices): ParsedFile
  {
    ParsedFile(FileKey(f), f, parsed.rows, parsed.records, false)
  }

  /** The loop of `addFiles`: every file is parsed in turn and pushed; the
      first failure throws and nothing of the batch survives. */
  function ParseBatch(parse: Parser, files: seq<File>): (r: Option<seq<ParsedFile>>)
    ensures r.Some? ==> |r.value| == |files|
    decreases |files|
  {
    if files == [] then Some([])
    else
      var last := |files| - 1;
      match ParseBatch(parse, files[..last])
      case None => None
      case Some(prefix) =>
        match parse(files[last])
        case Failure(_) => None
        case Success(parsed) => Some(prefix + [Admitted(files[last], parsed)])
  }

  /** In an accepted batch, entry `i` is file `i`, parsed, keyed and collapsed. */
  lemma {:induction false} ParseBatchAt(parse: Parser, files: seq<File>, i: nat)
    requires ParseBatch(parse, files).Some? && i < |files|
    ensures parse(files[i]).Success?
    ensures ParseBatch(parse, files).value[i] == Admitted(files[i], parse(files[i]).value)
    decreases |files|
  {
    var last := |files| - 1;
    if i < last {
      ParseBatchAt(parse, files[..last], i);
      assert files[..last][i] == files[i];
    }
  }

  /** One file that does not parse rejects the whole batch. */
  lemma {:induction false} ParseBatchFailsAt(parse: Parser, files: seq<File>, i: nat)
    requires i < |files| && parse(files[i]).Failure?
    ensures ParseBatch(parse, files).None?
    decreases |files|
  {
    var last := |files| - 1;
    if i < last {
      ParseBatchFailsAt(parse, files[..last], i);
      assert files[..last][i] == files[i];
    }
  }

  /** A batch whose files all parse is accepted. */
  lemma {:induction false} ParseBatchSucceeds(parse: Parser, files: seq<File>)
    requires forall f :: f in files ==> parse(f).Success?
    ensures ParseBatch(parse, files).Some?
    decreases |files|
  {
    if files != [] {
      var last := |files| - 1;
      assert files[last] in files;
      ParseBatchSucceeds(parse, files[..last]);
    }
  }

  /** `addFiles`: an empty call does nothing; otherwise the error is cleared
      and parsing runs, and either all new files are appended after the
      existing ones or none is and the error is `invalidJson`. */
  function FilesAdded(parse: Parser, s: Session, files: seq<File>): (r: Session)
    ensures |files| == 0 ==> r == s
    ensures |files| > 0 ==> !r.isParsing && r.open == s.open && r.isUploading == s.isUploading
    ensures |files| > 0 ==> (r.error == Some(InvalidJson) <==> ParseBatch(parse, UniqueFiles(s.parsedFiles, files)).None?)
    ensures |files| > 0 ==> (r.error == None <==> ParseBatch(parse, UniqueFiles(s.parsedFiles, files)).Some?)
    ensures r.error == Some(InvalidJson) ==> r.parsedFiles == s.parsedFiles
    ensures |files| > 0 && ParseBatch(parse, UniqueFiles(s.parsedFiles, files)).Some? ==>
      r.parsedFiles == s.parsedFiles + ParseBatch(parse, UniqueFiles(s.parsedFiles, files)).value
  {
    if |files| == 0 then s
    else
      match ParseBatch(parse, UniqueFiles(s.parsedFiles, files))
      case None => s.(error := Some(InvalidJson), isParsing := false)
      case Some(added) => s.(parsedFiles := s.parsedFiles + added, error := None, isParsing := false)
  }

  /** Adding keeps every existing entry, in order, at the front. */
  lemma AddKeepsExisting(parse: Parser, s: Session, files: seq<File>)
    ensures |FilesAdded(parse, s, files).parsedFiles| >= |s.parsedFiles|
    ensures FilesAdded(parse, s, files).parsedFiles[..|s.parsedFiles|] == s.parsedFiles
  {
  }

  /** Every appended entry comes from an input file that did not match an
      existing key, carries that file's key as its id and starts collapsed. */
  lemma AddedEntryIsNewFile(parse: Parser, s: Session, files: seq<File>, j: nat)
    requires |s.parsedFiles| <= j < |FilesAdded(parse, s, files).parsedFiles|
    ensures var pf := FilesAdded(parse, s, files).parsedFiles[j];
      pf.file in files && !HasKey(s.parsedFiles, FileKey(pf.file)) &&
      pf.id == FileKey(pf.file) && !pf.expanded
  {
    var unique := UniqueFiles(s.parsedFiles, files);
    var k := j - |s.parsedFiles|;
    ParseBatchAt(parse, unique, k);
    assert FilesAdded(parse, s, files).parsedFiles[j] == ParseBatch(parse, unique).value[k];
    UniqueFilesSpec(s.parsedFiles, files);
    assert unique[k] in unique;
  }

  /** The appended entries are the new files in input order: entry `k` of
      the batch comes from the `k`-th input file whose key was unknown. */
  lemma AddedEntriesInInputOrder(parse: Parser, s: Session, files: seq<File>, k: nat)
    requires |s.parsedFiles| + k < |FilesAdded(parse, s, files).parsedFiles|
    ensures FilesAdded(parse, s, files).parsedFiles[|s.parsedFiles| + k].file == UniqueFiles(s.parsedFiles, files)[k]
  {
    var unique := UniqueFiles(s.parsedFiles, files);
    ParseBatchAt(parse, unique, k);
    assert FilesAdded(parse, s, files).parsedFiles[|s.parsedFiles| + k] == ParseBatch(parse, unique).value[k];
  }

  /** A file whose key an entry already has is never added again. */
  lemma KnownFileNotAddedAgain(parse: Parser, s: Session, files: seq<File>, f: File, j: nat)
    requires HasKey(s.parsedFiles, FileKey(f))
    requires |s.parsedFiles| <= j < |FilesAdded(parse, s, files).parsedFiles|
    ensures FilesAdded(parse, s, files).parsedFiles[j].file != f
  {
    AddedEntryIsNewFile(parse, s, files, j);
  }

  /** A batch of files that are all known already changes no entry, and
      only clears the error and the parsing flag. */
  lemma AllKnownFilesChangeNothing(parse: Parser, s: Session, files: seq<File>)
    requires |files| > 0
    requires forall f :: f in files ==> HasKey(s.parsedFiles, FileKey(f))
    ensures FilesAdded(parse, s, files) == s.(error := None, isParsing := false)
  {
    UniqueFilesSpec(s.parsedFiles, files);
  }

  /** Adding keeps every entry well formed. */
  lemma AddKeepsWellFormed(parse: Parser, s: Session, files: seq<File>)
    requires AllWellFormed(parse, s.parsedFiles)
    ensures AllWellFormed(parse, FilesAdded(parse, s, files).parsedFiles)
  {
    var r := FilesAdded(parse, s, files);
    if r.parsedFiles != s.parsedFiles {
      var unique := UniqueFiles(s.parsedFiles, files);
      var added := ParseBatch(parse, unique).value;
      forall j | 0 <= j < |r.parsedFiles| ensures WellFormed(parse, r.parsedFiles[j]) {
        if j >= |s.parsedFiles| {
          ParseBatchAt(parse, unique, j - |s.parsedFiles|);
          assert r.parsedFiles[j] == added[j - |s.parsedFiles|];
        }
      }
    }
  }

  /** As written, one file that does not parse discards the files that do:
      the session keeps its old files and shows `invalidJson`. */
  lemma OneBadFileDiscardsBatch(parse: Parser, s: Session, good: File, bad: File)
    requires parse(good).Success? && parse(bad).Failure?
    requires !HasKey(s.parsedFiles, FileKey(good)) && !HasKey(s.parsedFiles, FileKey(bad))
    ensures FilesAdded(parse, s, [good, bad]).parsedFiles == s.parsedFiles
    ensures FilesAdded(parse, s, [good, bad]).error == Some(InvalidJson)
  {
    var unique := UniqueFiles(s.parsedFiles, [good, bad]);
    UniqueFilesSpec(s.parsedFiles, [good, bad]);
    assert bad in unique;
    var k :| 0 <= k < |unique| && unique[k] == bad;
    ParseBatchFailsAt(parse, unique, k);
  }

  /** The same with the invoice parser: a file that is not JSON, added
      together with a valid invoice file, leaves the session's files as they were. */
  lemma NonJsonFileDiscardsBatch(s: Session, good: File, bad: File)
    requires ParseInvoiceFile(good).Success? && bad.body.None?
    requires !HasKey(s.parsedFiles, FileKey(good)) && !HasKey(s.parsedFiles, FileKey(bad))
    ensures FilesAdded(ParseInvoiceFile, s, [good, bad]).parsedFiles == s.parsedFiles
    ensures FilesAdded(ParseInvoiceFile, s, [good, bad]).error == Some(InvalidJson)
  {
    OneBadFileDiscardsBatch(ParseInvoiceFile, s, good, bad);
  }

  /** As written, the same file twice in one batch is added twice, so two
      entries share one id. */
  lemma DuplicateInBatchAddedTwice(parse: Parser, s: Session, f: File)
    requires parse(f).Success? && !HasKey(s.parsedFiles, FileKey(f))
    ensures var r := FilesAdded(parse, s, [f, f]).parsedFiles;
      var n := |s.parsedFiles|;
      |r| == n + 2 && r[n].file == r[n + 1].file == f && r[n].id == r[n + 1].id == FileKey(f)
  {
    var unique := UniqueFiles(s.parsedFiles, [f, f]);
    FilterKeepsAll((g: File) => !HasKey(s.parsedFiles, FileKey(g)), [f, f]);
    assert unique == [f, f];
    ParseBatchSucceeds(parse, unique);
    ParseBatchAt(parse, unique, 0);
    ParseBatchAt(parse, unique, 1);
  }

  // ----- handleDrop -----

  /** `handleDrop`: only JSON files are passed on, and nothing happens when
      none is; the filtered files are added as by `addFiles`. */
  function Dropped(parse: Parser, s: Session, dropped: seq<File>): (r: Session)
    ensures r == FilesAdded(parse, s, Filter(IsJsonFile, dropped))
    ensures (forall f :: f in dropped ==> !IsJsonFile(f)) ==> r == s
  {
    var jsonFiles := Filter(IsJsonFile, dropped);
    FilterMembers(IsJsonFile, dropped);
    if |jsonFiles| == 0 then s
    else
      assert jsonFiles[0] in jsonFiles;
      FilesAdded(parse, s, jsonFiles)
  }

  /** A drop never brings a non-JSON file into the session. */
  lemma DropAddsOnlyJsonFiles(parse: Parser, s: Session, dropped: seq<File>, j: nat)
    requires |s.parsedFiles| <= j < |Dropped(parse, s, dropped).parsedFiles|
    ensures Dropped(parse, s, dropped).parsedFiles[j].file in dropped
    ensures IsJsonFile(Dropped(parse, s, dropped).parsedFiles[j].file)
  {
    AddedEntryIsNewFile(parse, s, Filter(IsJsonFile, dropped), j);
    FilterMembers(IsJsonFile, dropped);
  }

  // ----- toggleFileExpanded -----

  /** `prev.map(...)`: flip `expanded` on the entries with this id. */
  function ToggledExpanded(files: seq<ParsedFile>, id: string): (r: seq<ParsedFile>)
    ensures |r| == |files|
    ensures forall i :: 0 <= i < |files| && files[i].id != id ==> r[i] == files[i]
    ensures forall i :: 0 <= i < |files| && files[i].id == id ==>
      r[i] == files[i].(expanded := !files[i].expanded)
  {
    seq(|files|, i requires 0 <= i < |files| =>
      if files[i].id == id then files[i].(expanded := !files[i].expanded) else files[i])
  }

  /** Toggling the same id twice restores the list. */
  lemma ToggleTwiceRestores(files: seq<ParsedFile>, id: string)
    ensures ToggledExpanded(ToggledExpanded(files, id), id) == files
  {
    var r := ToggledExpanded(ToggledExpanded(files, id), id);
    assert forall i :: 0 <= i < |files| ==> r[i] == files[i];
  }

  /** Toggling changes no id, file, row or record, so entries stay well formed. */
  lemma ToggleKeepsWellFormed(parse: Parser, files: seq<ParsedFile>, id: string)
    requires AllWellFormed(parse, files)
    ensures AllWellFormed(parse, ToggledExpanded(files, id))
  {
  }

  // ----- handleRemoveFile -----

  /** `prev.filter(...)`: drop the entries with this id, keep the rest in order. */
  function WithoutFile(files: seq<ParsedFile>, id: string): (r: seq<ParsedFile>)
    ensures forall pf :: pf in r ==> pf in files && pf.id != id
    ensures forall pf :: pf in files && pf.id != id ==> pf in r
    ensures forall pf :: pf in files && pf.id != id ==> multiset(r)[pf] == multiset(files)[pf]
    ensures IsSubsequence(r, files)
  {
    FilterMembers((pf: ParsedFile) => pf.id != id, files);
    FilterCount((pf: ParsedFile) => pf.id != id, files);
    FilterSubsequence((pf: ParsedFile) => pf.id != id, files);
    Filter((pf: ParsedFile) => pf.id != id, files)
  }

  /** Removing an id no entry has changes nothing. */
  lemma RemoveUnknownIdChangesNothing(files: seq<ParsedFile>, id: string)
    requires forall pf :: pf in files ==> pf.id != id
    ensures WithoutFile(files, id) == files
  {
    FilterKeepsAll((pf: ParsedFile) => pf.id != id, files);
  }

  lemma RemoveKeepsWellFormed(parse: Parser, files: seq<ParsedFile>, id: string)
    requires AllWellFormed(parse, files)
    ensures AllWellFormed(parse, WithoutFile(files, id))
  {
    var r := WithoutFile(files, id);
    forall i | 0 <= i < |r| ensures WellFormed(parse, r[i]) {
      assert r[i] in files;
    }
  }

  // ----- handleConfirmUpload -----

  /** `parsedFiles.flatMap(pf => pf.records)`: every file's raw records, file
      after file. */
  function AllRecords(files: seq<ParsedFile>): (r: seq<Json>)
    ensures files == [] ==> r == []
    ensures files != [] ==> |files[0].records| <= |r| && r[..|files[0].records|] == files[0].records
    decreases |files|
  {
    if files == [] then [] else files[0].records + AllRecords(files[1..])
  }

  /** The payload of a list of files is the payload of its front part
      followed by that of its back part. */
  lemma {:induction false} AllRecordsAppend(a: seq<ParsedFile>, b: seq<ParsedFile>)
    ensures AllRecords(a + b) == AllRecords(a) + AllRecords(b)
    decreases |a|
  {
    if a != [] {
      assert (a + b)[0] == a[0];
      assert (a + b)[1..] == a[1..] + b;
      AllRecordsAppend(a[1..], b);
    } else {
      assert a + b == b;
    }
  }

  lemma AllRecordsSingle(pf: ParsedFile)
    ensures AllRecords([pf]) == pf.records
  {
    assert [pf][1..] == [];
  }

  /** After a successful add, the payload is the old payload followed by the
      records of the new files. */
  lemma AddAppendsToPayload(parse: Parser, s: Session, files: seq<File>)
    requires ParseBatch(parse, UniqueFiles(s.parsedFiles, files)).Some?
    ensures AllRecords(FilesAdded(parse, s, files).parsedFiles) ==
      AllRecords(s.parsedFiles) + AllRecords(ParseBatch(parse, UniqueFiles(s.parsedFiles, files)).value)
  {
    if |files| > 0 {
      AllRecordsAppend(s.parsedFiles, ParseBatch(parse, UniqueFiles(s.parsedFiles, files)).value);
    }
  }

  /** `handleConfirmUpload` with the server's answer as `succeeded`. Returns
      the new session and the request body, `None` when no request is made. */
  function ConfirmedUpload(s: Session, succeeded: bool): (r: (Session, Option<seq<Json>>))
    ensures r.1.None? <==> |s.parsedFiles| == 0
    ensures r.1.Some? ==> r.1.value == AllRecords(s.parsedFiles)
    ensures |s.parsedFiles| == 0 ==> r.0 == s.(error := Some(InvalidJson))
    ensures |s.parsedFiles| > 0 && succeeded ==> r.0 == Initial
    ensures |s.parsedFiles| > 0 && !succeeded ==>
      r.0 == s.(error := Some(ErrorUpload), isUploading := false)
  {
    if |s.parsedFiles| == 0 then (s.(error := Some(InvalidJson)), None)
    else
      var payload := AllRecords(s.parsedFiles);
      if succeeded then (ResetSession(s.(open := false)), Some(payload))
      else (s.(error := Some(ErrorUpload), isUploading := false), Some(payload))
  }

  /** A failed upload leaves the files in place for a retry, which sends the same body. */
  lemma FailedUploadCanBeRetried(s: Session)
    requires |s.parsedFiles| > 0
    ensures ConfirmedUpload(ConfirmedUpload(s, false).0, true).1 == ConfirmedUpload(s, false).1
  {
  }

  /** The confirm button is disabled while uploading and while there is no file. */
  predicate ConfirmDisabled(s: Session)
  {
    s.isUploading || |s.parsedFiles| == 0
  }

  /** Whenever the confirm button can be pressed, a request is made. */
  lemma EnabledConfirmSends(s: Session, succeeded: bool)
    requires !ConfirmDisabled(s)
    ensures ConfirmedUpload(s, succeeded).1.Some?
  {
  }

  /** The parsing loop of an add: files are parsed one after another and the
      first failure stops the loop and discards what was parsed so far. */
  method ParseEach(files: seq<File>) returns (parsed: Option<seq<ParsedFile>>)
    ensures parsed == ParseBatch(ParseInvoiceFile, files)
  {
    var added: seq<ParsedFile> := [];
    var i := 0;
    while i < |files|
      invariant 0 <= i <= |files|
      invariant ParseBatch(ParseInvoiceFile, files[..i]) == Some(added)
    {
      var file := files[i];
      var outcome := ParseInvoiceFile(file);
      if outcome.Failure? {
        ParseBatchFailsAt(ParseInvoiceFile, files, i);
        return None;
      }
      assert files[..i + 1][..i] == files[..i];
      assert files[..i + 1][i] == file;
      added := added + [Admitted(file, outcome.value)];
      i := i + 1;
    }
    assert files[..i] == files;
    return Some(added);
  }

  /** The dialog's state. Every handler is a method that performs the
      transition function of the same name on `State()`. */
  class UploadSession {
    var open: bool
    var parsedFiles: seq<ParsedFile>
    var error: Option<Message>
    var isUploading: bool
    var isParsing: bool

    function State(): Session
      reads this
    {
      Session(open, parsedFiles, error, isUploading, isParsing)
    }

    /** The invariant every handler keeps: each entry is a correctly keyed
        parse of its file, so `WellFormedEntryPreview` applies to it. */
    predicate Valid()
      reads this
    {
      AllWellFormed(ParseInvoiceFile, parsedFiles)
    }

    constructor ()
      ensures Valid() && State() == Initial
    {
      open, parsedFiles, error, isUploading, isParsing := false, [], None, false, false;
    }

    method ResetState()
      modifies this
      ensures Valid() && State() == ResetSession(old(State()))
    {
      parsedFiles := [];
      error := None;
      isUploading := false;
      isParsing := false;
    }

    method HandleOpenChange(nextOpen: bool)
      requires Valid()
      modifies this
      ensures Valid() && State() == OpenChanged(old(State()), nextOpen)
    {
      open := nextOpen;
      if !nextOpen {
        ResetState();
      }
    }

    method Cancel()
      requires Valid()
      modifies this
      ensures Valid() && State() == Cancelled(old(State()))
    {
      open := false;
    }

    method AddFiles(filesToAdd: seq<File>)
      requires Valid()
      modifies this
      ensures Valid() && State() == FilesAdded(ParseInvoiceFile, old(State()), filesToAdd)
    {
      if |filesToAdd| == 0 {
        return;
      }
      ghost var before := State();
      isParsing := true;
      error := None;
      var uniqueFiles := UniqueFiles(parsedFiles, filesToAdd);
      var outcome := ParseEach(uniqueFiles);
      if outcome.None? {
        error := Some(InvalidJson);
      } else {
        parsedFiles := parsedFiles + outcome.value;
      }
      isParsing := false;
      AddKeepsWellFormed(ParseInvoiceFile, before, filesToAdd);
    }

    method HandleDrop(dropped: seq<File>)
      requires Valid()
      modifies this
      ensures Valid() && State() == Dropped(ParseInvoiceFile, old(State()), dropped)
    {
      var jsonFiles := Filter(IsJsonFile, dropped);
      if |jsonFiles| == 0 {
        return;
      }
      AddFiles(jsonFiles);
    }

    method ToggleFileExpanded(id: string)
      requires Valid()
      modifies this
      ensures Valid() && State() == old(State()).(parsedFiles := ToggledExpanded(old(parsedFiles), id))
    {
      ToggleKeepsWellFormed(ParseInvoiceFile, parsedFiles, id);
      parsedFiles := ToggledExpanded(parsedFiles, id);
    }

    method HandleRemoveFile(id: string)
      requires Valid()
      modifies this
      ensures Valid() && State() == old(State()).(parsedFiles := WithoutFile(old(parsedFiles), id))
    {
      RemoveKeepsWellFormed(ParseInvoiceFile, parsedFiles, id);
      parsedFiles := WithoutFile(parsedFiles, id);
    }

    /** `succeeded` stands for the outcome of the POST; `request` is its body,
        `None` when none is sent. */
    method HandleConfirmUpload(succeeded: bool) returns (request: Option<seq<Json>>)
      requires Valid()
      modifies this
      ensures Valid()
      ensures (State(), request) == ConfirmedUpload(old(State()), succeeded)
    {
      if |parsedFiles| == 0 {
        error := Some(InvalidJson);
        return None;
      }
      var allRecords := AllRecords(parsedFiles);
      isUploading := true;
      error := None;
      request := Some(allRecords);
      if succeeded {
        open := false;
        ResetState();
      } else {
        error := Some(ErrorUpload);
      }
      isUploading := false;
    }
  }
}
