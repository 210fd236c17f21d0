/**
 * App.tsx: the collection list and the lead list the app keeps as
 * component state, and the handlers that change them. Each handler's new
 * values are the pure list expressions below; the class applies them.
 */
module App {
  import opened Wrappers
  import opened Text
  import opened Types
  import GeminiService
  import CreateFileDialog
  import Dashboard

  /** Which dialog is open, if any. */
  datatype DialogMode = Create | Edit

  /** How the awaited `findLeads` call settles. It resolves with its result,
      its own try/catch turning a failed search into empty leads; or it
      rejects, which happens when constructing the client at
      services/geminiService.ts:7, outside that try, throws. */
  datatype Settlement = Resolved(outcome: GeminiService.SearchOutcome) | Rejected

  // ----- the list expressions the handlers use ----------------------------

  /** `{...f, ...data}`: every submitted field replaces the file's; `id`
      and `createdAt` stay. */
  function ApplyData(f: KeywordFile, data: FileData): (g: KeywordFile)
    ensures g.id == f.id && g.createdAt == f.createdAt
    ensures g.name == data.name && g.keywords == data.keywords
    ensures g.excludeKeywords == data.excludeKeywords
    ensures g.niche == data.niche && g.location == data.location
  {
    f.(name := data.name, keywords := data.keywords,
       excludeKeywords := data.excludeKeywords,
       niche := data.niche, location := data.location)
  }

  /** `{...data, id: `file-${now}`, createdAt: now}`. */
  function NewFile(data: FileData, now: nat): (f: KeywordFile)
    ensures f.id == "file-" + NatToString(now) && f.createdAt == now
    ensures ApplyData(f, data) == f
  {
    KeywordFile("file-" + NatToString(now), data.name, data.keywords,
                data.excludeKeywords, data.niche, data.location, now)
  }

  /** The collection created on a first start. It is one the form could
      have produced: a name and niche, and clean, non-empty keyword lists. */
  function DefaultFile(now: nat): (f: KeywordFile)
    ensures f.id == "default-1" && f.createdAt == now
    ensures f.name != "" && f.niche != "" && f.location != ""
    ensures f.keywords != [] && f.excludeKeywords != []
    ensures forall i :: 0 <= i < |f.keywords| ==> CreateFileDialog.CleanKeyword(f.keywords[i])
    ensures forall i :: 0 <= i < |f.excludeKeywords| ==> CreateFileDialog.CleanKeyword(f.excludeKeywords[i])
  {
    KeywordFile(
      id := "default-1",
      name := "SaaS Leads",
      keywords := ["CRM for startups", "marketing automation"],
      excludeKeywords := ["jobs", "internship"],
      niche := "B2B Software",
      location := "California, USA",
      createdAt := now)
  }

  /** `files.find(f => f.id === id)`: the first file with that id, and
      none when the id is null or no file has it. */
  function FindFile(files: seq<KeywordFile>, id: Option<string>): (r: Option<KeywordFile>)
    ensures r.Some? ==> id.Some? && r.value.id == id.value
    ensures r.Some? ==> exists i :: (0 <= i < |files| && files[i] == r.value
      && forall j :: 0 <= j < i ==> files[j].id != id.value)
    ensures r.None? <==> id.None? || forall i :: 0 <= i < |files| ==> files[i].id != id.value
  {
    if id.None? || files == [] then None
    else if files[0].id == id.value then Some(files[0])
    else
      var r := FindFile(files[1..], id);
      assert r.Some? ==> exists i :: (0 < i < |files| && files[i] == r.value
        && forall j :: 0 <= j < i ==> files[j].id != id.value) by {
        if r.Some? {
          var k :| 0 <= k < |files| - 1 && files[1..][k] == r.value
            && forall j :: 0 <= j < k ==> files[1..][j].id != id.value;
          assert files[k + 1] == r.value;
          assert forall j :: 1 <= j < k + 1 ==> files[j].id == files[1..][j - 1].id;
        }
      }
      assert r.None? ==> forall i :: 1 <= i < |files| ==> files[i].id == files[1..][i - 1].id;
      r
  }

  /** `files.map(f => f.id === id ? {...f, ...data} : f)`: same length and
      order; exactly the files with that id are rewritten, and they keep
      their id and creation time. */
  function UpdateWhere(files: seq<KeywordFile>, id: string, data: FileData): (r: seq<KeywordFile>)
    ensures |r| == |files|
    ensures forall i :: 0 <= i < |files| ==> r[i].id == files[i].id && r[i].createdAt == files[i].createdAt
    ensures forall i :: 0 <= i < |files| && files[i].id != id ==> r[i] == files[i]
    ensures forall i :: 0 <= i < |files| && files[i].id == id ==> r[i] == ApplyData(files[i], data)
  {
    if files == [] then []
    else
      var f := files[0];
      var rest := UpdateWhere(files[1..], id, data);
      assert forall i :: 1 <= i < |files| ==> files[i] == files[1..][i - 1];
      [if f.id == id then ApplyData(f, data) else f] + rest
  }

  /** `files.filter(f => f.id !== id)`: exactly the files with another id
      remain, and no more of them than there were. */
  function RemoveId(files: seq<KeywordFile>, id: string): (r: seq<KeywordFile>)
    ensures |r| <= |files|
    ensures forall i :: 0 <= i < |r| ==> r[i].id != id && r[i] in files
    ensures forall i :: 0 <= i < |files| && files[i].id != id ==> files[i] in r
  {
    if files == [] then []
    else (if files[0].id != id then [files[0]] else []) + RemoveId(files[1..], id)
  }

  /** Filtering keeps order: the files left of `a + b` are those left of
      `a`, followed by those left of `b`. */
  lemma {:induction false} RemoveIdAppend(a: seq<KeywordFile>, b: seq<KeywordFile>, id: string)
    ensures RemoveId(a + b, id) == RemoveId(a, id) + RemoveId(b, id)
  {
    if a == [] {
      assert a + b == b;
    } else {
      var head := if a[0].id != id then [a[0]] else [];
      assert (a + b)[0] == a[0] && (a + b)[1..] == a[1..] + b;
      assert RemoveId(a + b, id) == head + RemoveId(a[1..] + b, id);
      RemoveIdAppend(a[1..], b, id);
    }
  }

  /** The active id after deleting `id`: the first remaining file's id (or
      null when none remain) if `id` was active, otherwise unchanged. */
  function ActiveAfterDelete(active: Option<string>, remaining: seq<KeywordFile>, id: string): (r: Option<string>)
    ensures active != Some(id) ==> r == active
    ensures active == Some(id) ==> (r.None? <==> remaining == [])
    ensures active == Some(id) && r.Some? ==> r.value == remaining[0].id
  {
    if active == Some(id) then
      (if |remaining| > 0 then Some(remaining[0].id) else None)
    else active
  }

  /** The active id names an existing file, or is null. */
  ghost predicate Resolves(files: seq<KeywordFile>, active: Option<string>) {
    active.None? || FindFile(files, active).Some?
  }

  /** Deleting keeps an active id that named a file naming a file. */
  lemma DeleteKeepsResolved(files: seq<KeywordFile>, active: Option<string>, id: string)
    requires Resolves(files, active)
    ensures var remaining := RemoveId(files, id);
      Resolves(remaining, ActiveAfterDelete(active, remaining, id))
  {
    var remaining := RemoveId(files, id);
    if active != Some(id) && active.Some? {
      var f := FindFile(files, active).value;
      assert f in files;
      assert f in remaining;
      var k :| 0 <= k < |remaining| && remaining[k] == f;
      assert remaining[k].id == active.value;
    }
  }

  // ----- the component state ----------------------------------------------

  class AppState {
    var files: seq<KeywordFile>
    var activeFileId: Option<string>
    var leads: seq<Lead>
    var dialogMode: Option<DialogMode>
    var isRefreshing: bool

    /** The `useState` initial values. */
    constructor ()
      ensures files == [] && activeFileId == None && leads == []
      ensures dialogMode == None && !isRefreshing
    {
      files := [];
      activeFileId := None;
      leads := [];
      dialogMode := None;
      isRefreshing := false;
    }

    /** `activeFile`: the first file whose id is the active id, if any. */
    function ActiveFile(): (r: Option<KeywordFile>)
      reads this
      ensures r.Some? ==> r.value in files && activeFileId == Some(r.value.id)
      ensures r.None? <==> activeFileId.None? || forall i :: 0 <= i < |files| ==> files[i].id != activeFileId.value
    {
      FindFile(files, activeFileId)
    }

    /** What the main area renders: `<Dashboard activeFile leads isLoading={isRefreshing}>`. */
    function Screen(): (v: Dashboard.View)
      reads this
      ensures v.ReadyToFind? <==> ActiveFile().None?
      ensures v.Workspace? ==> v.file == ActiveFile().value && (v.pane.Skeletons? <==> isRefreshing)
      ensures v.Workspace? ==> (v.pane.NoLeadsYet? <==> !isRefreshing && leads == [])
    {
      Dashboard.Render(ActiveFile(), leads, isRefreshing)
    }

    ghost predicate ActiveResolves()
      reads this
    {
      Resolves(files, activeFileId)
    }

    /** The start-up effect. With nothing saved there is exactly one
        collection, "default-1", and it is active; with a saved list that
        list is taken and its first entry becomes active (a saved empty list
        leaves the active id as it was). */
    method Load(saved: Option<seq<KeywordFile>>, now: nat)
      modifies this
      ensures saved.None? ==> files == [DefaultFile(now)] && activeFileId == Some("default-1")
      ensures saved.Some? ==> files == saved.value
      ensures saved.Some? ==> activeFileId == if |saved.value| > 0 then Some(saved.value[0].id) else old(activeFileId)
      ensures leads == old(leads) && dialogMode == old(dialogMode) && isRefreshing == old(isRefreshing)
      ensures saved.None? || |saved.value| > 0 ==> ActiveFile().Some? && ActiveFile().value == files[0]
    {
      if saved.Some? {
        files := saved.value;
        if |saved.value| > 0 {
          activeFileId := Some(saved.value[0].id);
        }
      } else {
        var f := DefaultFile(now);
        files := [f];
        activeFileId := Some(f.id);
      }
    }

    /** The sidebar's `onSelectFile`. */
    method SelectFile(id: string)
      modifies this
      ensures activeFileId == Some(id)
      ensures files == old(files) && leads == old(leads)
      ensures dialogMode == old(dialogMode) && isRefreshing == old(isRefreshing)
    {
      activeFileId := Some(id);
    }

    /** The sidebar's `onCreateClick`. */
    method OpenCreateDialog()
      modifies this
      ensures dialogMode == Some(Create)
      ensures files == old(files) && activeFileId == old(activeFileId)
      ensures leads == old(leads) && isRefreshing == old(isRefreshing)
    {
      dialogMode := Some(Create);
    }

    /** The sidebar's `onEditFile`: select the file and open the edit dialog. */
    method EditFile(id: string)
      modifies this
      ensures activeFileId == Some(id) && dialogMode == Some(Edit)
      ensures files == old(files) && leads == old(leads) && isRefreshing == old(isRefreshing)
    {
      activeFileId := Some(id);
      dialogMode := Some(Edit);
    }

    /** The dialog's `onClose`. */
    method CloseDialog()
      modifies this
      ensures dialogMode == None
      ensures files == old(files) && activeFileId == old(activeFileId)
      ensures leads == old(leads) && isRefreshing == old(isRefreshing)
    {
      dialogMode := None;
    }

    /** `handleCreateFile`: exactly one file is appended after the old ones,
        it becomes active, and the dialog closes. */
    method CreateFile(data: FileData, now: nat)
      modifies this
      ensures files == old(files) + [NewFile(data, now)]
      ensures activeFileId == Some(NewFile(data, now).id) && dialogMode == None
      ensures leads == old(leads) && isRefreshing == old(isRefreshing)
      ensures ActiveResolves()
    {
      var file := NewFile(data, now);
      files := files + [file];
      activeFileId := Some(file.id);
      dialogMode := None;
      assert files[|files| - 1] == file;
    }

    /** `handleUpdateFile`: with no active id (null or "") nothing changes;
        otherwise the files with the active id are rewritten in place, keeping
        id and creation time, and the dialog closes. */
    method UpdateFile(data: FileData)
      modifies this
      ensures old(activeFileId).None? || old(activeFileId).value == "" ==>
        files == old(files) && dialogMode == old(dialogMode)
      ensures old(activeFileId).Some? && old(activeFileId).value != "" ==>
        files == UpdateWhere(old(files), old(activeFileId).value, data) && dialogMode == None
      ensures activeFileId == old(activeFileId) && leads == old(leads) && isRefreshing == old(isRefreshing)
      ensures old(ActiveResolves()) ==> ActiveResolves()
    {
      if activeFileId.None? || activeFileId.value == "" {
        return;
      }
      ghost var before := files;
      files := UpdateWhere(files, activeFileId.value, data);
      dialogMode := None;
      if Resolves(before, activeFileId) {
        var i :| 0 <= i < |before| && before[i].id == activeFileId.value;
        assert files[i].id == activeFileId.value;
      }
    }

    /** The dialog's `onSubmit`: `handleCreateFile` in create mode,
        `handleUpdateFile` in edit mode; with no dialog open there is no
        form to submit, and nothing changes. */
    method SubmitDialog(data: FileData, now: nat)
      modifies this
      ensures old(dialogMode) == Some(Create) ==>
        && files == old(files) + [NewFile(data, now)]
        && activeFileId == Some(NewFile(data, now).id) && dialogMode == None
      ensures old(dialogMode) == Some(Edit) && old(activeFileId).Some? && old(activeFileId).value != "" ==>
        && files == UpdateWhere(old(files), old(activeFileId).value, data)
        && activeFileId == old(activeFileId) && dialogMode == None
      ensures old(dialogMode) == Some(Edit) && (old(activeFileId).None? || old(activeFileId).value == "") ==>
        files == old(files) && activeFileId == old(activeFileId) && dialogMode == old(dialogMode)
      ensures old(dialogMode) == None ==>
        files == old(files) && activeFileId == old(activeFileId) && dialogMode == None
      ensures leads == old(leads) && isRefreshing == old(isRefreshing)
      ensures old(ActiveResolves()) ==> ActiveResolves()
    {
      match dialogMode
      case Some(Create) => CreateFile(data, now);
      case Some(Edit) => UpdateFile(data);
      case None =>
    }

    /** Submitting the collection form: when `handleSubmit` refuses, nothing
        changes; otherwise its parsed data goes to `onSubmit`, with the
        outcome of `SubmitDialog` for that data. */
    method SubmitForm(form: CreateFileDialog.Form, now: nat)
      modifies this
      ensures CreateFileDialog.HandleSubmit(form).None? ==>
        files == old(files) && activeFileId == old(activeFileId) && dialogMode == old(dialogMode)
      ensures CreateFileDialog.HandleSubmit(form).Some? && old(dialogMode) == Some(Create) ==>
        var data := CreateFileDialog.HandleSubmit(form).value;
        && files == old(files) + [NewFile(data, now)]
        && activeFileId == Some(NewFile(data, now).id) && dialogMode == None
      ensures (CreateFileDialog.HandleSubmit(form).Some? && old(dialogMode) == Some(Edit)
        && old(activeFileId).Some? && old(activeFileId).value != "") ==>
        var data := CreateFileDialog.HandleSubmit(form).value;
        && files == UpdateWhere(old(files), old(activeFileId).value, data)
        && activeFileId == old(activeFileId) && dialogMode == None
      ensures (CreateFileDialog.HandleSubmit(form).Some? && old(dialogMode) == Some(Edit)
        && (old(activeFileId).None? || old(activeFileId).value == "")) ==>
        files == old(files) && activeFileId == old(activeFileId) && dialogMode == old(dialogMode)
      ensures old(dialogMode) == None ==>
        files == old(files) && activeFileId == old(activeFileId) && dialogMode == None
      ensures leads == old(leads) && isRefreshing == old(isRefreshing)
      ensures old(ActiveResolves()) ==> ActiveResolves()
    {
      var data := CreateFileDialog.HandleSubmit(form);
      if data.Some? {
        SubmitDialog(data.value, now);
      }
    }

    /** The synchronous start of `handleRefreshLeads`: with no active file
        nothing happens; otherwise scanning starts for that file. */
    method BeginRefresh() returns (target: Option<KeywordFile>)
      modifies this
      ensures target == old(ActiveFile())
      ensures isRefreshing == (target.Some? || old(isRefreshing))
      ensures files == old(files) && activeFileId == old(activeFileId)
      ensures leads == old(leads) && dialogMode == old(dialogMode)
      ensures target.Some? ==> Screen().Workspace? && Screen().pane.Skeletons?
    {
      target := ActiveFile();
      if target.Some? {
        isRefreshing := true;
      }
    }

    /** The end of `handleRefreshLeads`: when the call resolves, the leads
        are replaced by the scan's; when it rejects, the `catch` keeps the
        old leads. Either way the `finally` ends scanning. */
    method FinishRefresh(target: KeywordFile, settled: Settlement, now: nat)
      modifies this
      ensures settled.Resolved? ==> leads == GeminiService.FindLeads(target, settled.outcome, now).leads
      ensures settled.Rejected? ==> leads == old(leads)
      ensures !isRefreshing
      ensures files == old(files) && activeFileId == old(activeFileId) && dialogMode == old(dialogMode)
      ensures Screen().Workspace? ==> !Screen().pane.Skeletons?
    {
      if settled.Resolved? {
        leads := GeminiService.FindLeads(target, settled.outcome, now).leads;
      }
      isRefreshing := false;
    }

    /** `handleRefreshLeads` run to completion: with no active file nothing
        changes; otherwise the leads become the active file's scan result, or
        stay as they were when the call rejects, and `isRefreshing` ends
        false. */
    method RefreshLeads(settled: Settlement, now: nat)
      modifies this
      ensures old(ActiveFile()).None? ==> leads == old(leads) && isRefreshing == old(isRefreshing)
      ensures old(ActiveFile()).Some? && settled.Resolved? ==>
        leads == GeminiService.FindLeads(old(ActiveFile()).value, settled.outcome, now).leads
      ensures old(ActiveFile()).Some? && settled.Rejected? ==> leads == old(leads)
      ensures old(ActiveFile()).Some? ==> !isRefreshing
      ensures files == old(files) && activeFileId == old(activeFileId) && dialogMode == old(dialogMode)
    {
      var target := BeginRefresh();
      if target.Some? {
        FinishRefresh(target.value, settled, now);
      }
    }

    /** `handleDeleteFile`: every file with that id goes and the rest keep
        their order; if it was the active id, the first remaining file
        becomes active, or none when none remain. */
    method DeleteFile(id: string)
      modifies this
      ensures files == RemoveId(old(files), id)
      ensures activeFileId == ActiveAfterDelete(old(activeFileId), files, id)
      ensures leads == old(leads) && dialogMode == old(dialogMode) && isRefreshing == old(isRefreshing)
      ensures old(ActiveResolves()) ==> ActiveResolves()
    {
      if Resolves(files, activeFileId) {
        DeleteKeepsResolved(files, activeFileId, id);
      }
      var newFiles := RemoveId(files, id);
      files := newFiles;
      if activeFileId == Some(id) {
        activeFileId := if |newFiles| > 0 then Some(newFiles[0].id) else None;
      }
    }
  }
}
