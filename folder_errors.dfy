/**
 * The in-memory log of folders whose creation failed (`FolderError` and
 * `FolderErrorProcessor`). An entry is identified by its title, folder type and parent;
 * recording a failure for a folder already in the log refreshes that entry instead of
 * adding a second one. Loading and saving the JSON file are not modelled.
 */
module FolderErrors {
  import opened Wrappers

  /** One failed folder. `timestamp` is the clock reading the caller supplies. */
  datatype FolderError = FolderError(
    title: string,
    folderType: string,
    parentId: int,
    hierarchy: seq<string>,
    errorMessage: string,
    timestamp: string,
    retryCount: int)

  /** A freshly recorded failure: its retry count starts at zero. */
  function NewError(title: string, folderType: string, parentId: int, hierarchy: seq<string>,
                    errorMessage: string, timestamp: string): (e: FolderError)
    ensures e.retryCount == 0
  {
    FolderError(title, folderType, parentId, hierarchy, errorMessage, timestamp, 0)
  }

  /** Two entries are about the same folder. */
  predicate SameFolder(a: FolderError, b: FolderError)
  {
    a.title == b.title && a.folderType == b.folderType && a.parentId == b.parentId
  }

  /** The index of the first entry about the same folder as `e`, if any. */
  function FindEntry(errors: seq<FolderError>, e: FolderError): (r: Option<nat>)
    ensures r.Some? ==> r.value < |errors| && SameFolder(errors[r.value], e)
    ensures r.Some? ==> forall j :: 0 <= j < r.value ==> !SameFolder(errors[j], e)
    ensures r.None? ==> forall j :: 0 <= j < |errors| ==> !SameFolder(errors[j], e)
  {
    if errors == [] then None
    else if SameFolder(errors[0], e) then Some(0)
    else
      var r := FindEntry(errors[1..], e);
      if r.Some? then Some(r.value + 1) else None
  }

  /** `existing` with the message, timestamp and hierarchy of the newer report `e`. */
  function Refreshed(existing: FolderError, e: FolderError): FolderError
  {
    existing.(errorMessage := e.errorMessage, timestamp := e.timestamp, hierarchy := e.hierarchy)
  }

  /** The log after `add_error(e)`. */
  function AddedError(errors: seq<FolderError>, e: FolderError): seq<FolderError>
  {
    var k := FindEntry(errors, e);
    if k.Some? then errors[k.value := Refreshed(errors[k.value], e)] else errors + [e]
  }

  /** No two entries of the log are about the same folder. */
  predicate Distinct(errors: seq<FolderError>)
  {
    forall i, j :: 0 <= i < j < |errors| ==> !SameFolder(errors[i], errors[j])
  }

  /**
   * An earlier report about the same folder is refreshed in place: the log keeps its
   * length and its order, and the entry keeps its retry count; nothing else changes.
   */
  lemma AddErrorRefreshes(errors: seq<FolderError>, e: FolderError, k: nat)
    requires k < |errors| && SameFolder(errors[k], e)
    requires forall j :: 0 <= j < k ==> !SameFolder(errors[j], e)
    ensures |AddedError(errors, e)| == |errors|
    ensures AddedError(errors, e)[k].retryCount == errors[k].retryCount
    ensures AddedError(errors, e)[k].errorMessage == e.errorMessage
    ensures AddedError(errors, e)[k].timestamp == e.timestamp
    ensures AddedError(errors, e)[k].hierarchy == e.hierarchy
    ensures SameFolder(AddedError(errors, e)[k], e)
    ensures forall j :: 0 <= j < |errors| && j != k ==> AddedError(errors, e)[j] == errors[j]
  {
    var r := FindEntry(errors, e);
    assert r.Some? && r.value == k;
  }

  /** A report about a folder not in the log is appended: the log grows by exactly one. */
  lemma AddErrorAppends(errors: seq<FolderError>, e: FolderError)
    requires forall j :: 0 <= j < |errors| ==> !SameFolder(errors[j], e)
    ensures AddedError(errors, e) == errors + [e]
    ensures |AddedError(errors, e)| == |errors| + 1
  {
    var r := FindEntry(errors, e);
    assert r.None?;
  }

  /** Recording a failure keeps the log free of duplicates. */
  lemma AddErrorKeepsDistinct(errors: seq<FolderError>, e: FolderError)
    requires Distinct(errors)
    ensures Distinct(AddedError(errors, e))
  {
    var r := AddedError(errors, e);
    var k := FindEntry(errors, e);
    if k.Some? {
      forall i, j | 0 <= i < j < |r|
        ensures !SameFolder(r[i], r[j])
      {
        assert SameFolder(r[i], errors[i]) && SameFolder(r[j], errors[j]);
      }
    } else {
      forall i, j | 0 <= i < j < |r|
        ensures !SameFolder(r[i], r[j])
      {
        if j == |errors| {
          assert r[j] == e;
        }
      }
    }
  }

  /** After recording `e`, the log holds an entry about its folder carrying its message. */
  lemma AddErrorRecords(errors: seq<FolderError>, e: FolderError)
    ensures exists j :: (0 <= j < |AddedError(errors, e)| &&
      SameFolder(AddedError(errors, e)[j], e) && AddedError(errors, e)[j].errorMessage == e.errorMessage)
  {
    var k := FindEntry(errors, e);
    var r := AddedError(errors, e);
    if k.Some? {
      assert SameFolder(r[k.value], e) && r[k.value].errorMessage == e.errorMessage;
    } else {
      assert r[|errors|] == e;
    }
  }

  /** `FolderErrorProcessor`: the list of failed folders, changed in place. */
  class FolderErrorProcessor {
    var errors: seq<FolderError>

    /** A new processor starts with an empty log (the error file is not read). */
    constructor ()
      ensures errors == []
    {
      errors := [];
    }

    /** `add_error`: find the first entry about the same folder; refresh it or append. */
    method AddError(e: FolderError)
      modifies this
      ensures errors == AddedError(old(errors), e)
    {
      var i := 0;
      while i < |errors|
        invariant 0 <= i <= |errors|
        invariant forall j :: 0 <= j < i ==> !SameFolder(errors[j], e)
      {
        if SameFolder(errors[i], e) {
          errors := errors[i := Refreshed(errors[i], e)];
          return;
        }
        i := i + 1;
      }
      AddErrorAppends(errors, e);
      errors := errors + [e];
    }

    /** `get_failed_folders`: the current log. */
    method GetFailedFolders() returns (r: seq<FolderError>)
      ensures r == errors
    {
      r := errors;
    }

    /** `clear_errors`: empty the log. */
    method ClearErrors()
      modifies this
      ensures errors == []
    {
      errors := [];
    }
  }
}
