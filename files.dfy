/** File attachments: an upload stores a document and appends its id to the
    task's attachment list, a delete removes the id again; the stored file
    name keeps the original name's extension. */
module Files {
  import opened Domain

  /** An uploaded multipart file as the service sees it: the client's file
      name (may be null), the content type and the size in bytes. */
  datatype Upload = Upload(originalFilename: Option<string>, contentType: Option<string>, size: nat)

  /** The stored metadata of an uploaded file; `task` refers to the task it
      is attached to. */
  datatype FileDocument = FileDocument(
    id: Id,
    fileName: Option<string>,
    contentType: Option<string>,
    size: nat,
    filePath: string,
    uploadedBy: User,
    task: Option<Id>,
    uploadedAt: Time)

  /** The position of the last occurrence of `c` in `s`. */
  function LastIndexOf(s: string, c: char): (r: Option<nat>)
    ensures r.None? <==> c !in s
    ensures r.Some? ==> r.value < |s| && s[r.value] == c
    ensures r.Some? ==> forall k :: r.value < k < |s| ==> s[k] != c
  {
    if s == [] then None
    else if s[|s| - 1] == c then Some(|s| - 1)
    else LastIndexOf(s[..|s| - 1], c)
  }

  /** The extension of a file name: from its last '.' (included) to the end,
      or empty when the name is null or has no '.'. */
  function Extension(name: Option<string>): (e: string)
    ensures name.None? || '.' !in name.value ==> e == ""
    ensures name.Some? && '.' in name.value ==>
      && 1 <= |e| <= |name.value|
      && name.value[|name.value| - |e|..] == e
      && e[0] == '.' && '.' !in e[1..]
  {
    if name.Some? && '.' in name.value then
      var i := LastIndexOf(name.value, '.').value;
      name.value[i..]
    else ""
  }

  /** The extension is the only suffix of a dotted name that starts with '.'
      and contains no further '.'. */
  lemma ExtensionUnique(name: string, suffix: string)
    requires |suffix| <= |name| && name[|name| - |suffix|..] == suffix
    requires |suffix| > 0 && suffix[0] == '.' && '.' !in suffix[1..]
    ensures Extension(Some(name)) == suffix
  {
    var e := Extension(Some(name));
    assert name[|name| - |suffix|] == '.';
  }

  /** The name a file is stored under: a fresh random id followed by the
      extension of the original name. */
  function StoredName(uuid: string, originalFilename: Option<string>): (s: string)
    ensures |s| >= |uuid| && s[..|uuid|] == uuid
    ensures s[|uuid|..] == Extension(originalFilename)
  {
    uuid + Extension(originalFilename)
  }

  /** List.remove(Object): drops the first occurrence of `x`, if any. */
  function RemoveFirst(s: seq<Id>, x: Id): (r: seq<Id>)
    ensures x !in s ==> r == s
    ensures x in s ==> |r| == |s| - 1
  {
    if s == [] then []
    else if s[0] == x then s[1..]
    else [s[0]] + RemoveFirst(s[1..], x)
  }

  /** Removal takes away one copy of the id and leaves every other id's
      count as it was. */
  lemma {:induction false} RemoveFirstCounts(s: seq<Id>, x: Id)
    ensures multiset(RemoveFirst(s, x)) == multiset(s) - multiset{x}
  {
    if s != [] {
      assert s == [s[0]] + s[1..];
      if s[0] != x {
        RemoveFirstCounts(s[1..], x);
      }
    }
  }

  /** Removing the first occurrence keeps everything before it and shifts
      everything after it by one. */
  lemma {:induction false} RemoveFirstAt(s: seq<Id>, x: Id, i: nat)
    requires i < |s| && s[i] == x
    requires forall k :: 0 <= k < i ==> s[k] != x
    ensures RemoveFirst(s, x) == s[..i] + s[i + 1..]
  {
    if i == 0 {
      assert s[..i] + s[i + 1..] == s[1..];
    } else {
      var t := s[1..];
      assert s[0] != x;
      assert RemoveFirst(s, x) == [s[0]] + RemoveFirst(t, x);
      RemoveFirstAt(t, x, i - 1);
      assert t[..i - 1] == s[1..i];
      assert t[i..] == s[i + 1..];
      assert [s[0]] + s[1..i] == s[..i];
    }
  }

  /** Deleting an uploaded document takes the attachment list back to what
      it was before the upload, provided the id was not already listed. */
  lemma {:induction false} RemoveFirstUndoesAppend(s: seq<Id>, x: Id)
    requires x !in s
    ensures RemoveFirst(s + [x], x) == s
  {
    RemoveFirstAt(s + [x], x, |s|);
    assert (s + [x])[..|s|] == s;
  }

  /** Every stored document sits under its own id. */
  ghost predicate Keyed(docs: map<Id, FileDocument>)
  {
    forall id :: id in docs ==> docs[id].id == id
  }

  /** The task list after changing the attachments of the task at `i`. */
  function WithAttachments(tasks: seq<Task>, i: nat, attachments: seq<Id>): (r: seq<Task>)
    requires i < |tasks|
    ensures |r| == |tasks| && r[i].attachments == attachments
    ensures r[i] == tasks[i].(attachments := attachments)
    ensures forall k :: 0 <= k < |tasks| && k != i ==> r[k] == tasks[k]
  {
    tasks[i := tasks[i].(attachments := attachments)]
  }

  class FileStorageService {
    /** The task collection; only attachment lists are changed here. */
    var tasks: seq<Task>
    /** The file-document collection, by id. */
    var docs: map<Id, FileDocument>

    ghost predicate Valid()
      reads this
    {
      WellKeyed(tasks) && Keyed(docs)
    }

    constructor (tasks: seq<Task>)
      requires WellKeyed(tasks)
      ensures Valid()
      ensures this.tasks == tasks && docs == map[]
    {
      this.tasks := tasks;
      this.docs := map[];
    }

    /** uploadFile by `actor` into directory `uploadDir`. The environment is
        given: `resolve` joins a directory and a file name, `docId` is the id
        the store gives the new document, `uuid` the random name, `diskError`
        the message of a failed disk write and `now` the clock reading. */
    method UploadFile(file: Upload, taskId: Id, actor: User, uploadDir: string,
                      resolve: (string, string) -> string, docId: Id, uuid: string,
                      diskError: Option<string>, now: Time)
      returns (r: Result<FileDocument>)
      requires Valid()
      requires docId !in docs
      modifies this
      ensures Valid()
      // The checks run in this order, and a rejection changes nothing.
      ensures file.size == 0 ==>
        r == Err(BadRequest("File is empty")) && tasks == old(tasks) && docs == old(docs)
      ensures file.size > 0 && TaskIndex(old(tasks), taskId).None? ==>
        r == Err(BadRequest("Task not found")) && tasks == old(tasks) && docs == old(docs)
      ensures file.size > 0 && TaskIndex(old(tasks), taskId).Some? && diskError.Some? ==>
        r == Err(BadRequest("Failed to upload file: " + diskError.value)) && tasks == old(tasks) && docs == old(docs)
      ensures r.Ok? <==> file.size > 0 && TaskIndex(old(tasks), taskId).Some? && diskError.None?
      // Success: the document is stored, and its id goes to the end of the
      // task's attachment list.
      ensures r.Ok? ==>
        var i := TaskIndex(old(tasks), taskId).value;
        && r.value == FileDocument(docId, file.originalFilename, file.contentType, file.size,
                                   resolve(uploadDir, StoredName(uuid, file.originalFilename)),
                                   actor, Some(taskId), now)
        && docs == old(docs)[docId := r.value]
        && tasks == WithAttachments(old(tasks), i, old(tasks)[i].attachments + [docId])
    {
      if file.size == 0 {
        return Err(BadRequest("File is empty"));
      }
      var i := TaskIndex(tasks, taskId);
      if i.None? {
        return Err(BadRequest("Task not found"));
      }
      var task := tasks[i.value];
      if diskError.Some? {
        return Err(BadRequest("Failed to upload file: " + diskError.value));
      }
      var uniqueFilename := uuid + Extension(file.originalFilename);
      var document := FileDocument(docId, file.originalFilename, file.contentType, file.size,
                                   resolve(uploadDir, uniqueFilename), actor, Some(taskId), now);
      docs := docs[docId := document];
      task := task.(attachments := task.attachments + [docId]);
      tasks := tasks[i.value := task];
      r := Ok(document);
    }

    /** deleteFile; `diskError` is the message of a failed disk delete. */
    method DeleteFile(id: Id, diskError: Option<string>) returns (r: Outcome)
      requires Valid()
      modifies this
      ensures Valid()
      ensures id !in old(docs) ==>
        r == Fail(BadRequest("File not found")) && tasks == old(tasks) && docs == old(docs)
      ensures id in old(docs) && diskError.Some? ==>
        r == Fail(BadRequest("Failed to delete file: " + diskError.value)) && tasks == old(tasks) && docs == old(docs)
      ensures r.Pass? <==> id in old(docs) && diskError.None?
      // Success: the id leaves the attachment list of the document's task,
      // when that task still exists, and the document is deleted.
      ensures r.Pass? ==> docs == old(docs) - {id}
      ensures r.Pass? && old(docs)[id].task.Some? && TaskIndex(old(tasks), old(docs)[id].task.value).Some? ==>
        var i := TaskIndex(old(tasks), old(docs)[id].task.value).value;
        tasks == WithAttachments(old(tasks), i, RemoveFirst(old(tasks)[i].attachments, id))
      ensures r.Pass? && (old(docs)[id].task.None? || TaskIndex(old(tasks), old(docs)[id].task.value).None?) ==>
        tasks == old(tasks)
    {
      if id !in docs {
        return Fail(BadRequest("File not found"));
      }
      var document := docs[id];
      if diskError.Some? {
        return Fail(BadRequest("Failed to delete file: " + diskError.value));
      }
      if document.task.Some? {
        var i := TaskIndex(tasks, document.task.value);
        if i.Some? {
          var task := tasks[i.value];
          task := task.(attachments := RemoveFirst(task.attachments, id));
          ReplaceKeepsKeys(tasks, i.value, task);
          tasks := tasks[i.value := task];
        }
      }
      docs := docs - {id};
      r := Pass;
    }
  }
}
