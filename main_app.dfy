/** The `/conversation` endpoint of the HTTP front end: which inference call
    runs for a query and an optional upload, when the request is refused,
    what the answer echoes, and that the temporary copy never outlives the
    request. The agent's reply, or the exception it raises, is a parameter. */
module MainApp {
  import opened Wrappers
  import opened Paths
  import opened Attachments
  import opened TempFiles

  /** An uploaded file; only its name matters here. */
  datatype Upload = Upload(filename: string)

  datatype AttachmentInfo = AttachmentInfo(filename: string, kind: string)

  /** What the endpoint produces: a refusal with a status code, the JSON
      answer, or an exception escaping from the inference call. */
  datatype Response =
    | HttpError(status: nat, detail: string)
    | Answer(query: string, attachment: Option<AttachmentInfo>, response: string)
    | Raised(error: string)

  const QueryRequired := "Query is required"
  const Unsupported := "Unsupported attachment type"

  /** The answer built from the agent's reply, or the exception it raised. */
  function Outcome(reply: Result<string, string>, query: string, info: Option<AttachmentInfo>): Response {
    match reply
    case Success(text) => Answer(query, info, text)
    case Failure(e) => Raised(e)
  }

  /** The `try` block of `conversation` once the query is known to be
      present: it routes the request and reports the temporary copy it made,
      if any, for the `finally` block to remove. */
  method Route(fs: FileSystem, q: string, attachment: Option<Upload>,
               dir: string, base: string, reply: Result<string, string>)
      returns (call: Option<Call>, result: Response, tempPath: Option<string>)
    requires IsTempBase(base)
    requires attachment.Some? ==> TempPath(dir, base, attachment.value.filename) !in fs.files
    modifies fs
    ensures attachment.None? ==>
      call == Some(QueryCall(q)) && result == Outcome(reply, q, None)
      && tempPath.None? && fs.files == old(fs.files) && fs.log == old(fs.log)
    ensures attachment.Some? && DetectAttachmentType(attachment.value.filename) == Unknown ==>
      call.None? && result == HttpError(400, Unsupported)
      && tempPath.None? && fs.files == old(fs.files) && fs.log == old(fs.log)
    ensures attachment.Some? && DetectAttachmentType(attachment.value.filename) != Unknown ==>
      var name := attachment.value.filename;
      var t := DetectAttachmentType(name);
      var p := TempPath(dir, base, name);
      call == Some(CallFor(t, q, p, name))
      && result == Outcome(reply, q, Some(AttachmentInfo(name, t.Name())))
      && tempPath == Some(p) && fs.files == old(fs.files) + {p} && fs.log == old(fs.log) + [Created(p)]
  {
    tempPath := None;
    if attachment.None? {
      call := Some(QueryCall(q));
      result := Outcome(reply, q, None);
    } else {
      var name := attachment.value.filename;
      var attachmentType := DetectAttachmentType(name);
      if attachmentType == Unknown {
        call := None;
        result := HttpError(400, Unsupported);
      } else {
        var p := fs.SaveTemp(dir, base, name);
        tempPath := Some(p);
        call := Some(CallFor(attachmentType, q, p, name));
        result := Outcome(reply, q, Some(AttachmentInfo(name, attachmentType.Name())));
      }
    }
  }

  /** `conversation(query, attachment)`; `dir` and `base` are the directory
      and random name `tempfile` would pick for the copy. */
  method Conversation(fs: FileSystem, query: Option<string>, attachment: Option<Upload>,
                      dir: string, base: string, reply: Result<string, string>)
      returns (call: Option<Call>, result: Response)
    requires IsTempBase(base)
    requires attachment.Some? ==> TempPath(dir, base, attachment.value.filename) !in fs.files
    modifies fs
    ensures fs.files == old(fs.files)
    ensures query.None? || query.value == "" ==>
      call.None? && result == HttpError(400, QueryRequired) && fs.log == old(fs.log)
    ensures query.Some? && query.value != "" && attachment.None? ==>
      call == Some(QueryCall(query.value)) && result == Outcome(reply, query.value, None) && fs.log == old(fs.log)
    ensures query.Some? && query.value != "" && attachment.Some? && DetectAttachmentType(attachment.value.filename) == Unknown ==>
      call.None? && result == HttpError(400, Unsupported) && fs.log == old(fs.log)
    ensures query.Some? && query.value != "" && attachment.Some? && DetectAttachmentType(attachment.value.filename) != Unknown ==>
      var name := attachment.value.filename;
      var t := DetectAttachmentType(name);
      var p := TempPath(dir, base, name);
      call == Some(CallFor(t, query.value, p, name))
      && result == Outcome(reply, query.value, Some(AttachmentInfo(name, t.Name())))
      && fs.log == old(fs.log) + [Created(p), Removed(p)]
  {
    if query.None? || query.value == "" {
      return None, HttpError(400, QueryRequired);
    }
    // try
    ghost var files, log := fs.files, fs.log;
    var tempPath;
    call, result, tempPath := Route(fs, query.value, attachment, dir, base, reply);
    // finally
    if tempPath.Some? {
      CreateThenRemove(files, log, tempPath.value);
      fs.RemoveIfExists(tempPath.value);
    }
  }
}
