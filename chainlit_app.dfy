/** The two handlers of the chat-widget front end: a text message is sent to
    the agent unless it is blank, and an uploaded file is saved, classified,
    handed to the inference call its type selects and always removed again.
    The agent's reply, or the exception it raises, is a parameter. */
module ChainlitApp {
  import opened Wrappers
  import opened Strings
  import opened Paths
  import opened Attachments
  import opened TempFiles

  /** A message the handler sends back: markdown text, or a media element
      of the given type pointing at a file. */
  datatype Sent = Markdown(content: string) | Media(kind: string, path: string)

  const EmptyMessage := "\U{274C} Empty message"
  const UnsupportedType := "\U{274C} Unsupported attachment type"

  /** What a handler did: the inference call it made, the messages it sent
      and the exception that escaped it. */
  datatype Handled = Handled(call: Option<Call>, sent: seq<Sent>, raised: Option<string>)

  /** `handle_message(message)`: a message that is empty once stripped is
      refused; any other is passed to the agent verbatim and the reply sent
      back. */
  function HandleMessage(content: string, reply: Result<string, string>): (r: Handled)
    ensures r.call.None? <==> Strip(content) == ""
    ensures Strip(content) == "" ==> r.sent == [Markdown(EmptyMessage)] && r.raised.None?
    ensures Strip(content) != "" ==> r.call == Some(QueryCall(content))
    ensures Strip(content) != "" && reply.Success? ==> r.sent == [Markdown(reply.value)] && r.raised.None?
    ensures Strip(content) != "" && reply.Failure? ==> r.sent == [] && r.raised == Some(reply.error)
  {
    if Strip(content) == "" then Handled(None, [Markdown(EmptyMessage)], None)
    else match reply
      case Success(response) => Handled(Some(QueryCall(content)), [Markdown(response)], None)
      case Failure(e) => Handled(Some(QueryCall(content)), [], Some(e))
  }

  /** What follows the reply for a supported type: images and audio are also
      shown as media elements; a PDF is not. */
  function MediaFor(t: AttachmentType, path: string): (r: seq<Sent>)
    ensures |r| == (if t == Image || t == Audio then 1 else 0)
    ensures r != [] ==> r == [Media(t.Name(), path)]
  {
    if t == Image || t == Audio then [Media(t.Name(), path)] else []
  }

  /** The first two lines of `handle_file_upload`: `save_temp_file(file)`
      and the type of the copy, which is the type of the uploaded name. */
  method SaveAndClassify(fs: FileSystem, name: string, dir: string, base: string)
      returns (tempPath: string, attachmentType: AttachmentType)
    requires IsTempBase(base) && TempPath(dir, base, name) !in fs.files
    modifies fs
    ensures tempPath == TempPath(dir, base, name) && attachmentType == DetectAttachmentType(name)
    ensures fs.files == old(fs.files) + {tempPath} && fs.log == old(fs.log) + [Created(tempPath)]
  {
    tempPath := fs.SaveTemp(dir, base, name);
    attachmentType := DetectAttachmentType(tempPath);
    TempCopySameType(dir, base, name);
  }

  /** `handle_file_upload(file)`; `dir` and `base` are the directory and
      random name `tempfile` picks for the copy, which is classified by its
      own suffix and queried with an empty query. */
  method HandleFileUpload(fs: FileSystem, name: string, dir: string, base: string, reply: Result<string, string>)
      returns (r: Handled)
    requires IsTempBase(base) && TempPath(dir, base, name) !in fs.files
    modifies fs
    ensures var p := TempPath(dir, base, name);
      fs.files == old(fs.files) && fs.log == old(fs.log) + [Created(p), Removed(p)]
    ensures DetectAttachmentType(name) == Unknown ==>
      r == Handled(None, [Markdown(UnsupportedType)], None)
    ensures DetectAttachmentType(name) != Unknown ==>
      var t := DetectAttachmentType(name);
      var p := TempPath(dir, base, name);
      r.call == Some(CallFor(t, "", p, name))
      && (reply.Success? ==> r.raised.None? && r.sent == [Markdown(reply.value)] + MediaFor(t, p))
      && (reply.Failure? ==> r.raised == Some(reply.error) && r.sent == [])
  {
    ghost var files, log := fs.files, fs.log;
    var tempPath, attachmentType := SaveAndClassify(fs, name, dir, base);
    // try
    if attachmentType == Unknown {
      r := Handled(None, [Markdown(UnsupportedType)], None);
    } else {
      var call := CallFor(attachmentType, "", tempPath, name);
      match reply
      case Success(response) =>
        r := Handled(Some(call), [Markdown(response)] + MediaFor(attachmentType, tempPath), None);
      case Failure(e) =>
        r := Handled(Some(call), [], Some(e));
    }
    // finally
    CreateThenRemove(files, log, tempPath);
    fs.RemoveIfExists(tempPath);
  }

  /** Whitespace-only messages are refused like the empty one. */
  lemma BlankMessageRefused(content: string, reply: Result<string, string>)
    requires AllSpace(content)
    ensures HandleMessage(content, reply) == Handled(None, [Markdown(EmptyMessage)], None)
  {
  }

  /** A message with surrounding blanks reaches the agent unstripped. */
  lemma PaddedMessageVerbatim(content: string, reply: Result<string, string>)
    requires content == " hi "
    ensures HandleMessage(content, reply).call == Some(QueryCall(" hi "))
  {
    assert content[1] == 'h';
  }

  /** A PDF upload sends the reply alone, an image upload the reply and then
      the image itself. */
  lemma UploadReplies(p: string, response: string)
    ensures [Markdown(response)] + MediaFor(Pdf, p) == [Markdown(response)]
    ensures [Markdown(response)] + MediaFor(Image, p) == [Markdown(response), Media("image", p)]
    ensures [Markdown(response)] + MediaFor(Audio, p) == [Markdown(response), Media("audio", p)]
  {
  }
}
