/** `process_input` of the chat front end: the chat history it extends, the
    `file_args` it fills from an optional upload, and the single
    `query_inference` call it makes. The agent's reply, or the exception it
    raises, is a parameter. */
module StreamlitApp {
  import opened Wrappers
  import opened Paths
  import opened Attachments
  import opened TempFiles
  import opened Strings
  import opened SystemPrompt
  import opened AgentInference

  datatype Role = User | Assistant

  datatype ChatEntry = ChatEntry(role: Role, content: string)

  /** The session state: `chat_history` and the selected `system_prompt_type`. */
  class ChatSession {
    var chatHistory: seq<ChatEntry>
    var systemPromptType: string

    constructor()
      ensures chatHistory == [] && systemPromptType == "Default"
    {
      chatHistory := [];
      systemPromptType := "Default";
    }

    /** The sidebar selection overwrites the style on every rerun. */
    method SelectStyle(style: string)
      modifies this
      ensures systemPromptType == style && chatHistory == old(chatHistory)
    {
      systemPromptType := style;
    }
  }

  /** An uploaded file; only its name matters here. */
  datatype UploadedFile = UploadedFile(name: string)

  /** The keys of `file_args`, each naming a keyword of `query_inference`. */
  datatype ArgKey = ImageKey | AudioKey | PdfKey | FilenameKey {
    function Keyword(): string {
      match this
      case ImageKey => "image_path"
      case AudioKey => "audio_path"
      case PdfKey => "pdf_path"
      case FilenameKey => "filename"
    }
  }

  const NoFileArgs: map<ArgKey, Option<string>> :=
    map[ImageKey := None, AudioKey := None, PdfKey := None, FilenameKey := None]

  /** `**file_args` as the keyword arguments of `query_inference`. */
  function ArgsOf(fileArgs: map<ArgKey, Option<string>>): PathArgs
    requires NoFileArgs.Keys <= fileArgs.Keys
  {
    PathArgs(fileArgs[ImageKey], fileArgs[AudioKey], fileArgs[PdfKey], None, None, None, fileArgs[FilenameKey])
  }

  /** What `file_args` holds once an upload of type `t`, saved at `p`, has
      been handled: the one path its type calls for, and for a PDF also the
      original name. */
  function FileArgsFor(t: AttachmentType, p: string, name: string): (r: map<ArgKey, Option<string>>)
    ensures r.Keys == NoFileArgs.Keys
  {
    match t
    case Unknown => NoFileArgs
    case Pdf => NoFileArgs[PdfKey := Some(p)][FilenameKey := Some(name)]
    case Image => NoFileArgs[ImageKey := Some(p)]
    case Audio => NoFileArgs[AudioKey := Some(p)]
  }

  /** The upload half of the `try` block of `process_input`: the copy saved
      under a fresh temporary name, classified by that name, and `file_args`
      filled for its type; an unknown type only shows an error. */
  method HandleUpload(fs: FileSystem, upload: Option<UploadedFile>, dir: string, base: string)
      returns (fileArgs: map<ArgKey, Option<string>>, tempPath: Option<string>, errorShown: bool)
    requires IsTempBase(base)
    requires upload.Some? ==> TempPath(dir, base, upload.value.name) !in fs.files
    modifies fs
    ensures fileArgs.Keys == NoFileArgs.Keys
    ensures upload.None? ==>
      fileArgs == NoFileArgs && tempPath.None? && !errorShown && fs.files == old(fs.files) && fs.log == old(fs.log)
    ensures upload.Some? ==>
      var p := TempPath(dir, base, upload.value.name);
      var t := DetectAttachmentType(upload.value.name);
      tempPath == Some(p) && fs.files == old(fs.files) + {p} && fs.log == old(fs.log) + [Created(p)]
      && errorShown == (t == Unknown) && fileArgs == FileArgsFor(t, p, upload.value.name)
  {
    fileArgs := NoFileArgs;
    tempPath := None;
    errorShown := false;
    if upload.Some? {
      var p := fs.SaveTemp(dir, base, upload.value.name);
      tempPath := Some(p);
      var attachmentType := DetectAttachmentType(p);
      TempCopySameType(dir, base, upload.value.name);
      fileArgs, errorShown := FillFileArgs(attachmentType, p, upload.value.name);
    }
  }

  /** The branch on the attachment type: the entries of `file_args` it sets,
      or the error it shows for an unknown type. */
  method FillFileArgs(attachmentType: AttachmentType, p: string, name: string)
      returns (fileArgs: map<ArgKey, Option<string>>, errorShown: bool)
    ensures fileArgs == FileArgsFor(attachmentType, p, name)
    ensures errorShown == (attachmentType == Unknown)
  {
    fileArgs := NoFileArgs;
    errorShown := false;
    if attachmentType == Unknown {
      errorShown := true;
    } else if attachmentType == Pdf {
      fileArgs := fileArgs[PdfKey := Some(p)];
      fileArgs := fileArgs[FilenameKey := Some(name)];
    } else if attachmentType == Image {
      fileArgs := fileArgs[ImageKey := Some(p)];
    } else if attachmentType == Audio {
      fileArgs := fileArgs[AudioKey := Some(p)];
    }
  }

  /** The `try`/`finally` of `process_input`: the upload handled, the one
      inference call with the session's style and `file_args`, and the
      temporary copy removed again. */
  method Attempt(fs: FileSystem, prompt: string, style: string, upload: Option<UploadedFile>, dir: string, base: string)
      returns (fileArgs: map<ArgKey, Option<string>>, messages: seq<Message>, errorShown: bool)
    requires IsTempBase(base)
    requires upload.Some? ==> TempPath(dir, base, upload.value.name) !in fs.files
    modifies fs
    ensures fileArgs.Keys == NoFileArgs.Keys
    ensures fs.files == old(fs.files)
    ensures upload.None? ==> fileArgs == NoFileArgs && !errorShown && fs.log == old(fs.log)
    ensures upload.Some? ==>
      var p := TempPath(dir, base, upload.value.name);
      var t := DetectAttachmentType(upload.value.name);
      fs.log == old(fs.log) + [Created(p), Removed(p)]
      && errorShown == (t == Unknown) && fileArgs == FileArgsFor(t, p, upload.value.name)
    ensures |messages| >= 2 && messages[0] == SystemMessage(GetPrompt(Lower(style)))
    ensures messages[1..|messages| - 1] == AttachmentMessages(ArgsOf(fileArgs))
    ensures messages[|messages| - 1] == HumanMessage(prompt)
  {
    // try
    ghost var files, log := fs.files, fs.log;
    var tempPath;
    fileArgs, tempPath, errorShown := HandleUpload(fs, upload, dir, base);
    messages := QueryInference(prompt, style, ArgsOf(fileArgs));
    // finally
    if tempPath.Some? {
      CreateThenRemove(files, log, tempPath.value);
      fs.RemoveIfExists(tempPath.value);
    }
  }

  /** `process_input(prompt, uploaded_file)`; `dir` and `base` are the
      directory and random name `tempfile` would pick for the copy. When the
      agent raises, `raised` holds the exception. */
  method ProcessInput(session: ChatSession, fs: FileSystem, prompt: string, upload: Option<UploadedFile>,
                      dir: string, base: string, reply: Result<string, string>)
      returns (fileArgs: map<ArgKey, Option<string>>, messages: seq<Message>, errorShown: bool, raised: Option<string>)
    requires IsTempBase(base)
    requires upload.Some? ==> TempPath(dir, base, upload.value.name) !in fs.files
    modifies session, fs
    ensures fileArgs.Keys == NoFileArgs.Keys
    ensures upload.None? ==> fileArgs == NoFileArgs && !errorShown && fs.log == old(fs.log)
    ensures upload.Some? ==>
      var p := TempPath(dir, base, upload.value.name);
      var t := DetectAttachmentType(upload.value.name);
      fs.log == old(fs.log) + [Created(p), Removed(p)]
      && errorShown == (t == Unknown)
      && fileArgs == FileArgsFor(t, p, upload.value.name)
    ensures fs.files == old(fs.files)
    ensures |messages| >= 2 && messages[0] == SystemMessage(GetPrompt(Lower(old(session.systemPromptType))))
    ensures messages[1..|messages| - 1] == AttachmentMessages(ArgsOf(fileArgs))
    ensures messages[|messages| - 1] == HumanMessage(prompt)
    ensures session.systemPromptType == old(session.systemPromptType)
    ensures reply.Success? ==>
      raised.None? && session.chatHistory == old(session.chatHistory) + [ChatEntry(User, prompt), ChatEntry(Assistant, reply.value)]
    ensures reply.Failure? ==>
      raised == Some(reply.error) && session.chatHistory == old(session.chatHistory) + [ChatEntry(User, prompt)]
  {
    session.chatHistory := session.chatHistory + [ChatEntry(User, prompt)];
    fileArgs, messages, errorShown := Attempt(fs, prompt, session.systemPromptType, upload, dir, base);
    match reply
    case Success(response) =>
      raised := None;
      session.chatHistory := session.chatHistory + [ChatEntry(Assistant, response)];
    case Failure(e) =>
      raised := Some(e);
  }

  /** Without an upload the agent is asked with the style's prompt and the
      prompt text alone. */
  lemma NoUploadNoAttachments()
    ensures AttachmentMessages(ArgsOf(NoFileArgs)) == []
  {
    assert ArgsOf(NoFileArgs) == NoPaths;
    NoAttachments();
  }

  /** A PDF upload is announced with its path and its original name. */
  lemma PdfUploadMessage(p: string, name: string)
    requires p != "" && name != ""
    ensures AttachmentMessages(ArgsOf(NoFileArgs[PdfKey := Some(p)][FilenameKey := Some(name)]))
      == [HumanMessage("PDF Path: " + p + " and filename: " + name)]
  {
    var args := ArgsOf(NoFileArgs[PdfKey := Some(p)][FilenameKey := Some(name)]);
    assert args == NoPaths.(pdfPath := Some(p), filename := Some(name));
    PdfFilename(args);
  }
}
