/** `CreateAgent.query_inference`: the ordered message list handed to the
    agent, built from the query, the prompt style and optional file paths. */
module AgentInference {
  import opened Wrappers
  import opened Strings
  import opened SystemPrompt

  datatype Message = SystemMessage(content: string) | HumanMessage(content: string)

  /** The keyword arguments after `system_prompt_type`; `None` is an argument
      left at its default. */
  datatype PathArgs = PathArgs(
    imagePath: Option<string>,
    audioPath: Option<string>,
    pdfPath: Option<string>,
    csvPath: Option<string>,
    xlsxPath: Option<string>,
    tableName: Option<string>,
    filename: Option<string>)

  const NoPaths := PathArgs(None, None, None, None, None, None, None)

  /** Python truthiness of an optional string: present and non-empty. */
  predicate Truthy(v: Option<string>) {
    v.Some? && v.value != ""
  }

  /** How an f-string renders an optional string: `None` prints as "None". */
  function Render(v: Option<string>): string {
    match v
    case Some(s) => s
    case None => "None"
  }

  /** The one-message list for an argument that is truthy, else nothing. */
  function When(v: Option<string>, m: Message): (r: seq<Message>)
    ensures |r| == (if Truthy(v) then 1 else 0)
  {
    if Truthy(v) then [m] else []
  }

  /** `f"{prefix}{path}"`. */
  function PathInfo(prefix: string, path: Option<string>): string {
    prefix + Render(path)
  }

  /** `f"{prefix}{path} and Table Name: {table_name}"`. */
  function TableInfo(prefix: string, path: Option<string>, tableName: Option<string>): string {
    prefix + Render(path) + " and Table Name: " + Render(tableName)
  }

  function PdfInfo(args: PathArgs): string {
    "PDF Path: " + Render(args.pdfPath) +
      (if Truthy(args.filename) then " and filename: " + Render(args.filename) else "")
  }

  /** The human messages describing the attachments, in the fixed order
      image, audio, pdf, csv, xlsx, one for each truthy path. */
  function AttachmentMessages(args: PathArgs): seq<Message> {
    When(args.imagePath, HumanMessage(PathInfo("Image Path: ", args.imagePath)))
      + When(args.audioPath, HumanMessage(PathInfo("Audio Path: ", args.audioPath)))
      + When(args.pdfPath, HumanMessage(PdfInfo(args)))
      + When(args.csvPath, HumanMessage(TableInfo("CSV Path: ", args.csvPath, args.tableName)))
      + When(args.xlsxPath, HumanMessage(TableInfo("Excel Path: ", args.xlsxPath, args.tableName)))
  }

  function Count(b: bool): nat {
    if b then 1 else 0
  }

  function TruthyPaths(args: PathArgs): nat {
    Count(Truthy(args.imagePath)) + Count(Truthy(args.audioPath)) + Count(Truthy(args.pdfPath))
      + Count(Truthy(args.csvPath)) + Count(Truthy(args.xlsxPath))
  }

  lemma Regroup(a: seq<Message>, b: seq<Message>, c: seq<Message>)
    ensures a + b + c == a + (b + c)
  {
  }

  /** `if v: messages.append(m)`. */
  method AppendIfTruthy(messages: seq<Message>, v: Option<string>, m: Message) returns (r: seq<Message>)
    ensures r == messages + When(v, m)
  {
    r := messages;
    if Truthy(v) {
      r := r + [m];
    }
  }

  /** `query_inference(query, system_prompt_type, **args)` up to the call of
      `agent.invoke`: the messages that call receives. */
  method QueryInference(query: string, systemPromptType: string, args: PathArgs) returns (messages: seq<Message>)
    ensures |messages| >= 2
    ensures messages[0] == SystemMessage(GetPrompt(Lower(systemPromptType)))
    ensures messages[|messages| - 1] == HumanMessage(query)
    ensures messages[1..|messages| - 1] == AttachmentMessages(args)
  {
    var systemPrompt := GetPrompt(Lower(systemPromptType));
    messages := [SystemMessage(systemPrompt)];
    var image := HumanMessage(PathInfo("Image Path: ", args.imagePath));
    messages := AppendIfTruthy(messages, args.imagePath, image);
    ghost var attached := When(args.imagePath, image);
    var audio := HumanMessage(PathInfo("Audio Path: ", args.audioPath));
    messages := AppendIfTruthy(messages, args.audioPath, audio);
    Regroup([SystemMessage(systemPrompt)], attached, When(args.audioPath, audio));
    attached := attached + When(args.audioPath, audio);
    var fileInfo := "PDF Path: " + Render(args.pdfPath);
    if Truthy(args.filename) {
      fileInfo := fileInfo + " and filename: " + args.filename.value;
    }
    assert fileInfo == PdfInfo(args);
    messages := AppendIfTruthy(messages, args.pdfPath, HumanMessage(fileInfo));
    Regroup([SystemMessage(systemPrompt)], attached, When(args.pdfPath, HumanMessage(fileInfo)));
    attached := attached + When(args.pdfPath, HumanMessage(fileInfo));
    var csv := HumanMessage(TableInfo("CSV Path: ", args.csvPath, args.tableName));
    messages := AppendIfTruthy(messages, args.csvPath, csv);
    Regroup([SystemMessage(systemPrompt)], attached, When(args.csvPath, csv));
    attached := attached + When(args.csvPath, csv);
    var xlsx := HumanMessage(TableInfo("Excel Path: ", args.xlsxPath, args.tableName));
    messages := AppendIfTruthy(messages, args.xlsxPath, xlsx);
    Regroup([SystemMessage(systemPrompt)], attached, When(args.xlsxPath, xlsx));
    attached := attached + When(args.xlsxPath, xlsx);
    assert attached == AttachmentMessages(args);
    AttachmentShape(args);
    messages := messages + [HumanMessage(query)];
  }

  /** Every message between the system prompt and the query is a human
      message, and there is one per truthy path. */
  lemma AttachmentShape(args: PathArgs)
    ensures |AttachmentMessages(args)| == TruthyPaths(args)
    ensures forall k :: 0 <= k < |AttachmentMessages(args)| ==> AttachmentMessages(args)[k].HumanMessage?
  {
  }

  /** The list sent is two messages longer than the number of truthy paths. */
  lemma MessageCount(messages: seq<Message>, args: PathArgs)
    requires |messages| >= 2 && messages[1..|messages| - 1] == AttachmentMessages(args)
    ensures |messages| == 2 + TruthyPaths(args)
  {
    AttachmentShape(args);
  }

  /** With no path at all, only the system prompt and the query are sent. */
  lemma NoAttachments()
    ensures AttachmentMessages(NoPaths) == []
  {
  }

  /** An image path alone is announced as exactly `Image Path: <path>`. */
  lemma ImageOnly(path: string)
    requires path != ""
    ensures AttachmentMessages(NoPaths.(imagePath := Some(path))) == [HumanMessage("Image Path: " + path)]
  {
  }

  /** An audio path alone is announced as exactly `Audio Path: <path>`. */
  lemma AudioOnly(path: string)
    requires path != ""
    ensures AttachmentMessages(NoPaths.(audioPath := Some(path))) == [HumanMessage("Audio Path: " + path)]
  {
  }

  /** The PDF message names the file only when a filename is given. */
  lemma PdfFilename(args: PathArgs)
    ensures Truthy(args.filename) ==> PdfInfo(args) == "PDF Path: " + Render(args.pdfPath) + " and filename: " + args.filename.value
    ensures !Truthy(args.filename) ==> PdfInfo(args) == "PDF Path: " + Render(args.pdfPath)
  {
    if !Truthy(args.filename) {
      assert PdfInfo(args) == "PDF Path: " + Render(args.pdfPath) + "";
    }
  }

  /** Tabular paths always carry the table name, printed as `None` when it
      was not given. */
  lemma CsvWithoutTableName(path: string)
    requires path != ""
    ensures AttachmentMessages(NoPaths.(csvPath := Some(path)))
      == [HumanMessage("CSV Path: " + path + " and Table Name: None")]
  {
    assert "CSV Path: " + path + " and Table Name: " + "None" == "CSV Path: " + path + " and Table Name: None";
  }

  /** The attachments are listed image, audio, pdf, csv, xlsx whatever order
      the arguments were given in. */
  lemma AllAttachmentsInOrder(args: PathArgs)
    requires Truthy(args.imagePath) && Truthy(args.audioPath) && Truthy(args.pdfPath)
    requires Truthy(args.csvPath) && Truthy(args.xlsxPath)
    ensures AttachmentMessages(args) == [
      HumanMessage(PathInfo("Image Path: ", args.imagePath)),
      HumanMessage(PathInfo("Audio Path: ", args.audioPath)),
      HumanMessage(PdfInfo(args)),
      HumanMessage(TableInfo("CSV Path: ", args.csvPath, args.tableName)),
      HumanMessage(TableInfo("Excel Path: ", args.xlsxPath, args.tableName))]
  {
  }

  /** The `Technical` style of the chat front end lowercases to a key the
      table lacks, so it gets the default prompt. */
  lemma TechnicalStyleIsDefault(style: string)
    requires style == "Technical"
    ensures GetPrompt(Lower(style)) == DefaultPrompt
  {
    assert Lower(style)[0] == 't';
    DefaultExactlyWhenNotOther(Lower(style));
  }

  /** The other two styles of that front end select the friendly and the
      default prompt. */
  lemma NamedStyles(friendly: string, default: string)
    requires friendly == "Friendly" && default == "Default"
    ensures GetPrompt(Lower(friendly)) == FriendlyPrompt
    ensures GetPrompt(Lower(default)) == DefaultPrompt
  {
    assert Lower(friendly) == "friendly";
    assert Lower(default) == "default";
  }
}
