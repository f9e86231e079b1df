/** The update handler: text commands, document ingestion and the two query
    pipelines, as step-by-step methods over the store. External step results
    (download, scripts, PYTHON, decompiler, backend, archive tools) come in as an
    `Env`; each pipeline's outcome is proved equal to the run of its check list. */
module Handler {
  import opened Text
  import opened Commands
  import opened Paths
  import opened SearchOutput
  import opened Pipeline
  import opened UserStore

  const KeyInvalid := "Open AI API key has invalid format. Try again"
  const KeyWasSet := "Open AI API key was set"
  const KeyWasReset := "Open AI API key was reset"
  const FileDeleted := "Current file was deleted"
  const ArchiveName := "db.zip"

  const UsageText :=
    "Usage:\n"
    + "/info        - request user info\n"
    + "/set_key     - set Open AI API key\n"
    + "/reset_key   - reset Open AI API key\n"
    + "/ask         - ask about something in a context of your file\n"
    + "/search_few  - command allows you to find a few (4) pieces of text that are similar to your prompt\n"
    + "/search_many - command enables you to search for many (8) pieces of text similar to your prompt\n"
    + "/usage       - how to use this bot\n"
    + "/formats     - list of supported formats\n"
    + "/help        - help and 'how-to' info\n"
    + "/reset_file  - reset file\n"
  const FormatsText := "Bot supports next file formats: *.txt, *.pdf, *.chm"
  const HelpText :=
    "*Basic bot usage*:\n1\\. Set OpenAI API key: `/set_key <key>`\n"
    + "2\\. Upload your file \\(drag&drop the file or select from the disk\\)\n"
    + "3\\. Ask your question: `/ask <question>`\n"
    + "4\\. Search something: `/search_few <query>`\n"
    + "5\\. Search in the wider context: `/search_many <query>`"

  /** An uploaded document: its file name and its MIME type, which may be missing. */
  datatype Document = Document(fileName: string, mime: Option<string>)

  /** The kinds of incoming message the handler distinguishes. */
  datatype Message =
    | TextMessage(text: Option<string>)
    | DocumentMessage(document: Option<Document>)
    | OtherMessage

  /** Some file of the storage is attributed to `u`. */
  ghost predicate HasFile(fs: seq<StoredFile>, u: int)
  {
    exists f :: f in fs && BelongsTo(f.id, u)
  }

  /** `dir` is the flat page directory made from `sources` into an empty directory:
      one entry per page name, holding the last page of that name. */
  ghost predicate PageDirectory(sources: seq<string>, dir: map<string, string>)
  {
    forall n :: (n in dir <==> LastCopiedAs(sources, n).Some?)
                && (n in dir ==> dir[n] == sources[LastCopiedAs(sources, n).value])
  }

  /** What a text message does: no reply for a message without text, otherwise the
      command's replies, the workspace's fate and the new users and files, given the
      users `users0` and files `files0` before it. */
  ghost predicate TextOutcome(release: bool, u: int, text: Option<string>, env: Env,
                              users0: map<int, BotUser>, files0: seq<StoredFile>,
                              users: map<int, BotUser>, files: seq<StoredFile>,
                              replies: seq<string>, workspace: Workspace)
  {
    if text.None? then
      replies == [] && workspace == NotCreated && users == users0 && files == files0
    else
      var hasFile := HasFile(files0, u);
      var key := StoredKey(users0, u);
      match ParseCommand(text.value)
      case Info =>
        && replies == [InfoText(key, files0, u)] && workspace == NotCreated
        && users == WithUser(users0, u) && files == files0
      case ResetKey =>
        && replies == [KeyWasReset] && workspace == NotCreated
        && users == users0[u := BotUser(u, "")] && files == files0
      case SetKey(k) =>
        && workspace == NotCreated && files == files0
        && (IsValidPattern(k) ==> replies == [KeyWasSet] && users == users0[u := BotUser(u, k)])
        && (!IsValidPattern(k) ==> replies == [KeyInvalid] && users == users0)
      case Ask(q) =>
        var exit := Run(AskChecks(hasFile, q, key, env), release, [env.stdout]);
        && replies == exit.replies && workspace == exit.workspace && files == files0
        && users == (if hasFile && !IsBlank(q) then WithUser(users0, u) else users0)
      case Search(q, name, _) =>
        var exit := Run(SearchChecks(hasFile, q, name, key, env), release, SearchReplies(env.passages));
        && replies == exit.replies && workspace == exit.workspace && files == files0
        && users == (if hasFile && !IsBlank(q) then WithUser(users0, u) else users0)
      case ResetFile =>
        && replies == [FileDeleted] && workspace == NotCreated
        && users == users0 && files == OtherFiles(files0, u)
      case Usage =>
        replies == [UsageText] && workspace == NotCreated && users == users0 && files == files0
      case Formats =>
        replies == [FormatsText] && workspace == NotCreated && users == users0 && files == files0
      case Help =>
        replies == [HelpText] && workspace == NotCreated && users == users0 && files == files0
  }

  class UpdateHandler {
    const store: Store
    /** The build configuration: a release build deletes workspaces, a debug build keeps them. */
    const release: bool

    constructor (store: Store, release: bool)
      ensures this.store == store && this.release == release
    {
      this.store := store;
      this.release := release;
    }

    /** `/set_key`: a key that does not match the pattern is refused and nothing
        changes; a matching one is stored for the sender exactly as given. */
    method SetUserKey(senderId: int, keyComponent: string) returns (replies: seq<string>)
      requires store.Valid()
      modifies store
      ensures store.Valid()
      ensures !IsValidPattern(keyComponent) ==>
                replies == [KeyInvalid] && store.users == old(store.users) && store.files == old(store.files)
      ensures IsValidPattern(keyComponent) ==>
                && replies == [KeyWasSet]
                && store.users == old(store.users)[ToInt32(senderId) := BotUser(ToInt32(senderId), keyComponent)]
                && store.files == old(store.files)
    {
      if !IsValidPattern(keyComponent) {
        return [KeyInvalid];
      }
      store.SetOpenAiKey(ToInt32(senderId), keyComponent);
      replies := [KeyWasSet];
    }

    /** `/reset_key`: the sender's key becomes "" (the record is created if missing). */
    method ResetUserKey(senderId: int) returns (replies: seq<string>)
      requires store.Valid()
      modifies store
      ensures store.Valid()
      ensures replies == [KeyWasReset]
      ensures store.users == old(store.users)[ToInt32(senderId) := BotUser(ToInt32(senderId), "")]
      ensures store.files == old(store.files)
    {
      store.ResetOpenAiKey(ToInt32(senderId));
      replies := [KeyWasReset];
    }

    /** `/info`: the summary of the sender's key and current file. */
    method GetUserInfo(senderId: int) returns (replies: seq<string>)
      requires store.Valid()
      modifies store
      ensures store.Valid()
      ensures replies == [InfoText(StoredKey(old(store.users), ToInt32(senderId)), old(store.files), ToInt32(senderId))]
      ensures store.users == WithUser(old(store.users), ToInt32(senderId)) && store.files == old(store.files)
    {
      var info := store.GetUserInfo(ToInt32(senderId));
      replies := [info];
    }

    /** `/reset_file`: every file attributed to the sender is deleted. */
    method ResetUserFile(senderId: int) returns (replies: seq<string>)
      requires store.Valid()
      modifies store
      ensures store.Valid()
      ensures replies == [FileDeleted]
      ensures store.users == old(store.users)
      ensures store.files == OtherFiles(old(store.files), ToInt32(senderId))
      ensures !HasFile(store.files, ToInt32(senderId))
    {
      var u := ToInt32(senderId);
      store.ResetFile(u);
      UserFilesMembers(store.files, u);
      replies := [FileDeleted];
    }

    /** The ingestion of one document of a known kind: download, script, PYTHON,
        (for a help file: decompile and flatten its pages), `db`, `db.zip`, then the
        store. `pages` is the flattened page directory when that step is reached. */
    method IngestDocument(u: int, kind: DocumentKind, fileName: string, env: Env)
      returns (exit: Exit, pages: Option<map<string, string>>)
      requires store.Valid()
      modifies store
      ensures store.Valid()
      ensures exit == Run(IngestChecks(kind, env), release, [FileWasSet])
      ensures exit.completed ==>
                && env.archive.Some?
                && store.files == AfterSetFile(old(store.files), u, FileName(fileName), ArchiveName, env.archive.value)
                && store.users == WithUser(old(store.users), u)
      ensures !exit.completed ==> store.files == old(store.files) && store.users == old(store.users)
      ensures pages.Some? <==>
                kind == Chm && env.downloaded && ScriptName(kind) in env.scripts && PythonSet(env) && env.decompiled.Some?
      ensures pages.Some? ==> PageDirectory(env.decompiled.value, pages.value)
    {
      IngestOutcome(kind, env, release);
      pages := None;
      if !env.downloaded {
        return Exit([SetFileError], Closed(release), false), pages;
      }
      if ScriptName(kind) !in env.scripts {
        return Exit([SetFileError], Closed(release), false), pages;
      }
      if IsNullOrBlank(env.python) {
        return Exit([SetFilePythonError], Kept, false), pages;
      }
      if kind == Chm {
        if env.decompiled.None? {
          return Exit([SetFileError], Kept, false), pages;
        }
        var flattened := CopyHtmlFiles(env.decompiled.value, map[]);
        pages := Some(flattened);
      }
      if !env.dbProduced {
        return Exit([SetFileError], Closed(release), false), pages;
      }
      if env.archive.None? {
        return Exit([SetFileError], Closed(release), false), pages;
      }
      store.SetFile(u, FileName(fileName), ArchiveName, env.archive.value);
      exit := Exit([FileWasSet], Closed(release), true);
    }

    /** A document message: the sender's stored key must be well-formed, the MIME type
        one of the three; then the matching ingestion runs. */
    method ProcessDocument(senderId: int, document: Option<Document>, env: Env)
      returns (exit: Exit, pages: Option<map<string, string>>)
      requires store.Valid()
      modifies store
      ensures store.Valid()
      ensures document.None? ==>
                exit == Exit([], NotCreated, false) && store.users == old(store.users) && store.files == old(store.files)
      ensures document.Some? ==>
                && exit == Run(DocumentChecks(StoredKey(old(store.users), ToInt32(senderId)), document.value.mime, env),
                               release, [FileWasSet])
                && store.users == WithUser(old(store.users), ToInt32(senderId))
      ensures document.Some? && exit.completed ==>
                && env.archive.Some?
                && store.files == AfterSetFile(old(store.files), ToInt32(senderId), FileName(document.value.fileName),
                                               ArchiveName, env.archive.value)
      ensures !exit.completed ==> store.files == old(store.files)
    {
      pages := None;
      if document.None? {
        return Exit([], NotCreated, false), pages;
      }
      var doc := document.value;
      var u := ToInt32(senderId);
      var key := store.GetOpenAiKey(u);
      DocumentDispatch(key, doc.mime, env, release);
      if IsNullOrBlank(Some(key)) || !IsValidPattern(key) {
        return Exit([KeyRequired], NotCreated, false), pages;
      }
      var kind := KindOf(doc.mime);
      if kind.None? {
        return Exit([UnsupportedType], NotCreated, false), pages;
      }
      exit, pages := IngestDocument(u, kind.value, doc.fileName, env);
    }

    /** `/ask`: has a file, query not blank, key not blank; then script, export,
        extraction, PYTHON; the reply is the backend's answer. */
    method AskLlm(senderId: int, query: string, env: Env) returns (exit: Exit)
      requires store.Valid()
      modifies store
      ensures store.Valid()
      ensures exit == Run(AskChecks(HasFile(old(store.files), ToInt32(senderId)), query,
                                    StoredKey(old(store.users), ToInt32(senderId)), env),
                          release, [env.stdout])
      ensures store.files == old(store.files)
      ensures store.users == if HasFile(old(store.files), ToInt32(senderId)) && !IsBlank(query)
                             then WithUser(old(store.users), ToInt32(senderId)) else old(store.users)
    {
      var u := ToInt32(senderId);
      var hasFile := store.IsUserFileExist(u);
      AskOutcome(hasFile, query, StoredKey(store.users, u), env, release);
      if !hasFile {
        return Exit([UploadFirst], NotCreated, false);
      }
      if IsBlank(query) {
        return Exit([AskHint], NotCreated, false);
      }
      var key := store.GetOpenAiKey(u);
      if IsBlank(key) {
        return Exit([KeyFirst], NotCreated, false);
      }
      if AskScript !in env.scripts {
        return Exit([AskError], Closed(release), false);
      }
      var saved, written := store.SaveUserFile(u, env.exported);
      if !saved {
        return Exit([AskError], Closed(release), false);
      }
      if !env.extracted {
        return Exit([AskError], Closed(release), false);
      }
      if IsNullOrBlank(env.python) {
        return Exit([AskPythonError], Kept, false);
      }
      exit := Exit([env.stdout], Closed(release), true);
    }

    /** `/search_few` and `/search_many`: the same steps as `/ask`, then one message per
        passage and the end marker. `faulted` reports a passage without `page_content`,
        which stops the messages before the end marker. */
    method SearchSimilar(senderId: int, query: string, commandName: string, env: Env)
      returns (exit: Exit, faulted: bool)
      requires store.Valid()
      modifies store
      ensures store.Valid()
      ensures exit == Run(SearchChecks(HasFile(old(store.files), ToInt32(senderId)), query, commandName,
                                       StoredKey(old(store.users), ToInt32(senderId)), env),
                          release, SearchReplies(env.passages))
      ensures faulted <==> exit.completed && env.passages.Some? && FirstMissing(env.passages.value) < |env.passages.value|
      ensures store.files == old(store.files)
      ensures store.users == if HasFile(old(store.files), ToInt32(senderId)) && !IsBlank(query)
                             then WithUser(old(store.users), ToInt32(senderId)) else old(store.users)
    {
      var u := ToInt32(senderId);
      faulted := false;
      var hasFile := store.IsUserFileExist(u);
      SearchOutcome(hasFile, query, commandName, StoredKey(store.users, u), env, release);
      if !hasFile {
        return Exit([UploadFirst], NotCreated, false), faulted;
      }
      if IsBlank(query) {
        return Exit([SearchHint(commandName)], NotCreated, false), faulted;
      }
      var key := store.GetOpenAiKey(u);
      if IsBlank(key) {
        return Exit([KeyFirst], NotCreated, false), faulted;
      }
      if SearchScript !in env.scripts {
        return Exit([SearchError], Closed(release), false), faulted;
      }
      var saved, written := store.SaveUserFile(u, env.exported);
      if !saved {
        return Exit([SearchError], Closed(release), false), faulted;
      }
      if !env.extracted {
        return Exit([SearchError], Closed(release), false), faulted;
      }
      if IsNullOrBlank(env.python) {
        return Exit([SearchPythonError], Kept, false), faulted;
      }
      // the workspace is deleted before the output is parsed and sent
      var workspace := Closed(release);
      var sent;
      sent, faulted := EmitSearchResults(env.passages);
      exit := Exit(sent, workspace, true);
    }

    /** A text message: the command table applied to the parsed command. */
    method ProcessText(senderId: int, text: Option<string>, env: Env)
      returns (replies: seq<string>, workspace: Workspace)
      requires store.Valid()
      modifies store
      ensures store.Valid()
      ensures TextOutcome(release, ToInt32(senderId), text, env, old(store.users), old(store.files),
                          store.users, store.files, replies, workspace)
    {
      workspace := NotCreated;
      if text.None? {
        return [], workspace;
      }
      match ParseCommand(text.value)
      case Info =>
        replies := GetUserInfo(senderId);
      case ResetKey =>
        replies := ResetUserKey(senderId);
      case SetKey(k) =>
        replies := SetUserKey(senderId, k);
      case Ask(q) =>
        var exit := AskLlm(senderId, q, env);
        replies, workspace := exit.replies, exit.workspace;
      case Search(q, name, _) =>
        var exit, _ := SearchSimilar(senderId, q, name, env);
        replies, workspace := exit.replies, exit.workspace;
      case ResetFile =>
        replies := ResetUserFile(senderId);
      case Usage =>
        replies := [UsageText];
      case Formats =>
        replies := [FormatsText];
      case Help =>
        replies := [HelpText];
    }

    /** A message: text goes to the command table, a document to ingestion, anything else gets the usage text. */
    method ReceiveMessage(senderId: int, message: Message, env: Env) returns (replies: seq<string>, workspace: Workspace)
      requires store.Valid()
      modifies store
      ensures store.Valid()
      ensures message.OtherMessage? ==>
                replies == [UsageText] && workspace == NotCreated
                && store.users == old(store.users) && store.files == old(store.files)
      ensures message.TextMessage? ==>
                TextOutcome(release, ToInt32(senderId), message.text, env, old(store.users), old(store.files),
                            store.users, store.files, replies, workspace)
      ensures message.DocumentMessage? && message.document.None? ==>
                replies == [] && workspace == NotCreated
                && store.users == old(store.users) && store.files == old(store.files)
      ensures message.DocumentMessage? && message.document.Some? ==>
                var u := ToInt32(senderId);
                var doc := message.document.value;
                var exit := Run(DocumentChecks(StoredKey(old(store.users), u), doc.mime, env), release, [FileWasSet]);
                && replies == exit.replies && workspace == exit.workspace
                && store.users == WithUser(old(store.users), u)
                && (exit.completed ==>
                      && env.archive.Some?
                      && store.files == AfterSetFile(old(store.files), u, FileName(doc.fileName), ArchiveName, env.archive.value))
                && (!exit.completed ==> store.files == old(store.files))
    {
      match message
      case TextMessage(text) =>
        replies, workspace := ProcessText(senderId, text, env);
      case DocumentMessage(document) =>
        var exit, _ := ProcessDocument(senderId, document, env);
        replies, workspace := exit.replies, exit.workspace;
      case OtherMessage =>
        replies, workspace := [UsageText], NotCreated;
    }
  }
}
