# ContextualQABot: per-user store and update-handler pipelines in Dafny

This project models the core of ContextualQABot, a Telegram bot. A user sets an
OpenAI API key, uploads a document (plain text, PDF or a compiled HTML help
file), and then asks questions (`/ask`) or runs similarity searches
(`/search_few`, `/search_many`) against the index an external Python backend
builds from that document. The model covers two components.

- **The store** (`StoreService`, module `UserStore`): a class `Store` with
  - a `users` map from user id to `BotUser`;
  - a `files` sequence of stored files: id, the `name` metadata label, and the bytes.

  Users are created lazily. A user's files are found by *substring* match of the
  decimal user id in the file id, so user 1's operations also see user 12's file.
  `SetFile` deletes every such file and appends the new one.
- **The update handler** (`UpdateHandler`, modules `Commands`, `Paths`,
  `SearchOutput`, `Pipeline` and `Handler`). It covers:
  - the API-key pattern, exactly as .NET's `Regex` reads `^sk-[a-zA-Z0-9_-]{48}$`;
  - text-command parsing and the command table;
  - the MIME-type dispatch and the unchecked `(int)` cast of the sender id;
  - `CopyHtmlFiles` and .NET's `Path.GetFileName`/`Path.GetExtension`;
  - the similarity-search output loop;
  - the ingestion and query pipelines.

  Each pipeline is an ordered list of postcondition checks (`Pipeline.Check`). The
  first failing check fixes the reply and the workspace's fate: never created,
  deleted, or left behind. The handler's methods (`Handler.UpdateHandler`) run
  the steps one by one over the store, with early returns. Each is proved to end
  exactly as `Pipeline.Run` over its check list does.

External step results come in as a `Pipeline.Env` value: download, backend
scripts, the `PYTHON` variable, the decompiler, the backend's `db` directory, the
archive bytes, export, extraction, the backend's standard output and its
deserialized passages. The build configuration (`#if RELEASE`) is the
`UpdateHandler.release` field.

Some behaviours of the code are easy to miss; the model follows the code:

- The key pattern also accepts a 51-character key followed by one `"\n"`, because
  `$` matches before a final newline (`Commands.TrailingNewlineAccepted`).
- A release build does not delete the workspace on every exit. When `PYTHON` is
  unset, and when a help file fails to decompile, the handler returns without
  deleting it (`Pipeline.IngestWorkspaceFate`, `Pipeline.QueryWorkspaceFate`).
- A user's files are those whose id contains the decimal id, not those the user
  owns (`UserStore.PrefixUserCollides`).
- A query is refused when it is blank (empty or only white space), not only when
  it is empty.
- A passage without `page_content` stops the search replies before the end marker
  (a dictionary lookup failure). It is not read as "no results".

## Model

| member | source | states |
|---|---|---|
| UserStore.Store.FindOrCreateUser | ContextualQABot/Models/BotUser.cs:5-11 | a lookup creates the record `BotUser(u, "")` if missing and otherwise changes nothing; the key returned is the stored one or "" |
| UserStore.Store.GetUserInfo | ContextualQABot/Services/StoreService.cs:35-73 | creates the record if missing; the text is the `/info` summary of the key stored before the call and the user's first file |
| UserStore.InfoTextReports | ContextualQABot/Services/StoreService.cs:39-71 | the summary is exactly two lines: the first shows the key, or `<not set>` when the key is blank; the second shows the label of the user's first file, or `<not set>` when no file is attributed to the user |
| UserStore.Store.SetOpenAiKey | ContextualQABot/Services/StoreService.cs:75-78 | afterwards the user's record is `BotUser(u, key)` and every other record and all files are unchanged |
| UserStore.Store.SetKey | ContextualQABot/Services/StoreService.cs:80-96 | upsert: inserts `BotUser(u, key)` or overwrites the key of the existing record; nothing else changes |
| UserStore.Store.ResetOpenAiKey | ContextualQABot/Services/StoreService.cs:98-101 | exactly `SetKey(u, "")`: the record exists afterwards with key "" |
| UserStore.Store.GetOpenAiKey | ContextualQABot/Services/StoreService.cs:103-118 | returns the stored key, or "" and inserts a record when there is none; files unchanged |
| UserStore.Store.SetFile | ContextualQABot/Services/StoreService.cs:120-137 | the user record exists (an existing key untouched), and the files are the ones not attributed to `u`, in order, followed by the new file with id `$/files/<u>/<name>`, the label and the content |
| UserStore.SetFileLeavesOneFile | ContextualQABot/Services/StoreService.cs:133-136 | after `SetFile` exactly one file is attributed to `u`: the uploaded one |
| UserStore.SetFileFrame | ContextualQABot/Services/StoreService.cs:133-135 | a file is in the storage after `SetFile` iff it is the new file or an old file not attributed to `u` |
| UserStore.ExportAfterSetFile | ContextualQABot/Services/StoreService.cs:163-175 | exporting right after `SetFile` yields exactly the uploaded bytes |
| UserStore.SetFileSupersedes | ContextualQABot/Services/StoreService.cs:120-137 | a second `SetFile` for the same user gives the same storage as the second one alone |
| UserStore.SetFileUnique | ContextualQABot/Services/StoreService.cs:133-135 | `SetFile` keeps file ids unique |
| UserStore.OtherFilesUnique | ContextualQABot/Services/StoreService.cs:139-146 | deleting a user's files keeps file ids unique |
| UserStore.Store.DeleteExistingFiles | ContextualQABot/Services/StoreService.cs:139-146 | the loop that deletes the user's files one id at a time leaves exactly the files not attributed to `u`, in order |
| UserStore.WithoutUserIds | ContextualQABot/Services/StoreService.cs:141-145 | deleting by the ids of the user's files removes exactly the files attributed to the user |
| UserStore.Store.ResetFile | ContextualQABot/Services/StoreService.cs:148-153 | afterwards no file is attributed to `u`, every other file is kept, users unchanged; holds when `u` had no file |
| UserStore.ResetFileClears | ContextualQABot/Services/StoreService.cs:155-175 | after a reset the user has no file and an export yields nothing |
| UserStore.Store.IsUserFileExist | ContextualQABot/Services/StoreService.cs:155-161 | true iff some stored file is attributed to `u`; changes nothing |
| UserStore.Store.SaveUserFile | ContextualQABot/Services/StoreService.cs:163-175 | writes the content of the user's first file; false with nothing written when the user has no file; true iff a file was written and exists afterwards; changes nothing |
| UserStore.UserFilesMembers | ContextualQABot/Services/StoreService.cs:177-180 | the user's files are exactly the stored files whose id contains the decimal id; with the others they partition the storage |
| UserStore.FileIdBelongs | ContextualQABot/Services/StoreService.cs:135 | the id a file is uploaded under is attributed to its uploader |
| UserStore.PrefixUserCollides | ContextualQABot/Services/StoreService.cs:179 | user 12's file is attributed to user 1 as well, though the ids differ |
| UserStore.UserFilesAppend | ContextualQABot/Services/StoreService.cs:177-180 | the filter distributes over concatenation of storages |
| Text.NatDigits | ContextualQABot/Services/StoreService.cs:179 | the decimal text of a natural number is non-empty, all digits, without a leading zero |
| Text.NatDigitsValue | ContextualQABot/Services/StoreService.cs:179 | reading the decimal text back gives the number |
| Text.DecimalInjective | ContextualQABot/Services/StoreService.cs:179 | distinct ids have distinct decimal texts |
| Text.ContainsOffset | ContextualQABot/Services/StoreService.cs:179 | an ordinal substring match has a position where the text occurs |
| Commands.IsValidPatternSpec | ContextualQABot/Services/UpdateHandler.cs:861-870 | the key is accepted iff it is "sk-" and 48 characters of `[a-zA-Z0-9_-]`, optionally followed by one newline |
| Commands.ValidPatternLength | ContextualQABot/Services/UpdateHandler.cs:861-870 | only lengths 51 and 52 are accepted; the empty string is rejected |
| Commands.TrailingNewlineAccepted | ContextualQABot/Services/UpdateHandler.cs:863 | a valid key followed by "\n" is still accepted |
| Commands.ValidPatternNotBlank | ContextualQABot/Services/UpdateHandler.cs:84 | a key matching the pattern is never blank |
| Commands.Split | ContextualQABot/Services/UpdateHandler.cs:519 | splitting on ' ' gives at least one piece, none containing a space |
| Commands.JoinSplit | ContextualQABot/Services/UpdateHandler.cs:519-528 | joining the pieces with " " gives the text back |
| Commands.BeforeSpace | ContextualQABot/Services/UpdateHandler.cs:519-520 | the text up to the first space: a space-free prefix followed by a space or the end |
| Commands.SplitHeadRest | ContextualQABot/Services/UpdateHandler.cs:519-528 | the first piece is the text before the first space; there is a second piece iff there is a space; the other pieces rejoined are the text after the first space |
| Commands.ParseCommandSpec | ContextualQABot/Services/UpdateHandler.cs:519-534 | the command is the text before the first space, each of the ten names selecting its own command; queries are the whole text after it; `/set_key` takes only the next piece; search counts 4 and 8; unknown names give Usage |
| Commands.NoSpaceNothingAfter | ContextualQABot/Services/UpdateHandler.cs:525 | with no space there is nothing after the command |
| Commands.KindOf | ContextualQABot/Services/UpdateHandler.cs:94-101 | plain text, help file and PDF are chosen exactly by their three MIME strings; any other or a missing type is unsupported |
| Commands.ToInt32 | ContextualQABot/Services/UpdateHandler.cs:82 | the cast yields a 32-bit value congruent to the id modulo 2^32 |
| Commands.ToInt32Spec | ContextualQABot/Services/UpdateHandler.cs:82 | ids in 32-bit range are kept; ids 2^32 apart map to the same user |
| Text.BlankSpec | ContextualQABot/Services/UpdateHandler.cs:84 | `String.IsNullOrWhiteSpace` on a string holds iff trimming its leading .NET white space (`Char.IsWhiteSpace`) leaves nothing |
| Paths.FileNameSpec | ContextualQABot/Services/UpdateHandler.cs:385 | the file name is the longest separator-free suffix of the path |
| Paths.ExtensionSpec | ContextualQABot/Services/UpdateHandler.cs:383 | an extension is empty or a suffix of the last segment: a dot and at least one further character, with no other dot or separator |
| Paths.ExtensionOfSuffix | ContextualQABot/Services/UpdateHandler.cs:383 | a dot followed by at least one character other than a dot or separator, ending the path, is its extension |
| Paths.ExtensionIff | ContextualQABot/Services/UpdateHandler.cs:383 | a well-formed extension is the path's extension iff the path ends in it |
| Paths.PageFileSpec | ContextualQABot/Services/UpdateHandler.cs:383 | a path is a page file iff it ends in ".html" or ".htm", case-sensitively |
| Paths.LastCopiedAs | ContextualQABot/Services/UpdateHandler.cs:376-388 | the last source, in enumeration order, that is a page file of the given name; none when there is none |
| Paths.CopyHtmlFiles | ContextualQABot/Services/UpdateHandler.cs:376-388 | the target gets one entry per page-file name (extension exactly ".html" or ".htm"), holding the last such source; other entries are kept |
| SearchOutput.FirstMissing | ContextualQABot/Services/UpdateHandler.cs:844-852 | the index of the first record without `page_content`: all before it have one |
| SearchOutput.PageContents | ContextualQABot/Services/UpdateHandler.cs:844-852 | one text per record, in order, each the record's `page_content` |
| SearchOutput.SearchRepliesSpec | ContextualQABot/Services/UpdateHandler.cs:840-858 | null output gives only the end marker; otherwise one message per passage in order, then exactly one end marker; a record without `page_content` stops the messages there |
| SearchOutput.EmitSearchResults | ContextualQABot/Services/UpdateHandler.cs:842-858 | the loop sends exactly the search replies and faults iff a record lacks `page_content` |
| Pipeline.FirstFailure | ContextualQABot/Services/UpdateHandler.cs:135-205 | every check before the returned index passes, and the check at it fails |
| Pipeline.FailsAt | ContextualQABot/Services/UpdateHandler.cs:135-205 | a run ends at its first failing check with that check's message alone and its workspace fate |
| Pipeline.AllPass | ContextualQABot/Services/UpdateHandler.cs:207-217 | a run whose checks all pass ends with the success replies; the workspace is deleted in a release build |
| Pipeline.RunSkipsPassed | ContextualQABot/Services/UpdateHandler.cs:84-101 | checks that pass can be skipped: a run behaves as its remaining checks |
| Pipeline.IngestSteps | ContextualQABot/Services/UpdateHandler.cs:260-365 | the exit of each failing ingestion step, in order, and success when all pass |
| Pipeline.IngestOutcome | ContextualQABot/Services/UpdateHandler.cs:427-511 | every exit of an ingestion: reply, workspace fate, and whether the file is stored |
| Pipeline.IngestCommitsIffAllPass | ContextualQABot/Services/UpdateHandler.cs:427-511 | the file is stored iff every step succeeded; otherwise exactly one error reply |
| Pipeline.IngestWorkspaceFate | ContextualQABot/Services/UpdateHandler.cs:260-365 | the workspace always exists; debug never deletes it; release leaves it only when PYTHON is unset or the decompile failed |
| Pipeline.DocumentDispatch | ContextualQABot/Services/UpdateHandler.cs:82-101 | a blank or malformed stored key, then an unknown MIME type, is refused before any workspace; otherwise the matching ingestion runs |
| Pipeline.AskOutcome | ContextualQABot/Services/UpdateHandler.cs:614-727 | every exit of `/ask`, in order: the three preconditions without a workspace, script, export and extraction failures (cleaned up), unset PYTHON (not cleaned up), then the backend's answer |
| Pipeline.SearchOutcome | ContextualQABot/Services/UpdateHandler.cs:729-859 | every exit of a search, in the same order, ending with the passages and the end marker |
| Pipeline.QueryOutcome | ContextualQABot/Services/UpdateHandler.cs:614-727 | the shared query shape: each exit's message and workspace fate |
| Pipeline.QueryWorkspaceFate | ContextualQABot/Services/UpdateHandler.cs:641-720 | once the preconditions hold the workspace exists, and a release build leaves it only when PYTHON is unset |
| Handler.UpdateHandler.SetUserKey | ContextualQABot/Services/UpdateHandler.cs:584-601 | an invalid key is refused with the store unchanged; a valid one is stored for the sender exactly as given |
| Handler.UpdateHandler.ResetUserKey | ContextualQABot/Services/UpdateHandler.cs:573-582 | the sender's key becomes "" and the reply confirms it |
| Handler.UpdateHandler.GetUserInfo | ContextualQABot/Services/UpdateHandler.cs:561-571 | the reply is the store's summary for the sender |
| Handler.UpdateHandler.ResetUserFile | ContextualQABot/Services/UpdateHandler.cs:603-612 | afterwards the sender has no file; other files and users are kept |
| Handler.UpdateHandler.IngestDocument | ContextualQABot/Services/UpdateHandler.cs:229-374 | the step sequence ends as the run of the ingestion checks; `SetFile` is called with the document's file name and `db.zip` iff it completes, otherwise the store is unchanged; a help file's pages are flattened as `CopyHtmlFiles` states |
| Handler.UpdateHandler.ProcessDocument | ContextualQABot/Services/UpdateHandler.cs:75-102 | the document's handling ends as the run of the document checks for the key stored before; the sender's record is created; the file is stored only on completion |
| Handler.UpdateHandler.AskLlm | ContextualQABot/Services/UpdateHandler.cs:614-727 | ends as the run of the `/ask` checks; files unchanged; the sender's record is created once the first two preconditions pass |
| Handler.UpdateHandler.SearchSimilar | ContextualQABot/Services/UpdateHandler.cs:729-859 | ends as the run of the search checks with the passage replies; faults iff it completed and a passage lacks `page_content`; files unchanged |
| Handler.UpdateHandler.ProcessText | ContextualQABot/Services/UpdateHandler.cs:513-538 | each parsed command's replies, workspace fate and store effect (`Handler.TextOutcome`): `/ask` and the searches create the sender's record iff a file exists and the query is not blank |
| Handler.UpdateHandler.ReceiveMessage | ContextualQABot/Services/UpdateHandler.cs:54-73 | text goes to the command table with `ProcessText`'s outcome; a document ends as the run of the document checks with the workspace fate, the record created and the file stored iff it completes; a document message without a document, or text message without text, gets no reply; other messages get the usage text and change nothing |

## Left out

- Telegram transport is not modelled: `HandleUpdateAsync`, callback and inline-query handlers, unknown updates, and `HandlePollingErrorAsync` with its cooldown. Replies are modelled as the list of texts sent. Chat ids, reply-to ids, parse modes and keyboards (Help's link button, Usage's keyboard removal) are left out.
- The Python backend scripts, and the bash command lines that interpolate the file name, query and key, are not modelled. Their effects are the `Env` fields `dbProduced`, `stdout` and `passages`. The search count 4 or 8 only reaches the backend, so it appears only in `Commands.Command`.
- File-system details are abstracted to `Env` booleans: temporary directory names, directory creation, copying the script, and the download stream.
- The flattened page directory of a help file is handed to the backend by path; what the backend does with it is inside `Env.dbProduced`.
- ZIP creation and extraction are abstracted: `Env.archive`, `Env.exported` and `Env.extracted` stand for them. LiteDB internals are abstracted to the `Store` class; the order in which LiteDB's `Find` enumerates files is modelled as storage order, with uploads appended.
- JSON deserialization is not modelled; `Env.passages` is its result. A deserialization exception is not modelled.
- Exceptions are not modelled: the catch blocks of the PDF and help-file ingestion that reply with the exception message, and exceptions from the download, `File.Copy`, the ZIP calls and a missing or empty document file name. The missing-key lookup in the search loop is modelled as `faulted`; what the exception does after it is not.
- Concurrency between handler tasks, and LiteDB locking, are not modelled. Every operation is sequential and atomic.
- The store's connection setup from `DB_DIR` and `DB_NAME` (StoreService.cs:16-33), and logging, are not modelled.
- A null sender (`message.From`) is not modelled. Text and document messages whose text or document is missing are modelled (no reply).
