/** The ingestion and query pipelines as ordered lists of checks. Each check is
    a postcondition of one external step (a file that must exist, a setting that
    must be present); the first one that fails ends the run with its message, and
    whether the run's workspace exists and is deleted at that point is part of the check. */
module Pipeline {
  import opened Text
  import opened Commands
  import opened SearchOutput
  import UserStore

  /** What happened to the run's temporary directory. */
  datatype Workspace = NotCreated | Deleted | Kept

  /** One step's postcondition: whether it holds, whether the workspace exists when it
      is checked, whether a failure deletes the workspace, and the failure reply. */
  datatype Check = Check(passes: bool, inWorkspace: bool, cleansUp: bool, message: string)

  /** How a run ends: the replies sent, the workspace's fate, and whether every check passed. */
  datatype Exit = Exit(replies: seq<string>, workspace: Workspace, completed: bool)

  /** The results of the external steps of one run (download, scripts, environment,
      backend, archive tools), taken as given. */
  datatype Env = Env(
    scripts: set<string>,              // the scripts present in the installation's Scripts directory
    python: Option<string>,            // the PYTHON environment variable
    downloaded: bool,                  // the uploaded document exists after the download
    decompiled: Option<seq<string>>,   // the files of the decompiled help file, if a directory was produced
    dbProduced: bool,                  // the backend produced the `db` directory
    archive: Option<seq<UserStore.byte>>,  // the bytes of `db.zip`, if it was produced
    exported: bool,                    // the exported `db.zip` exists after `SaveUserFile`
    extracted: bool,                   // the `db` directory exists after extraction
    stdout: string,                    // the backend's standard output
    passages: Passages)                // that output deserialized as a passage list

  /** A check made before any workspace exists. */
  function Before(passes: bool, message: string): Check
  {
    Check(passes, false, false, message)
  }

  /** A check inside the workspace whose failure deletes the workspace (in a release build). */
  function Cleaned(passes: bool, message: string): Check
  {
    Check(passes, true, true, message)
  }

  /** A check inside the workspace whose failure returns without deleting it. */
  function Abandoned(passes: bool, message: string): Check
  {
    Check(passes, true, false, message)
  }

  /** The index of the first failing check, or the number of checks when all pass. */
  function FirstFailure(checks: seq<Check>): (k: nat)
    ensures k <= |checks|
    ensures forall i :: 0 <= i < k ==> checks[i].passes
    ensures k < |checks| ==> !checks[k].passes
  {
    if checks == [] || !checks[0].passes then 0 else 1 + FirstFailure(checks[1..])
  }

  /** The workspace at the end of a run that reached its end: deleted only in a release build. */
  function Closed(release: bool): Workspace
  {
    if release then Deleted else Kept
  }

  /** A run: the first failing check's message, or the success replies. */
  function Run(checks: seq<Check>, release: bool, success: seq<string>): Exit
  {
    var k := FirstFailure(checks);
    if k == |checks| then Exit(success, Closed(release), true)
    else
      var failed := checks[k];
      Exit([failed.message],
           if !failed.inWorkspace then NotCreated
           else if release && failed.cleansUp then Deleted
           else Kept,
           false)
  }

  /** A run stops at the first failing check: its message, and the workspace fate it names. */
  lemma FailsAt(checks: seq<Check>, k: nat, release: bool, success: seq<string>)
    requires k < |checks| && !checks[k].passes
    requires forall i :: 0 <= i < k ==> checks[i].passes
    ensures FirstFailure(checks) == k
    ensures Run(checks, release, success) ==
      Exit([checks[k].message],
           if !checks[k].inWorkspace then NotCreated
           else if release && checks[k].cleansUp then Deleted
           else Kept,
           false)
  {
  }

  /** A run whose checks all pass completes with the success replies. */
  lemma AllPass(checks: seq<Check>, release: bool, success: seq<string>)
    requires forall i :: 0 <= i < |checks| ==> checks[i].passes
    ensures Run(checks, release, success) == Exit(success, Closed(release), true)
  {
  }

  /** Checks that pass can be skipped: a run behaves as the rest of its checks. */
  lemma {:induction false} RunSkipsPassed(passed: seq<Check>, rest: seq<Check>, release: bool, success: seq<string>)
    requires forall i :: 0 <= i < |passed| ==> passed[i].passes
    ensures FirstFailure(passed + rest) == |passed| + FirstFailure(rest)
    ensures Run(passed + rest, release, success) == Run(rest, release, success)
  {
    if passed == [] {
      assert passed + rest == rest;
    } else {
      assert (passed + rest)[1..] == passed[1..] + rest;
      RunSkipsPassed(passed[1..], rest, release, success);
    }
  }

  // ----- messages and scripts -----

  const SetFileError := "Error setting file. Try again"
  const SetFilePythonError := "Error setting file. Python env var bot set. Try again"
  const FileWasSet := "File was set"
  const KeyRequired := "You must set an Open AI API key"
  const UnsupportedType := "This file type is unsupported"
  const UploadFirst := "You must upload file first"
  const KeyFirst := "You must set Open AI API key first"
  const AskHint := "Type your query after '/ask' keyword. Example '/ask give me an answer'"
  const AskError := "Error asking LLM. Try again"
  const AskPythonError := "Error asking LLM. Python env var bot set. Try again"
  const SearchError := "Error asking for similarity. Try again"
  const SearchPythonError := "Error asking for similarity. Python env var bot set. Try again"
  const AskScript := "load_and_ask.py"
  const SearchScript := "load_and_find_similarity.py"

  function SearchHint(commandName: string): string
  {
    "Type your query after '" + commandName + "' keyword. Example '" + commandName + " give me the similar term'"
  }

  /** The backend script that indexes each kind of document. */
  function ScriptName(kind: DocumentKind): string
  {
    match kind
    case PlainText => "create_storage_from_txt.py"
    case Chm => "create_storage_from_htms.py"
    case Pdf => "create_storage_from_pdf.py"
  }

  /** A usable PYTHON setting: set and not blank. */
  predicate PythonSet(env: Env)
  {
    !IsNullOrBlank(env.python)
  }

  // ----- ingestion -----

  /** Ingestion of a document of `kind`: download, script, PYTHON, (decompile), `db`, `db.zip`. */
  function IngestChecks(kind: DocumentKind, env: Env): seq<Check>
  {
    [ Cleaned(env.downloaded, SetFileError),
      Cleaned(ScriptName(kind) in env.scripts, SetFileError),
      Abandoned(PythonSet(env), SetFilePythonError) ]
    + (if kind == Chm then [Abandoned(env.decompiled.Some?, SetFileError)] else [])
    + [ Cleaned(env.dbProduced, SetFileError),
        Cleaned(env.archive.Some?, SetFileError) ]
  }

  /** A document message: the stored key must be a well-formed key, the MIME type a known one. */
  function DocumentChecks(key: string, mime: Option<string>, env: Env): seq<Check>
  {
    var kind := KindOf(mime);
    [ Before(!IsBlank(key) && IsValidPattern(key), KeyRequired),
      Before(kind.Some?, UnsupportedType) ]
    + (if kind.Some? then IngestChecks(kind.value, env) else [])
  }

  /** Every external step of an ingestion succeeded. */
  predicate IngestStepsSucceed(kind: DocumentKind, env: Env)
  {
    && env.downloaded
    && ScriptName(kind) in env.scripts
    && PythonSet(env)
    && (kind == Chm ==> env.decompiled.Some?)
    && env.dbProduced
    && env.archive.Some?
  }

  /** The ingestion checks as a display, one case per kind. */
  lemma IngestChecksShape(kind: DocumentKind, env: Env)
    ensures kind == Chm ==> (IngestChecks(kind, env) ==
      [ Cleaned(env.downloaded, SetFileError),
        Cleaned(ScriptName(kind) in env.scripts, SetFileError),
        Abandoned(PythonSet(env), SetFilePythonError),
        Abandoned(env.decompiled.Some?, SetFileError),
        Cleaned(env.dbProduced, SetFileError),
        Cleaned(env.archive.Some?, SetFileError) ])
    ensures kind != Chm ==> (IngestChecks(kind, env) ==
      [ Cleaned(env.downloaded, SetFileError),
        Cleaned(ScriptName(kind) in env.scripts, SetFileError),
        Abandoned(PythonSet(env), SetFilePythonError),
        Cleaned(env.dbProduced, SetFileError),
        Cleaned(env.archive.Some?, SetFileError) ])
  {
  }

  /** Download, script, PYTHON and (for a help file) decompile all succeeded. */
  predicate IngestPrepared(kind: DocumentKind, env: Env)
  {
    env.downloaded && ScriptName(kind) in env.scripts && PythonSet(env) && (kind == Chm ==> env.decompiled.Some?)
  }

  /** Every exit of an ingestion, in order: download and script failures (workspace
      deleted in a release build), an unset PYTHON or a failed decompile (workspace left
      behind), missing `db` or `db.zip` (deleted), and success. */
  lemma IngestOutcome(kind: DocumentKind, env: Env, release: bool)
    ensures var exit := Run(IngestChecks(kind, env), release, [FileWasSet]);
      && (!env.downloaded ==> exit == Exit([SetFileError], Closed(release), false))
      && (env.downloaded && ScriptName(kind) !in env.scripts ==> exit == Exit([SetFileError], Closed(release), false))
      && (env.downloaded && ScriptName(kind) in env.scripts && !PythonSet(env) ==>
            exit == Exit([SetFilePythonError], Kept, false))
      && (env.downloaded && ScriptName(kind) in env.scripts && PythonSet(env) && kind == Chm && env.decompiled.None? ==>
            exit == Exit([SetFileError], Kept, false))
      && (IngestPrepared(kind, env) && !env.dbProduced ==> exit == Exit([SetFileError], Closed(release), false))
      && (IngestPrepared(kind, env) && env.dbProduced && env.archive.None? ==>
            exit == Exit([SetFileError], Closed(release), false))
      && (IngestStepsSucceed(kind, env) ==> exit == Exit([FileWasSet], Closed(release), true))
  {
    var cs := IngestChecks(kind, env);
    var success := [FileWasSet];
    IngestChecksShape(kind, env);
    if kind == Chm {
      IngestSteps(cs, env, release, success, 4);
    } else {
      IngestSteps(cs, env, release, success, 3);
    }
  }

  /** The shared shape of the ingestion checks: download and script (cleaned up),
      PYTHON and an optional decompile (not cleaned up), then `db` and `db.zip` (cleaned up). */
  lemma IngestSteps(cs: seq<Check>, env: Env, release: bool, success: seq<string>, late: nat)
    requires late == 3 || late == 4
    requires |cs| == late + 2
    requires cs[0].inWorkspace && cs[0].cleansUp && cs[1].inWorkspace && cs[1].cleansUp
    requires cs[2].inWorkspace && !cs[2].cleansUp
    requires late == 4 ==> cs[3].inWorkspace && !cs[3].cleansUp
    requires cs[late] == Cleaned(env.dbProduced, cs[late].message)
    requires cs[late + 1] == Cleaned(env.archive.Some?, cs[late + 1].message)
    ensures !cs[0].passes ==> Run(cs, release, success) == Exit([cs[0].message], Closed(release), false)
    ensures cs[0].passes && !cs[1].passes ==> Run(cs, release, success) == Exit([cs[1].message], Closed(release), false)
    ensures cs[0].passes && cs[1].passes && !cs[2].passes ==> Run(cs, release, success) == Exit([cs[2].message], Kept, false)
    ensures late == 4 && cs[0].passes && cs[1].passes && cs[2].passes && !cs[3].passes ==>
              Run(cs, release, success) == Exit([cs[3].message], Kept, false)
    ensures (forall i :: 0 <= i < late ==> cs[i].passes) ==>
      && (!env.dbProduced ==> Run(cs, release, success) == Exit([cs[late].message], Closed(release), false))
      && (env.dbProduced && env.archive.None? ==>
            Run(cs, release, success) == Exit([cs[late + 1].message], Closed(release), false))
      && (env.dbProduced && env.archive.Some? ==> Run(cs, release, success) == Exit(success, Closed(release), true))
  {
    var k := FirstFailure(cs);
    if k < |cs| {
      FailsAt(cs, k, release, success);
    } else {
      AllPass(cs, release, success);
    }
  }

  /** The index is stored exactly when every step succeeded; otherwise one error reply. */
  lemma IngestCommitsIffAllPass(kind: DocumentKind, env: Env, release: bool)
    ensures Run(IngestChecks(kind, env), release, [FileWasSet]).completed <==> IngestStepsSucceed(kind, env)
    ensures IngestStepsSucceed(kind, env) ==>
              Run(IngestChecks(kind, env), release, [FileWasSet]) == Exit([FileWasSet], Closed(release), true)
    ensures !IngestStepsSucceed(kind, env) ==>
              Run(IngestChecks(kind, env), release, [FileWasSet]).replies in {[SetFileError], [SetFilePythonError]}
  {
    IngestOutcome(kind, env, release);
  }

  /** Ingestion always creates its workspace; a debug build never deletes it, and a
      release build leaves it behind only when PYTHON is unset or the decompile failed. */
  lemma IngestWorkspaceFate(kind: DocumentKind, env: Env, release: bool)
    ensures Run(IngestChecks(kind, env), release, [FileWasSet]).workspace != NotCreated
    ensures !release ==> Run(IngestChecks(kind, env), release, [FileWasSet]).workspace == Kept
    ensures release ==>
      (Run(IngestChecks(kind, env), release, [FileWasSet]).workspace == Kept
       <==> env.downloaded && ScriptName(kind) in env.scripts
            && (!PythonSet(env) || (kind == Chm && env.decompiled.None?)))
  {
    IngestOutcome(kind, env, release);
  }

  /** A document is rejected before any workspace exists when the stored key is blank
      or malformed, then when its MIME type is not one of the three; otherwise it is ingested. */
  lemma DocumentDispatch(key: string, mime: Option<string>, env: Env, release: bool)
    ensures (IsBlank(key) || !IsValidPattern(key)) ==>
              Run(DocumentChecks(key, mime, env), release, [FileWasSet]) == Exit([KeyRequired], NotCreated, false)
    ensures !IsBlank(key) && IsValidPattern(key) && KindOf(mime).None? ==>
              Run(DocumentChecks(key, mime, env), release, [FileWasSet]) == Exit([UnsupportedType], NotCreated, false)
    ensures !IsBlank(key) && IsValidPattern(key) && KindOf(mime).Some? ==>
              Run(DocumentChecks(key, mime, env), release, [FileWasSet])
              == Run(IngestChecks(KindOf(mime).value, env), release, [FileWasSet])
  {
    var kind := KindOf(mime);
    var cs := DocumentChecks(key, mime, env);
    var pre := [Before(!IsBlank(key) && IsValidPattern(key), KeyRequired), Before(kind.Some?, UnsupportedType)];
    if IsBlank(key) || !IsValidPattern(key) {
      FailsAt(cs, 0, release, [FileWasSet]);
    } else if kind.None? {
      FailsAt(cs, 1, release, [FileWasSet]);
    } else {
      RunSkipsPassed(pre, IngestChecks(kind.value, env), release, [FileWasSet]);
    }
  }

  // ----- queries -----

  /** `/ask`: has a file, query not blank, key not blank; then script, export, extraction, PYTHON. */
  function AskChecks(hasFile: bool, query: string, key: string, env: Env): seq<Check>
  {
    [ Before(hasFile, UploadFirst),
      Before(!IsBlank(query), AskHint),
      Before(!IsBlank(key), KeyFirst),
      Cleaned(AskScript in env.scripts, AskError),
      Cleaned(hasFile && env.exported, AskError),
      Cleaned(env.extracted, AskError),
      Abandoned(PythonSet(env), AskPythonError) ]
  }

  /** `/search_*`: the same order and shape, with the search script and messages. */
  function SearchChecks(hasFile: bool, query: string, commandName: string, key: string, env: Env): seq<Check>
  {
    [ Before(hasFile, UploadFirst),
      Before(!IsBlank(query), SearchHint(commandName)),
      Before(!IsBlank(key), KeyFirst),
      Cleaned(SearchScript in env.scripts, SearchError),
      Cleaned(hasFile && env.exported, SearchError),
      Cleaned(env.extracted, SearchError),
      Abandoned(PythonSet(env), SearchPythonError) ]
  }

  /** The three preconditions of a query: a file, a non-blank query, a non-blank key. */
  predicate QueryReady(hasFile: bool, query: string, key: string)
  {
    hasFile && !IsBlank(query) && !IsBlank(key)
  }

  /** Every exit of `/ask`, in order: the three preconditions each with its own reply
      and no workspace, then the script, export and extraction failures (workspace
      deleted in a release build), an unset PYTHON (workspace left behind), and the
      backend's answer. */
  lemma AskOutcome(hasFile: bool, query: string, key: string, env: Env, release: bool)
    ensures var exit := Run(AskChecks(hasFile, query, key, env), release, [env.stdout]);
      && (!hasFile ==> exit == Exit([UploadFirst], NotCreated, false))
      && (hasFile && IsBlank(query) ==> exit == Exit([AskHint], NotCreated, false))
      && (hasFile && !IsBlank(query) && IsBlank(key) ==> exit == Exit([KeyFirst], NotCreated, false))
      && (QueryReady(hasFile, query, key) && AskScript !in env.scripts ==>
            exit == Exit([AskError], Closed(release), false))
      && (QueryReady(hasFile, query, key) && AskScript in env.scripts && !env.exported ==>
            exit == Exit([AskError], Closed(release), false))
      && (QueryReady(hasFile, query, key) && AskScript in env.scripts && env.exported && !env.extracted ==>
            exit == Exit([AskError], Closed(release), false))
      && (QueryReady(hasFile, query, key) && AskScript in env.scripts && env.exported && env.extracted
          && !PythonSet(env) ==>
            exit == Exit([AskPythonError], Kept, false))
      && (QueryReady(hasFile, query, key) && AskScript in env.scripts && env.exported && env.extracted
          && PythonSet(env) ==>
            exit == Exit([env.stdout], Closed(release), true))
  {
    QueryOutcome(AskChecks(hasFile, query, key, env), AskScript in env.scripts, env, release, [env.stdout]);
  }

  /** Every exit of a search, in the same order as `/ask`, ending with the passages. */
  lemma SearchOutcome(hasFile: bool, query: string, commandName: string, key: string, env: Env, release: bool)
    ensures var exit := Run(SearchChecks(hasFile, query, commandName, key, env), release, SearchReplies(env.passages));
      && (!hasFile ==> exit == Exit([UploadFirst], NotCreated, false))
      && (hasFile && IsBlank(query) ==> exit == Exit([SearchHint(commandName)], NotCreated, false))
      && (hasFile && !IsBlank(query) && IsBlank(key) ==> exit == Exit([KeyFirst], NotCreated, false))
      && (QueryReady(hasFile, query, key) && SearchScript !in env.scripts ==>
            exit == Exit([SearchError], Closed(release), false))
      && (QueryReady(hasFile, query, key) && SearchScript in env.scripts && !env.exported ==>
            exit == Exit([SearchError], Closed(release), false))
      && (QueryReady(hasFile, query, key) && SearchScript in env.scripts && env.exported && !env.extracted ==>
            exit == Exit([SearchError], Closed(release), false))
      && (QueryReady(hasFile, query, key) && SearchScript in env.scripts && env.exported && env.extracted
          && !PythonSet(env) ==>
            exit == Exit([SearchPythonError], Kept, false))
      && (QueryReady(hasFile, query, key) && SearchScript in env.scripts && env.exported && env.extracted
          && PythonSet(env) ==>
            exit == Exit(SearchReplies(env.passages), Closed(release), true))
  {
    QueryOutcome(SearchChecks(hasFile, query, commandName, key, env), SearchScript in env.scripts, env, release,
                 SearchReplies(env.passages));
  }

  /** The shared shape of both query pipelines: three checks before the workspace, then
      script, export and extraction (cleaned up), then PYTHON (not cleaned up). */
  lemma QueryOutcome(cs: seq<Check>, script: bool, env: Env, release: bool, success: seq<string>)
    requires |cs| == 7
    requires !cs[0].inWorkspace && !cs[1].inWorkspace && !cs[2].inWorkspace
    requires cs[3] == Cleaned(script, cs[3].message)
    requires cs[4].passes == (cs[0].passes && env.exported) && cs[4].inWorkspace && cs[4].cleansUp
    requires cs[5] == Cleaned(env.extracted, cs[5].message)
    requires cs[6] == Abandoned(PythonSet(env), cs[6].message)
    ensures !cs[0].passes ==> Run(cs, release, success) == Exit([cs[0].message], NotCreated, false)
    ensures cs[0].passes && !cs[1].passes ==> Run(cs, release, success) == Exit([cs[1].message], NotCreated, false)
    ensures cs[0].passes && cs[1].passes && !cs[2].passes ==>
              Run(cs, release, success) == Exit([cs[2].message], NotCreated, false)
    ensures cs[0].passes && cs[1].passes && cs[2].passes ==>
      && (!script ==> Run(cs, release, success) == Exit([cs[3].message], Closed(release), false))
      && (script && !env.exported ==> Run(cs, release, success) == Exit([cs[4].message], Closed(release), false))
      && (script && env.exported && !env.extracted ==>
            Run(cs, release, success) == Exit([cs[5].message], Closed(release), false))
      && (script && env.exported && env.extracted && !PythonSet(env) ==>
            Run(cs, release, success) == Exit([cs[6].message], Kept, false))
      && (script && env.exported && env.extracted && PythonSet(env) ==>
            Run(cs, release, success) == Exit(success, Closed(release), true))
  {
    var k := FirstFailure(cs);
    if k < |cs| {
      FailsAt(cs, k, release, success);
    } else {
      AllPass(cs, release, success);
    }
  }

  /** Once its preconditions hold, a query's workspace is created, and a release build
      deletes it on every exit except an unset PYTHON. */
  lemma QueryWorkspaceFate(hasFile: bool, query: string, commandName: string, key: string, env: Env)
    requires QueryReady(hasFile, query, key)
    ensures Run(AskChecks(hasFile, query, key, env), true, [env.stdout]).workspace == Kept
            <==> AskScript in env.scripts && env.exported && env.extracted && !PythonSet(env)
    ensures Run(AskChecks(hasFile, query, key, env), true, [env.stdout]).workspace != NotCreated
    ensures Run(SearchChecks(hasFile, query, commandName, key, env), true, SearchReplies(env.passages)).workspace == Kept
            <==> SearchScript in env.scripts && env.exported && env.extracted && !PythonSet(env)
    ensures Run(SearchChecks(hasFile, query, commandName, key, env), true, SearchReplies(env.passages)).workspace != NotCreated
  {
    AskOutcome(hasFile, query, key, env, true);
    SearchOutcome(hasFile, query, commandName, key, env, true);
  }
}
