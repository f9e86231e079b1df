/** The per-user store: one `BotUser` record per user id (credential) and a file
    storage whose entries are attributed to users by a substring test on their ids. */
module UserStore {
  import opened Text

  newtype byte = x: int | 0 <= x < 256

  /** A user record; `id` never changes, the key is overwritten in place. */
  datatype BotUser = BotUser(id: int, openAiApiKey: string)

  /** A file of the storage: its id, the `name` metadata shown to the user, and its bytes. */
  datatype StoredFile = StoredFile(id: string, displayName: string, content: seq<byte>)

  const FilesRoot := "$/files/"
  const NotSet := "<not set>"

  /** The id under which a file named `name` is uploaded for user `u`. */
  function FileId(u: int, name: string): string
  {
    FilesRoot + Decimal(u) + "/" + name
  }

  /** A stored file is attributed to `u` when its id contains `u` in decimal anywhere. */
  predicate BelongsTo(id: string, u: int)
  {
    Contains(id, Decimal(u))
  }

  /** The files attributed to `u`, in storage order. */
  function UserFiles(fs: seq<StoredFile>, u: int): seq<StoredFile>
  {
    if fs == [] then []
    else if BelongsTo(fs[0].id, u) then [fs[0]] + UserFiles(fs[1..], u)
    else UserFiles(fs[1..], u)
  }

  /** The files not attributed to `u`, in storage order. */
  function OtherFiles(fs: seq<StoredFile>, u: int): seq<StoredFile>
  {
    if fs == [] then []
    else if BelongsTo(fs[0].id, u) then OtherFiles(fs[1..], u)
    else [fs[0]] + OtherFiles(fs[1..], u)
  }

  /** The files whose id is not in `ids`. */
  function WithoutIds(fs: seq<StoredFile>, ids: set<string>): seq<StoredFile>
  {
    if fs == [] then []
    else if fs[0].id in ids then WithoutIds(fs[1..], ids)
    else [fs[0]] + WithoutIds(fs[1..], ids)
  }

  function IdsOf(fs: seq<StoredFile>): (ids: set<string>)
    ensures forall id :: id in ids <==> exists f :: f in fs && f.id == id
  {
    set f | f in fs :: f.id
  }

  lemma IdsOfPrefix(fs: seq<StoredFile>, i: nat)
    requires i < |fs|
    ensures IdsOf(fs[..i + 1]) == IdsOf(fs[..i]) + {fs[i].id}
  {
    assert fs[..i + 1] == fs[..i] + [fs[i]];
  }

  /** No two stored files share an id (the storage's primary key). */
  predicate UniqueIds(fs: seq<StoredFile>)
  {
    forall i, j :: 0 <= i < j < |fs| ==> fs[i].id != fs[j].id
  }

  /** The users table after looking `u` up: a record with an empty key is created if missing. */
  function WithUser(users: map<int, BotUser>, u: int): map<int, BotUser>
  {
    if u in users then users else users[u := BotUser(u, "")]
  }

  /** The key a lookup of `u` reports: the stored one, or "" for a user without a record. */
  function StoredKey(users: map<int, BotUser>, u: int): string
  {
    if u in users then users[u].openAiApiKey else ""
  }

  /** The storage after `SetFile`: every file attributed to `u` removed, the new one appended. */
  function AfterSetFile(fs: seq<StoredFile>, u: int, displayName: string, name: string, content: seq<byte>): seq<StoredFile>
  {
    OtherFiles(fs, u) + [StoredFile(FileId(u, name), displayName, content)]
  }

  /** What exporting `u`'s file yields: the content of the first file attributed to `u`. */
  function Exported(fs: seq<StoredFile>, u: int): Option<seq<byte>>
  {
    var mine := UserFiles(fs, u);
    if mine == [] then None else Some(mine[0].content)
  }

  /** The `/info` summary: the key unless it is blank, the first file's name unless there is none. */
  function InfoText(key: string, fs: seq<StoredFile>, u: int): string
  {
    var mine := UserFiles(fs, u);
    InfoLines(if IsBlank(key) then NotSet else key, if mine == [] then NotSet else mine[0].displayName)
  }

  function InfoLines(shownKey: string, shownFile: string): string
  {
    KeyLine(shownKey) + FileLine(shownFile)
  }

  /** The first line of the `/info` text, with its line break. */
  function KeyLine(shownKey: string): string
  {
    "*Your Open AI API Key:* ```" + shownKey + "```\n"
  }

  /** The second line of the `/info` text. */
  function FileLine(shownFile: string): string
  {
    "*Current file:* ```" + shownFile + "```"
  }

  // ----- properties of the storage functions -----

  /** `UserFiles` and `OtherFiles` split the storage by attribution to `u`. */
  lemma {:induction false} UserFilesMembers(fs: seq<StoredFile>, u: int)
    ensures forall f :: f in UserFiles(fs, u) <==> f in fs && BelongsTo(f.id, u)
    ensures forall f :: f in OtherFiles(fs, u) <==> f in fs && !BelongsTo(f.id, u)
    ensures |UserFiles(fs, u)| + |OtherFiles(fs, u)| == |fs|
  {
    if fs != [] {
      UserFilesMembers(fs[1..], u);
      assert fs == [fs[0]] + fs[1..];
    }
  }

  lemma {:induction false} WithoutIdsMembers(fs: seq<StoredFile>, ids: set<string>)
    ensures forall f :: f in WithoutIds(fs, ids) <==> f in fs && f.id !in ids
  {
    if fs != [] {
      WithoutIdsMembers(fs[1..], ids);
      assert fs == [fs[0]] + fs[1..];
    }
  }

  /** The id a file is uploaded under is attributed to its own user. */
  lemma FileIdBelongs(u: int, name: string)
    ensures BelongsTo(FileId(u, name), u)
  {
    var id := FileId(u, name);
    var d := Decimal(u);
    assert id[|FilesRoot|..|FilesRoot| + |d|] == d;
    ContainsAt(id, d, |FilesRoot|);
  }

  /** The attribution is by substring, so the file of user 12 is also user 1's. */
  lemma PrefixUserCollides(name: string)
    ensures BelongsTo(FileId(12, name), 1)
    ensures FileId(12, name) != FileId(1, name)
  {
    var id := FileId(12, name);
    assert Decimal(12) == "12" && Decimal(1) == "1";
    assert id[|FilesRoot|..|FilesRoot| + 1] == "1";
    ContainsAt(id, "1", |FilesRoot|);
    assert id[|FilesRoot| + 1] == '2' != FileId(1, name)[|FilesRoot| + 1];
  }

  lemma UserFilesAppend(a: seq<StoredFile>, b: seq<StoredFile>, u: int)
    ensures UserFiles(a + b, u) == UserFiles(a, u) + UserFiles(b, u)
    ensures OtherFiles(a + b, u) == OtherFiles(a, u) + OtherFiles(b, u)
  {
    MineAppend(a, b, u);
    OthersAppend(a, b, u);
  }

  lemma {:induction false} MineAppend(a: seq<StoredFile>, b: seq<StoredFile>, u: int)
    ensures UserFiles(a + b, u) == UserFiles(a, u) + UserFiles(b, u)
  {
    if a == [] {
      assert a + b == b;
    } else {
      assert (a + b)[0] == a[0];
      assert (a + b)[1..] == a[1..] + b;
      MineAppend(a[1..], b, u);
    }
  }

  lemma {:induction false} OthersAppend(a: seq<StoredFile>, b: seq<StoredFile>, u: int)
    ensures OtherFiles(a + b, u) == OtherFiles(a, u) + OtherFiles(b, u)
  {
    if a == [] {
      assert a + b == b;
    } else {
      assert (a + b)[0] == a[0];
      assert (a + b)[1..] == a[1..] + b;
      OthersAppend(a[1..], b, u);
    }
  }

  /** Keeping what is not attributed to `u` leaves nothing attributed to `u`, and nothing else to drop. */
  lemma {:induction false} OtherFilesSeparates(fs: seq<StoredFile>, u: int)
    ensures UserFiles(OtherFiles(fs, u), u) == []
    ensures OtherFiles(OtherFiles(fs, u), u) == OtherFiles(fs, u)
  {
    if fs != [] {
      OtherFilesSeparates(fs[1..], u);
    }
  }

  /** After `SetFile`, exactly one file is attributed to `u`: the uploaded one. */
  lemma SetFileLeavesOneFile(fs: seq<StoredFile>, u: int, displayName: string, name: string, content: seq<byte>)
    ensures UserFiles(AfterSetFile(fs, u, displayName, name, content), u)
         == [StoredFile(FileId(u, name), displayName, content)]
  {
    var f := StoredFile(FileId(u, name), displayName, content);
    UserFilesAppend(OtherFiles(fs, u), [f], u);
    OtherFilesSeparates(fs, u);
    FileIdBelongs(u, name);
  }

  /** `SetFile` keeps exactly the files not attributed to `u`, in order, plus the new one. */
  lemma SetFileFrame(fs: seq<StoredFile>, u: int, displayName: string, name: string, content: seq<byte>, g: StoredFile)
    ensures g in AfterSetFile(fs, u, displayName, name, content)
        <==> (g in fs && !BelongsTo(g.id, u)) || g == StoredFile(FileId(u, name), displayName, content)
  {
    UserFilesMembers(fs, u);
  }

  /** Round trip: exporting right after `SetFile` yields exactly the uploaded bytes. */
  lemma ExportAfterSetFile(fs: seq<StoredFile>, u: int, displayName: string, name: string, content: seq<byte>)
    ensures Exported(AfterSetFile(fs, u, displayName, name, content), u) == Some(content)
  {
    SetFileLeavesOneFile(fs, u, displayName, name, content);
  }

  /** A second `SetFile` for the same user fully supersedes the first. */
  lemma SetFileSupersedes(fs: seq<StoredFile>, u: int, l1: string, n1: string, c1: seq<byte>,
                          l2: string, n2: string, c2: seq<byte>)
    ensures AfterSetFile(AfterSetFile(fs, u, l1, n1, c1), u, l2, n2, c2) == AfterSetFile(fs, u, l2, n2, c2)
  {
    var f1 := StoredFile(FileId(u, n1), l1, c1);
    UserFilesAppend(OtherFiles(fs, u), [f1], u);
    OtherFilesSeparates(fs, u);
    FileIdBelongs(u, n1);
  }

  /** After a reset nothing is attributed to `u`; an export then yields nothing. */
  lemma ResetFileClears(fs: seq<StoredFile>, u: int)
    ensures UserFiles(OtherFiles(fs, u), u) == []
    ensures Exported(OtherFiles(fs, u), u) == None
  {
    OtherFilesSeparates(fs, u);
  }

  /** Dropping the ids of all of `u`'s files is dropping exactly `u`'s files. */
  lemma {:induction false} WithoutUserIds(fs: seq<StoredFile>, all: seq<StoredFile>, u: int)
    requires forall f :: f in fs ==> f in all
    ensures WithoutIds(fs, IdsOf(UserFiles(all, u))) == OtherFiles(fs, u)
  {
    UserFilesMembers(all, u);
    if fs != [] {
      var ids := IdsOf(UserFiles(all, u));
      var f := fs[0];
      if BelongsTo(f.id, u) {
        assert f in UserFiles(all, u);
      } else {
        forall g | g in UserFiles(all, u) ensures g.id != f.id {
        }
      }
      WithoutUserIds(fs[1..], all, u);
    }
  }

  lemma {:induction false} WithoutNoIds(fs: seq<StoredFile>)
    ensures WithoutIds(fs, {}) == fs
  {
    if fs != [] {
      WithoutNoIds(fs[1..]);
    }
  }

  lemma {:induction false} WithoutIdsUnion(fs: seq<StoredFile>, a: set<string>, b: set<string>)
    ensures WithoutIds(WithoutIds(fs, a), b) == WithoutIds(fs, a + b)
  {
    if fs != [] {
      WithoutIdsUnion(fs[1..], a, b);
    }
  }

  /** Removing files keeps the ids unique. */
  lemma {:induction false} OtherFilesUnique(fs: seq<StoredFile>, u: int)
    requires UniqueIds(fs)
    ensures UniqueIds(OtherFiles(fs, u))
  {
    if fs != [] {
      OtherFilesUnique(fs[1..], u);
      UserFilesMembers(fs[1..], u);
      var rest := OtherFiles(fs[1..], u);
      if !BelongsTo(fs[0].id, u) {
        forall g | g in rest ensures g.id != fs[0].id {
          var j :| 0 <= j < |fs[1..]| && fs[1..][j] == g;
          assert fs[0].id != fs[j + 1].id;
        }
      }
    }
  }

  /** `SetFile` keeps the ids unique. */
  lemma SetFileUnique(fs: seq<StoredFile>, u: int, displayName: string, name: string, content: seq<byte>)
    requires UniqueIds(fs)
    ensures UniqueIds(AfterSetFile(fs, u, displayName, name, content))
  {
    OtherFilesUnique(fs, u);
    FileIdBelongs(u, name);
    UserFilesMembers(fs, u);
    var rest := OtherFiles(fs, u);
    forall i | 0 <= i < |rest| ensures rest[i].id != FileId(u, name) {
      assert rest[i] in rest;
    }
  }

  /** The `/info` text is two lines: the first shows the key, or `<not set>` when it is
      blank; the second shows the label of the first file attributed to `u`, or
      `<not set>` when there is none. */
  lemma InfoTextReports(key: string, fs: seq<StoredFile>, u: int)
    ensures !IsBlank(key) ==> StartsWith(InfoText(key, fs, u), KeyLine(key))
    ensures IsBlank(key) ==> StartsWith(InfoText(key, fs, u), KeyLine(NotSet))
    ensures UserFiles(fs, u) != [] ==> EndsWith(InfoText(key, fs, u), FileLine(UserFiles(fs, u)[0].displayName))
    ensures UserFiles(fs, u) == [] ==> EndsWith(InfoText(key, fs, u), FileLine(NotSet))
    ensures |InfoText(key, fs, u)| == |KeyLine(if IsBlank(key) then NotSet else key)|
                                      + |FileLine(if UserFiles(fs, u) == [] then NotSet else UserFiles(fs, u)[0].displayName)|
  {
    var mine := UserFiles(fs, u);
    var shownKey := if IsBlank(key) then NotSet else key;
    var shownFile := if mine == [] then NotSet else mine[0].displayName;
    assert InfoText(key, fs, u) == KeyLine(shownKey) + FileLine(shownFile);
  }

  /** The store: the users collection and the file storage of the database. */
  class Store {
    var users: map<int, BotUser>
    var files: seq<StoredFile>

    ghost predicate Valid()
      reads this
    {
      (forall k :: k in users ==> users[k].id == k) && UniqueIds(files)
    }

    constructor ()
      ensures Valid() && users == map[] && files == []
    {
      users := map[];
      files := [];
    }

    /** Looks `u` up, creating a record with an empty key if there is none. */
    method FindOrCreateUser(u: int) returns (user: BotUser)
      requires Valid()
      modifies this`users
      ensures Valid()
      ensures users == WithUser(old(users), u)
      ensures user == users[u] && user.id == u
      ensures user.openAiApiKey == StoredKey(old(users), u)
    {
      if u in users {
        user := users[u];
      } else {
        user := BotUser(u, "");
        users := users[u := user];
      }
    }

    method GetUserInfo(u: int) returns (info: string)
      requires Valid()
      modifies this`users
      ensures Valid()
      ensures users == WithUser(old(users), u) && files == old(files)
      ensures info == InfoText(StoredKey(old(users), u), files, u)
    {
      var user := FindOrCreateUser(u);
      info := InfoText(user.openAiApiKey, files, u);
    }

    method SetOpenAiKey(u: int, key: string)
      requires Valid()
      modifies this`users
      ensures Valid()
      ensures users == old(users)[u := BotUser(u, key)] && files == old(files)
    {
      SetKey(u, key);
    }

    /** Upsert: insert a record with `key`, or overwrite the key of the existing one. */
    method SetKey(u: int, key: string)
      requires Valid()
      modifies this`users
      ensures Valid()
      ensures users == old(users)[u := BotUser(u, key)] && files == old(files)
    {
      if u !in users {
        users := users[u := BotUser(u, key)];
        return;
      }
      var user := users[u];
      users := users[u := user.(openAiApiKey := key)];
    }

    method ResetOpenAiKey(u: int)
      requires Valid()
      modifies this`users
      ensures Valid()
      ensures users == old(users)[u := BotUser(u, "")] && files == old(files)
    {
      SetKey(u, "");
    }

    method GetOpenAiKey(u: int) returns (key: string)
      requires Valid()
      modifies this`users
      ensures Valid()
      ensures users == WithUser(old(users), u) && files == old(files)
      ensures key == StoredKey(old(users), u)
      ensures u !in old(users) ==> key == ""
    {
      if u in users {
        return users[u].openAiApiKey;
      }
      users := users[u := BotUser(u, "")];
      return "";
    }

    /** Replaces `u`'s file: creates the user if needed, deletes every file attributed
        to `u`, then uploads `content` under `FileId(u, name)` labelled `displayName`. */
    method SetFile(u: int, displayName: string, name: string, content: seq<byte>)
      requires Valid()
      modifies this
      ensures Valid()
      ensures users == WithUser(old(users), u)
      ensures files == AfterSetFile(old(files), u, displayName, name, content)
    {
      var _ := FindOrCreateUser(u);
      DeleteExistingFiles(u);
      SetFileUnique(old(files), u, displayName, name, content);
      files := files + [StoredFile(FileId(u, name), displayName, content)];
    }

    /** Deletes, one id at a time, every file attributed to `u`. */
    method DeleteExistingFiles(u: int)
      requires Valid()
      modifies this`files
      ensures Valid()
      ensures files == OtherFiles(old(files), u)
    {
      var userFiles := UserFiles(files, u);
      var i := 0;
      assert IdsOf(userFiles[..0]) == {};
      WithoutNoIds(files);
      while i < |userFiles|
        invariant 0 <= i <= |userFiles|
        invariant files == WithoutIds(old(files), IdsOf(userFiles[..i]))
      {
        WithoutIdsUnion(old(files), IdsOf(userFiles[..i]), {userFiles[i].id});
        IdsOfPrefix(userFiles, i);
        files := WithoutIds(files, {userFiles[i].id});
        i := i + 1;
      }
      assert userFiles[..i] == userFiles;
      WithoutUserIds(old(files), old(files), u);
      OtherFilesUnique(old(files), u);
    }

    method ResetFile(u: int)
      requires Valid()
      modifies this`files
      ensures Valid()
      ensures users == old(users)
      ensures files == OtherFiles(old(files), u)
      ensures UserFiles(files, u) == []
    {
      DeleteExistingFiles(u);
      ResetFileClears(old(files), u);
    }

    method IsUserFileExist(u: int) returns (found: bool)
      ensures found <==> (exists f :: f in files && BelongsTo(f.id, u))
    {
      var mine := UserFiles(files, u);
      UserFilesMembers(files, u);
      found := mine != [];
      if !found {
        assert forall f :: f in files && BelongsTo(f.id, u) ==> f in mine;
      } else {
        assert mine[0] in mine;
      }
    }

    /** Writes the first file attributed to `u` to a path; `materialised` says whether
        the written file then exists. Returns whether it does, `false` with no file. */
    method SaveUserFile(u: int, materialised: bool) returns (saved: bool, written: Option<seq<byte>>)
      ensures written == Exported(files, u)
      ensures written.None? ==> (forall f :: f in files ==> !BelongsTo(f.id, u))
      ensures saved <==> written.Some? && materialised
    {
      var mine := UserFiles(files, u);
      UserFilesMembers(files, u);
      if mine == [] {
        assert forall f :: f in files && BelongsTo(f.id, u) ==> f in mine;
        return false, None;
      }
      written := Some(mine[0].content);
      saved := materialised;
    }
  }
}
