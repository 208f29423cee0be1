/** The wiki walk (`processWikiFolder`): each folder of the wiki is a
    forum folder when it holds a sub-folder and a flat folder otherwise; it
    is resolved to a channel, skipped unless that channel is a forum or a
    text channel respectively, and then reconciled. */
module Walker {
  import opened Seqs
  import opened Paths
  import opened Resolver
  import opened Flat
  import opened ForumSync

  /** Whether some entry of `dir` is itself a folder. */
  ghost predicate HasSubdir(fs: FileSystem, dir: string)
    requires dir in fs.dirs
  {
    exists e :: e in fs.dirs[dir] && Join(dir, e) in fs.dirs
  }

  /** `getSubDirsOfDir`: the first entry of `dir` that is a folder, if any. */
  method GetSubDirsOfDir(fs: FileSystem, dir: string) returns (subdirs: seq<string>)
    requires dir in fs.dirs
    ensures |subdirs| <= 1
    ensures subdirs != [] <==> HasSubdir(fs, dir)
    ensures var entries := fs.dirs[dir];
            var k := FirstIndex(entries, e => Join(dir, e) in fs.dirs);
            subdirs != [] ==> subdirs[0] == Join(dir, entries[k]) && subdirs[0] in fs.dirs
  {
    var entries := fs.dirs[dir];
    ghost var k := FirstIndex(entries, e => Join(dir, e) in fs.dirs);
    subdirs := [];
    var i := 0;
    while i < |entries|
      invariant 0 <= i <= |entries| && i <= k
      invariant subdirs == []
      invariant forall j :: 0 <= j < i ==> Join(dir, entries[j]) !in fs.dirs
    {
      var filePath := Join(dir, entries[i]);
      var isDirectory := filePath in fs.dirs;
      if isDirectory {
        subdirs := subdirs + [filePath];
        break;
      }
      i := i + 1;
    }
    if subdirs == [] {
      forall e | e in entries ensures Join(dir, e) !in fs.dirs {
        var j :| 0 <= j < |entries| && entries[j] == e;
      }
    }
  }

  /** What the walk does with one folder. */
  datatype Action = Skip | SyncForum(forum: Channel) | SyncText(text: Channel)

  /** The branch of `processWikiFolder` for a folder named `folder`: a
      forum folder is resolved with the `isThread()` filter and kept only
      when the channel is a forum; a flat folder is resolved with no filter
      and kept only when the channel is a text channel. */
  function FolderAction(folder: string, forumFolder: bool, dir: Directory, guild: string): Action {
    if forumFolder then
      var c := Resolve(folder, dir, guild, IsThread);
      if c.None? || c.value.kind != Forum then Skip else SyncForum(c.value)
    else
      var c := Resolve(folder, dir, guild, AnyChannel);
      if c.None? || c.value.kind != Text then Skip else SyncText(c.value)
  }

  /** A folder changes a channel only when it resolves to one of the kind
      its branch expects: a forum for a forum folder, a text channel for a
      flat folder, and a forum only through the id in the folder's name. */
  lemma FolderActionKinds(folder: string, forumFolder: bool, dir: Directory, guild: string)
    ensures var a := FolderAction(folder, forumFolder, dir, guild);
            var id := SplitFolderName(folder).1;
            && (a.SyncForum? <==> forumFolder && id in dir.byId && dir.byId[id].kind == Forum)
            && (a.SyncForum? ==> a.forum == dir.byId[id])
            && (a.SyncText? ==> !forumFolder && a.text.kind == Text
                                && Resolve(folder, dir, guild, AnyChannel) == Some(a.text))
    ensures var a, c := FolderAction(folder, forumFolder, dir, guild), Resolve(folder, dir, guild, AnyChannel);
            !forumFolder && c.Some? && c.value.kind == Text ==> a == SyncText(c.value)
  {
    ForumOnlyById(folder, dir, guild);
  }

  /** What the walk plans for the root entry `entry`: nothing when it is not
      a folder, otherwise the folder's action. */
  ghost function Planned(fs: FileSystem, root: string, entry: string, dir: Directory, guild: string): Action {
    var path := Join(root, entry);
    if path !in fs.dirs then Skip else FolderAction(entry, HasSubdir(fs, path), dir, guild)
  }

  /** The ids of the text channels the walk may change. */
  ghost function TextTargets(fs: FileSystem, root: string, entries: seq<string>, dir: Directory, guild: string): set<string> {
    set e | e in entries && Planned(fs, root, e, dir, guild).SyncText? :: Planned(fs, root, e, dir, guild).text.id
  }

  /** The ids of the forums the walk may change. */
  ghost function ForumTargets(fs: FileSystem, root: string, entries: seq<string>, dir: Directory, guild: string): set<string> {
    set e | e in entries && Planned(fs, root, e, dir, guild).SyncForum? :: Planned(fs, root, e, dir, guild).forum.id
  }

  /** The forum rebuild that entry `entry` of the root plans, if any, runs
      to its end. */
  ghost predicate ForumDone(fs: FileSystem, root: string, entry: string, dir: Directory, guild: string, bot: string) {
    Planned(fs, root, entry, dir, guild).SyncForum? ==>
      Join(root, entry) in fs.dirs && PostsRun(fs, bot, Listing(fs, Join(root, entry))).completed
  }

  /** A step of the walk succeeds exactly when the entry's forum rebuild,
      if it plans one, runs to its end. */
  lemma PlannedDone(fs: FileSystem, root: string, entry: string, dir: Directory, guild: string, bot: string,
                    action: Action, ok: bool)
    requires action == Planned(fs, root, entry, dir, guild)
    requires action.SyncForum? ==> Join(root, entry) in fs.dirs
    requires ok <==> (action.SyncForum? ==> PostsRun(fs, bot, Listing(fs, Join(root, entry))).completed)
    ensures ok <==> ForumDone(fs, root, entry, dir, guild, bot)
  {
  }

  lemma DoneExtended(fs: FileSystem, root: string, entries: seq<string>, i: nat, dir: Directory, guild: string,
                     bot: string)
    requires i < |entries| && ForumDone(fs, root, entries[i], dir, guild, bot)
    requires forall j :: 0 <= j < i ==> ForumDone(fs, root, entries[j], dir, guild, bot)
    ensures forall j :: 0 <= j < i + 1 ==> ForumDone(fs, root, entries[j], dir, guild, bot)
  {
  }

  /** The objects behind the ids `targets`. */
  ghost function Touched<C>(targets: set<string>, objects: map<string, C>): set<C> {
    set id | id in targets && id in objects :: objects[id]
  }

  /** In a flat folder (one without sub-folders) every entry is a file. */
  lemma FlatEntriesAreFiles(fs: FileSystem, path: string)
    requires WellFormed(fs) && path in fs.dirs && !HasSubdir(fs, path)
    ensures forall p :: p in Entries(fs, path) ==> p in fs.files
  {
    var entries := Entries(fs, path);
    forall p | p in entries ensures p in fs.files {
      var k :| 0 <= k < |entries| && entries[k] == p;
      assert fs.dirs[path][k] in fs.dirs[path];
    }
  }

  /** The channels the platform knows about, as objects that the walk
      changes: text channels and forums by id. */
  ghost predicate Reachable(dir: Directory, texts: map<string, TextChannel>, forums: map<string, ForumChannel>) {
    && (forall id :: id in dir.byId && dir.byId[id].kind == Text ==> dir.byId[id].id in texts)
    && (forall id :: id in dir.byId && dir.byId[id].kind == Forum ==> dir.byId[id].id in forums)
    && (forall c :: c in dir.listed && c.kind == Text ==> c.id in texts)
  }

  /** `processWikiFolder` over the wiki's root listing `entries`: every
      folder is classified, resolved and, when its channel has the expected
      kind, reconciled; a failed read in a forum folder ends the walk. */
  method ProcessWikiFolder(fs: FileSystem, root: string, entries: seq<string>, dir: Directory, guild: string,
                           bot: string, texts: map<string, TextChannel>, forums: map<string, ForumChannel>)
    returns (completed: bool)
    requires WellFormed(fs)
    requires Reachable(dir, texts, forums)
    requires forall id :: id in texts ==> texts[id].Valid()
    modifies texts.Values, forums.Values
    ensures forall id :: id in texts ==> texts[id].Valid()
    ensures var touched := Touched(TextTargets(fs, root, entries, dir, guild), texts);
            forall id :: id in texts && texts[id] !in touched ==>
              texts[id].messages == old(texts[id].messages) && texts[id].clock == old(texts[id].clock)
    ensures var touched := Touched(ForumTargets(fs, root, entries, dir, guild), forums);
            forall id :: id in forums && forums[id] !in touched ==>
              forums[id].threads == old(forums[id].threads)
    ensures completed <==> forall j :: 0 <= j < |entries| ==> ForumDone(fs, root, entries[j], dir, guild, bot)
  {
    ghost var textTouched := Touched(TextTargets(fs, root, entries, dir, guild), texts);
    ghost var forumTouched := Touched(ForumTargets(fs, root, entries, dir, guild), forums);
    var i := 0;
    while i < |entries|
      invariant 0 <= i <= |entries|
      invariant forall id :: id in texts ==> texts[id].Valid()
      invariant forall id :: id in texts && texts[id] !in textTouched ==>
                  texts[id].messages == old(texts[id].messages) && texts[id].clock == old(texts[id].clock)
      invariant forall id :: id in forums && forums[id] !in forumTouched ==>
                  forums[id].threads == old(forums[id].threads)
      invariant forall j :: 0 <= j < i ==> ForumDone(fs, root, entries[j], dir, guild, bot)
    {
      var action, path := Classify(fs, root, entries[i], dir, guild, texts, forums);
      assert action.SyncText? ==> texts[action.text.id] in textTouched;
      assert action.SyncForum? ==> forums[action.forum.id] in forumTouched;
      var ok := Apply(action, path, fs, bot, texts, forums);
      PlannedDone(fs, root, entries[i], dir, guild, bot, action, ok);
      if !ok {
        return false;
      }
      DoneExtended(fs, root, entries, i, dir, guild, bot);
      i := i + 1;
    }
    return true;
  }

  /** The first half of one iteration of the walk: `lstat` the entry, look
      for a sub-folder, resolve the folder's name in the branch's way. */
  method Classify(fs: FileSystem, root: string, entry: string, dir: Directory, guild: string,
                  texts: map<string, TextChannel>, forums: map<string, ForumChannel>)
    returns (action: Action, path: string)
    requires WellFormed(fs)
    requires Reachable(dir, texts, forums)
    ensures action == Planned(fs, root, entry, dir, guild)
    ensures path == Join(root, entry)
    ensures action.SyncForum? ==> path in fs.dirs && action.forum.id in forums
    ensures action.SyncText? ==> path in fs.dirs && action.text.id in texts
                                 && forall p :: p in Entries(fs, path) ==> p in fs.files
  {
    path := Join(root, entry);
    if path !in fs.dirs {
      return Skip, path;
    }
    var subdirs := GetSubDirsOfDir(fs, path);
    action := FolderAction(entry, |subdirs| > 0, dir, guild);
    FolderActionKinds(entry, |subdirs| > 0, dir, guild);
    if action.SyncText? {
      ResolvedTextReachable(entry, dir, guild, texts, forums);
      FlatEntriesAreFiles(fs, path);
    }
  }

  /** The second half: reconcile the channel the action names, and no
      other. */
  method Apply(action: Action, path: string, fs: FileSystem, bot: string,
               texts: map<string, TextChannel>, forums: map<string, ForumChannel>)
    returns (ok: bool)
    requires action.SyncForum? ==> path in fs.dirs && action.forum.id in forums
    requires action.SyncText? ==> path in fs.dirs && action.text.id in texts
                                  && forall p :: p in Entries(fs, path) ==> p in fs.files
    requires forall id :: id in texts ==> texts[id].Valid()
    modifies texts.Values, forums.Values
    ensures forall id :: id in texts ==> texts[id].Valid()
    ensures forall id :: id in texts && !(action.SyncText? && texts[id] == texts[action.text.id]) ==>
              texts[id].messages == old(texts[id].messages) && texts[id].clock == old(texts[id].clock)
    ensures forall id :: id in forums && !(action.SyncForum? && forums[id] == forums[action.forum.id]) ==>
              forums[id].threads == old(forums[id].threads)
    ensures action.SyncText? ==>
              var c := texts[action.text.id];
              c.messages == Reconciled(old(c.messages), old(c.clock), bot, Read(fs.files, Docs(Entries(fs, path))))
    ensures action.SyncForum? ==>
              var f := forums[action.forum.id];
              f.threads == KeepOthers(old(f.threads), bot) + PostsRun(fs, bot, Listing(fs, path)).threads
    ensures ok <==> (action.SyncForum? ==> PostsRun(fs, bot, Listing(fs, path)).completed)
  {
    match action {
      case Skip =>
        ok := true;
      case SyncForum(c) =>
        ok := RebuildForum(forums[c.id], bot, fs, path);
      case SyncText(c) =>
        CreateRequiredMessages(texts[c.id], bot, fs.files, Entries(fs, path));
        ok := true;
    }
  }

  /** A text channel that a flat folder resolves to is one of the walk's
      text channel objects. */
  lemma ResolvedTextReachable(folder: string, dir: Directory, guild: string, texts: map<string, TextChannel>,
                              forums: map<string, ForumChannel>)
    requires Reachable(dir, texts, forums)
    ensures var c := Resolve(folder, dir, guild, AnyChannel);
            c.Some? && c.value.kind == Text ==> c.value.id in texts
  {
    var (name, id) := SplitFolderName(folder);
    var c := Resolve(folder, dir, guild, AnyChannel);
    if c.Some? && id !in dir.byId {
      var k :| 0 <= k < |dir.listed| && dir.listed[k] == c.value;
      assert dir.listed[k] in dir.listed;
    }
  }
}
