# wiki_to_discord — a Dafny model

`wiki_to_discord.ts` publishes a local wiki folder to a Discord guild. Each
folder of the wiki names a channel as `<name>_<id>` (or just `<name>`). The
synchroniser handles the folders in two ways:

- **Flat folder** (no sub-folder). It resolves to a guild text channel. The
  folder's Markdown files, sorted by path, become the bot's messages in that
  channel: surplus bot messages are deleted, missing ones are sent, and then
  every message is edited to its document's text, oldest message first.
- **Forum folder** (it holds a sub-folder). It resolves to a forum channel.
  Every thread the bot owns is deleted. Then each post folder, in sorted
  order, becomes a new thread. The thread opens with the post's first file
  and has every further file as a reply.

This project models that core as Dafny functions, classes and methods, and
proves the properties the code promises.

| file | module | what it holds |
|---|---|---|
| `seqs.dfy` | `Seqs` | Filter, a stable insertion sort (JavaScript's `Array.prototype.sort`), first-match search, index lookup and ranks |
| `paths.dfy` | `Paths` | JavaScript string order, `lastIndexOf`/`substring`, `path.join`/`basename`/`extname`, and the wiki's file tree (`FileSystem`) |
| `resolver.dfy` | `Resolver` | `getChannelFromFolderName`: the split of a folder name, then lookup by id, then by name |
| `flat.dfy` | `Flat` | `createRequiredMessages` on a `TextChannel` class. `Reconciled` is the function that specifies it, and lemmas state what it guarantees |
| `forum.dfy` | `ForumSync` | The forum branch on a `ForumChannel` class, specified by `PostRun`/`PostsRun` |
| `walker.dfy` | `Walker` | `getSubDirsOfDir` and `processWikiFolder`: classify each folder, resolve it, reconcile it |

The remote platform is modelled as data:

- A text channel's history is a sequence of messages. A message's id is its
  position, and deleted messages stay in the history with `alive == false`.
  A `clock` field stamps new messages.
- A forum is the sequence of its active threads.
- Channel lookup is a `Directory`. It holds the channels that `fetch(id)`
  returns (absent ids stand for a failed fetch) and the guild's channel
  listing.
- The wiki is a `FileSystem`: a map from folder paths to entry names and a
  map from file paths to text. The walk receives the root's listing as its
  `entries` parameter.

## Model

| member | source | states |
|---|---|---|
| Seqs.SortByPermutation | wiki_to_discord.ts:53-58 | Sorting (`.sort()`, with or without a comparator) keeps exactly the same elements with the same multiplicities |
| Seqs.SortBySorted | wiki_to_discord.ts:53-58 | Under a total preorder the sorted sequence is ordered |
| Seqs.SortByNoDup | wiki_to_discord.ts:56-58 | Sorting a duplicate-free sequence leaves it duplicate-free |
| Seqs.FilterMembers | wiki_to_discord.ts:53-57 | `filter` keeps exactly the elements that satisfy the predicate |
| Seqs.FilterMultiset | wiki_to_discord.ts:53-54 | `filter` keeps every occurrence of an element that satisfies the predicate and no occurrence of any other |
| Seqs.FirstIndex | wiki_to_discord.ts:40-45 | The first index whose element satisfies the predicate; no earlier element does; the length when none does |
| Paths.LexLeTotalPreorder | wiki_to_discord.ts:55 | JavaScript's default string order is total and transitive, so sorting paths by it yields an ordered sequence |
| Paths.LastIndexOf | wiki_to_discord.ts:28 | `lastIndexOf` is -1 exactly when the character is absent; otherwise it is at that position and not after it |
| Paths.Basename | wiki_to_discord.ts:94 | `path.basename` is a suffix of the path with no '/' in it |
| Paths.BasenameAfterSlash | wiki_to_discord.ts:94 | The base name is everything after the last '/': a '/'-free suffix that is either the whole path or comes right after a '/' |
| Paths.BasenameOfJoin | wiki_to_discord.ts:163 | The base name of `join(dir, name)` is `name`, so a post thread is titled with the post folder's own name |
| Paths.SubstringClamps | wiki_to_discord.ts:29-34 | `substring` takes its bounds in either order, reads a negative bound as 0 and a bound past the end as the length, and between ordered in-range bounds is the plain slice |
| Paths.ExtnameMeaning | wiki_to_discord.ts:54 | `path.extname` is empty exactly when the base name is ".." or has no '.' after its first character; otherwise it is the base name's suffix from its last '.', with something before it |
| Paths.IsMarkdownBySuffix | wiki_to_discord.ts:54 | `extname(p) === '.md'` holds exactly when the base name ends in ".md" and has at least one character before it |
| Paths.Read | wiki_to_discord.ts:95-97 | `readFileSync` of each path yields that file's text, position by position |
| Paths.Entries | wiki_to_discord.ts:207-210 | `readdirSync(dir).map(join)`: the k-th path is the folder joined with its k-th entry, one per entry |
| Resolver.SplitFolderName | wiki_to_discord.ts:28-34 | Splitting at the last '_' round-trips: name + "_" + id is the folder name and the id has no '_'. Without '_' the id is the whole name and the name is empty |
| Resolver.Resolve | wiki_to_discord.ts:27-49 | A successful id fetch wins whatever the channel's kind. The name search runs only when the fetch fails; it returns the first listed guild channel that matches name, guild and filter, and returns nothing exactly when none matches |
| Resolver.ForumOnlyById | wiki_to_discord.ts:140-142 | Under the `isThread()` filter a forum channel is reached only through the id in the folder's name |
| Flat.Docs | wiki_to_discord.ts:53-55 | The documents are the Markdown paths among the posts, each as many times as it occurs there and nothing else, in sorted order; so P counts the Markdown posts |
| Flat.LiveIds | wiki_to_discord.ts:56-57 | The bot's messages are exactly the live messages the bot wrote, without repetition |
| Flat.BotOrder | wiki_to_discord.ts:56-58 | `messagesByBot` holds exactly the bot's live messages, each once |
| Flat.BotOrderSorted | wiki_to_discord.ts:58 | `messagesByBot` is ordered by creation time, oldest first |
| Flat.Reconciled | wiki_to_discord.ts:60-84 | The reconciled history grows by exactly the number of missing documents (P - M when M < P, else 0) |
| Flat.ReconciledEdits | wiki_to_discord.ts:86-107 | The bot's k-th oldest message, for k < P, ends up saying document k and is otherwise unchanged |
| Flat.ReconciledDeletes | wiki_to_discord.ts:63-70 | The bot's messages ranked P..M-1 by age are deleted, and nothing else about them changes |
| Flat.ReconciledKeeps | wiki_to_discord.ts:56-57 | Messages of other authors and already deleted messages are untouched; no message changes id, author or creation time |
| Flat.ReconciledNew | wiki_to_discord.ts:71-84 | The j-th new message is a live bot message created at clock + j that carries document M + j |
| Flat.ReconciledSent | wiki_to_discord.ts:71-84 | Every message after the old ones is such a new message, in document order |
| Flat.ReconciledWellFormed | wiki_to_discord.ts:51-119 | Reconciling keeps a history well formed: ids are positions, and creation times are distinct and below the advanced clock |
| Flat.ReconciledLive | wiki_to_discord.ts:60-84 | Afterwards the bot's live messages are exactly the kept old ones (the first min(M, P) by age) and the new ones |
| Flat.ReconciledOrder | wiki_to_discord.ts:56-58 | Afterwards `messagesByBot` in creation order is the kept old messages, oldest first, followed by the new ones |
| Flat.ReconciledContents | wiki_to_discord.ts:51-119 | Length convergence and positional content: afterwards the bot's messages in creation order say exactly the documents' texts, one per document |
| Flat.ReconciledInSync | wiki_to_discord.ts:86-107 | A channel whose bot messages already say the documents, in creation order, is left exactly as it is |
| Flat.ReconciledIdempotent | wiki_to_discord.ts:51-119 | Reconciling a reconciled channel again against the same documents changes nothing |
| Flat.TextChannel.Send | wiki_to_discord.ts:80 | `channel.send` appends a live message by the given author with the next id, stamped with the clock and advancing it, and keeps the history well formed |
| Flat.TextChannel.Edit | wiki_to_discord.ts:106 | `message.edit` changes that message's text and nothing else |
| Flat.TextChannel.Delete | wiki_to_discord.ts:68 | `message.delete` marks that message deleted and changes nothing else |
| Flat.DeleteMessages | wiki_to_discord.ts:66-69 | Every listed message is deleted; every other message is unchanged |
| Flat.SendMessages | wiki_to_discord.ts:74-83 | Each document's text is sent in order, and the returned ids are those of the new messages |
| Flat.EditMessages | wiki_to_discord.ts:86-118 | The k-th message is edited to the k-th document's text and all others are unchanged. The else branch that sends a new message (108-117) is unreachable because there is always a message for every document |
| Flat.EqualiseMessages | wiki_to_discord.ts:60-84 | After the delete-or-send step, the bot's first P messages are the kept old ones followed by the new ones, and the clock has advanced by the number sent |
| Flat.CreateRequiredMessages | wiki_to_discord.ts:51-119 | The channel's new history is `Reconciled` of the old history and the documents' texts; the history stays well formed |
| ForumSync.PostRunMeaning | wiki_to_discord.ts:162-193 | Characterises `PostRun`, one pass of the posts loop. A post completes exactly when it is a folder whose entries are all files. It yields a thread exactly when its first sorted entry can be read. That thread is the bot's, is named after the folder, and holds the texts of the files read, in sorted order |
| ForumSync.EmptyPostNoThread | wiki_to_discord.ts:174-193 | An empty post folder completes and creates no thread |
| ForumSync.ReadablePost | wiki_to_discord.ts:165-193 | A readable post creates one thread when it is non-empty and none otherwise |
| ForumSync.PostsRunCompleted | wiki_to_discord.ts:161-194 | The posts loop runs to its end exactly when every post is readable |
| ForumSync.PostsRunThreads | wiki_to_discord.ts:161-194 | When every post is readable, the loop creates one thread per non-empty post, in sorted order, holding all its files' texts |
| ForumSync.PostsRunUpToFailure | wiki_to_discord.ts:161-194 | Characterises `PostsRun`: up to the first unreadable post it creates the intended threads; that post adds what it made before its read failed, and the loop stops there. With no unreadable post it completes with the intended threads |
| ForumSync.PostsRunOwned | wiki_to_discord.ts:182-187 | Every thread the posts loop creates belongs to the bot |
| ForumSync.RebuiltOwners | wiki_to_discord.ts:154-194 | After the rebuild the threads not owned by the bot are exactly those there before, and they come first. Every thread after them is the bot's, so no old bot thread is left |
| ForumSync.ForumChannel.Delete | wiki_to_discord.ts:157 | `thread.delete` removes that thread and no other |
| ForumSync.ForumChannel.Create | wiki_to_discord.ts:182-187 | `threads.create` adds a thread with the given owner, name and first message |
| ForumSync.ForumChannel.Send | wiki_to_discord.ts:191 | `thread.send` appends a reply to that thread only |
| ForumSync.DeleteBotThreads | wiki_to_discord.ts:155-159 | Afterwards the threads are exactly the non-bot threads, in their original order |
| ForumSync.CreatePost | wiki_to_discord.ts:162-193 | One post appends the thread `PostRun` describes, if any; the result says whether every read succeeded |
| ForumSync.RebuildForum | wiki_to_discord.ts:147-194 | The forum ends as the other owners' threads followed by the threads of the posts loop. The result says whether the loop completed |
| Walker.GetSubDirsOfDir | wiki_to_discord.ts:7-25 | At most one path, non-empty exactly when some entry is a folder; it is the first such entry |
| Walker.FolderActionKinds | wiki_to_discord.ts:136-204 | Characterises `FolderAction`. A forum folder acts on a forum exactly when the id lookup yields one, and only on that one. A flat folder acts exactly when `getChannelFromFolderName` resolves to a text channel, and then on that channel. Every other outcome is skipped |
| Walker.FlatEntriesAreFiles | wiki_to_discord.ts:136-138 | In a folder without sub-folders every entry is a file |
| Walker.Classify | wiki_to_discord.ts:128-204 | A root entry that is not a folder is skipped; a folder, at the root joined with the entry, gets the action of its branch, and the channel it names is known to the walk |
| Walker.Apply | wiki_to_discord.ts:147-212 | A forum action rebuilds that forum; a text action reconciles that channel; no other channel changes; the step succeeds exactly when it is not a forum rebuild or the rebuild's posts loop completes |
| Walker.ProcessWikiFolder | wiki_to_discord.ts:121-215 | Only channels of the kind their folder's branch expects can change; every text channel stays well formed; the walk reports completion exactly when every planned forum rebuild runs to its end |

## Left out

- The Discord client (login, the ready handler, intents) and the exit timer are not modelled; neither are `yargs` options or console output.
- Network failures appear only as a missing id in the lookup by id. A failed guild listing is not modelled.
- `channel.messages.fetch()` returns at most 50 messages. The model treats the history as complete.
- `channel.threads.fetch()` returns only active threads. The forum holds only those threads, and archived threads are not modelled.
- Message creation times are taken as distinct, so ties in the `createdTimestamp` sort are not modelled.
- JavaScript compares strings by UTF-16 code unit. The model compares by character.
- `message.edit` is not awaited in the source. The model applies the edits in order.
- `path.join` normalisation (`./wiki` becomes `wiki`, `..` segments) is not modelled; a path is the folder and the entry joined with '/'.
- Symbolic links and `lstat` of a vanished entry are not modelled. `WellFormed` takes every entry to be a plain name and either a file or a folder.
- An exception in the forum branch (reading a folder as a file, or listing a file as a folder) ends the whole walk. The model returns `false` and stops there. Discord's limits on thread names and message length are not modelled.
- Walker.GetSubDirsOfDir: the source lists the folder recursively. The model looks at its own entries only. That decides emptiness in the same way, since a nested folder lies inside a direct sub-folder, but can name a different first folder. The caller only tests emptiness.
- Walker.ProcessWikiFolder: states which channels may change, that text channels stay well formed and when the walk completes, not the channels' final contents. Several folders may name the same channel, so the final contents are stated per folder by Walker.Apply.
- Walker.ProcessWikiFolder: the root's recursive listing is a parameter (`entries`) rather than computed from the tree.
