/** Forum reconciliation (the forum branch of `processWikiFolder`): every
    thread the bot owns is deleted, then each post folder, in sorted order,
    becomes one new thread that opens with the folder's first file and has
    the others as replies. */
module ForumSync {
  import opened Seqs
  import opened Paths

  /** A forum thread: who opened it, its title and its messages, oldest first. */
  datatype Thread = Thread(owner: string, name: string, messages: seq<string>)

  /** The threads that survive the deletion loop: those the bot does not
      own, in their original order. */
  function KeepOthers(ts: seq<Thread>, bot: string): seq<Thread> {
    Filter(ts, (t: Thread) => t.owner != bot)
  }

  /** A post that can be rebuilt in full: it is a folder, and every entry
      of it is a file. */
  ghost predicate Readable(fs: FileSystem, post: string) {
    post in fs.dirs && forall p :: p in Listing(fs, post) ==> p in fs.files
  }

  /** A post folder with at least one entry. */
  predicate NonEmptyPost(fs: FileSystem, post: string) {
    post in fs.dirs && fs.dirs[post] != []
  }

  /** What one post yields: the thread it created, if any, and whether every
      read succeeded. */
  datatype PostResult = PostResult(thread: Option<Thread>, ok: bool)

  /** One iteration of the posts loop: list the post folder (which fails
      when the post is a file), then read its files in sorted order, opening
      the thread with the first and replying with each further one, until a
      read fails (the entry is a folder). */
  function PostRun(fs: FileSystem, bot: string, post: string): PostResult {
    if post !in fs.dirs then PostResult(None, false)
    else
      var msgs := Listing(fs, post);
      var stop := FirstIndex(msgs, p => p !in fs.files);
      assert forall p :: p in msgs[..stop] ==> p in fs.files;
      var texts := Read(fs.files, msgs[..stop]);
      PostResult(if stop == 0 then None else Some(Thread(bot, Basename(post), texts)), stop == |msgs|)
  }

  /** A post completes exactly when it is readable; it yields a thread
      exactly when its first file can be read, and that thread is the
      bot's, named after the folder, and holds the text of the files read,
      in sorted order, all of them unless a read failed. */
  lemma PostRunMeaning(fs: FileSystem, bot: string, post: string)
    ensures var r := PostRun(fs, bot, post);
            && (r.ok <==> Readable(fs, post))
            && (r.thread.Some? <==> post in fs.dirs && Listing(fs, post) != [] && Listing(fs, post)[0] in fs.files)
    ensures var r := PostRun(fs, bot, post);
            r.thread.Some? ==>
              var msgs := Listing(fs, post);
              var t := r.thread.value;
              && t.owner == bot && t.name == Basename(post)
              && 0 < |t.messages| <= |msgs|
              && (forall k :: 0 <= k < |t.messages| ==> msgs[k] in fs.files && t.messages[k] == fs.files[msgs[k]])
              && (|t.messages| < |msgs| ==> !r.ok)
  {
    if post in fs.dirs {
      var msgs := Listing(fs, post);
      var stop := FirstIndex(msgs, p => p !in fs.files);
      assert forall k :: 0 <= k < stop ==> msgs[k] in fs.files;
      assert stop == |msgs| <==> Readable(fs, post) by {
        if stop < |msgs| {
          assert msgs[stop] in msgs;
        }
      }
    }
  }

  /** The outcome of the posts loop: the threads created, and whether the
      loop ran to its end rather than stopping at a failed read. */
  datatype Run = Run(threads: seq<Thread>, completed: bool)

  function Made(r: PostResult): seq<Thread> {
    if r.thread.Some? then [r.thread.value] else []
  }

  /** The posts loop over `posts`, in order; a failed read ends it. */
  function PostsRun(fs: FileSystem, bot: string, posts: seq<string>): Run {
    if posts == [] then Run([], true)
    else
      var before := PostsRun(fs, bot, posts[..|posts| - 1]);
      if !before.completed then before
      else
        var r := PostRun(fs, bot, posts[|posts| - 1]);
        Run(before.threads + Made(r), r.ok)
  }

  /** The thread a readable post becomes. */
  function PostThread(fs: FileSystem, bot: string, post: string): Thread
    requires Readable(fs, post)
  {
    Thread(bot, Basename(post), Read(fs.files, Listing(fs, post)))
  }

  /** The intended rebuild: one thread per non-empty post folder, in order,
      named after the folder and holding all its files' text. */
  ghost function ExpectedThreads(fs: FileSystem, bot: string, posts: seq<string>): seq<Thread>
    requires forall p :: p in posts ==> Readable(fs, p)
  {
    var full := Filter(posts, p => NonEmptyPost(fs, p));
    FilterMembers(posts, p => NonEmptyPost(fs, p));
    seq(|full|, j requires 0 <= j < |full| => PostThread(fs, bot, full[j]))
  }

  /** A folder lists as many paths as it has entries. */
  lemma ListingLength(fs: FileSystem, post: string)
    requires post in fs.dirs
    ensures |Listing(fs, post)| == |fs.dirs[post]|
  {
    SortByPermutation(Entries(fs, post), LexLe);
    assert |multiset(Listing(fs, post))| == |multiset(Entries(fs, post))|;
  }

  /** An empty post folder completes and creates no thread. */
  lemma EmptyPostNoThread(fs: FileSystem, bot: string, post: string)
    requires post in fs.dirs && fs.dirs[post] == []
    ensures PostRun(fs, bot, post) == PostResult(None, true)
  {
    ListingLength(fs, post);
  }

  /** A readable post yields its thread exactly when it is non-empty. */
  lemma ReadablePost(fs: FileSystem, bot: string, post: string)
    requires Readable(fs, post)
    ensures Made(PostRun(fs, bot, post)) == if NonEmptyPost(fs, post) then [PostThread(fs, bot, post)] else []
  {
    ListingLength(fs, post);
    PostRunMeaning(fs, bot, post);
    var msgs := Listing(fs, post);
    if msgs != [] {
      assert msgs[0] in msgs;
      var t := PostRun(fs, bot, post).thread.value;
      assert t.messages == Read(fs.files, msgs);
    }
  }

  /** The posts loop runs to its end exactly when every post is readable. */
  lemma {:induction false} PostsRunCompleted(fs: FileSystem, bot: string, posts: seq<string>)
    ensures PostsRun(fs, bot, posts).completed <==> forall p :: p in posts ==> Readable(fs, p)
  {
    if posts != [] {
      var front := posts[..|posts| - 1];
      assert posts == front + [posts[|posts| - 1]];
      PostsRunCompleted(fs, bot, front);
      PostRunMeaning(fs, bot, posts[|posts| - 1]);
    }
  }

  /** A completed posts loop creates exactly the intended threads. */
  lemma {:induction false} PostsRunThreads(fs: FileSystem, bot: string, posts: seq<string>)
    requires forall p :: p in posts ==> Readable(fs, p)
    ensures PostsRun(fs, bot, posts).threads == ExpectedThreads(fs, bot, posts)
  {
    if posts != [] {
      var n := |posts| - 1;
      var front := posts[..n];
      assert posts == front + [posts[n]];
      PostsRunThreads(fs, bot, front);
      PostsRunCompleted(fs, bot, front);
      ReadablePost(fs, bot, posts[n]);
      var full := Filter(posts, p => NonEmptyPost(fs, p));
      var part := Filter(front, p => NonEmptyPost(fs, p));
      assert full == part + (if NonEmptyPost(fs, posts[n]) then [posts[n]] else []);
    }
  }

  /** The posts loop up to its first unreadable post `posts[k]`: the
      intended threads of the posts before it, then what that post made
      before its read failed, and the loop stops there; with no unreadable
      post it completes with the intended threads. */
  lemma PostsRunUpToFailure(fs: FileSystem, bot: string, posts: seq<string>, k: nat)
    requires k <= |posts|
    requires forall p :: p in posts[..k] ==> Readable(fs, p)
    requires k < |posts| ==> !Readable(fs, posts[k])
    ensures k == |posts| ==> PostsRun(fs, bot, posts) == Run(ExpectedThreads(fs, bot, posts[..k]), true)
    ensures k < |posts| ==>
              PostsRun(fs, bot, posts)
              == Run(ExpectedThreads(fs, bot, posts[..k]) + Made(PostRun(fs, bot, posts[k])), false)
  {
    PostsRunCompleted(fs, bot, posts[..k]);
    PostsRunThreads(fs, bot, posts[..k]);
    if k == |posts| {
      assert posts[..k] == posts;
    } else {
      PostsRunStep(fs, bot, posts, k);
      PostRunMeaning(fs, bot, posts[k]);
      PostsRunStops(fs, bot, posts, k + 1);
    }
  }

  /** Every thread the posts loop creates belongs to the bot. */
  lemma {:induction false} PostsRunOwned(fs: FileSystem, bot: string, posts: seq<string>)
    ensures forall t :: t in PostsRun(fs, bot, posts).threads ==> t.owner == bot
  {
    if posts != [] {
      PostsRunOwned(fs, bot, posts[..|posts| - 1]);
      PostRunMeaning(fs, bot, posts[|posts| - 1]);
    }
  }

  /** After the rebuild the other owners' threads are exactly those there
      were, in front; every thread after them is new and the bot's, so no
      old bot thread is left. */
  lemma RebuiltOwners(ts: seq<Thread>, bot: string, fs: FileSystem, posts: seq<string>)
    ensures var kept, after := KeepOthers(ts, bot), KeepOthers(ts, bot) + PostsRun(fs, bot, posts).threads;
            && (forall t :: t in after && t.owner != bot <==> t in ts && t.owner != bot)
            && (forall k :: 0 <= k < |kept| ==> after[k].owner != bot)
            && (forall k :: |kept| <= k < |after| ==> after[k].owner == bot)
  {
    var kept, made := KeepOthers(ts, bot), PostsRun(fs, bot, posts).threads;
    var after := kept + made;
    PostsRunOwned(fs, bot, posts);
    FilterMembers(ts, (t: Thread) => t.owner != bot);
    forall k | 0 <= k < |kept| ensures after[k].owner != bot {
      assert after[k] == kept[k] && kept[k] in kept;
    }
    forall k | |kept| <= k < |after| ensures after[k].owner == bot {
      assert after[k] == made[k - |kept|] && made[k - |kept|] in made;
    }
  }

  /** Extending the loop by one post when it has not stopped. */
  lemma PostsRunStep(fs: FileSystem, bot: string, posts: seq<string>, k: nat)
    requires k < |posts| && PostsRun(fs, bot, posts[..k]).completed
    ensures var r := PostRun(fs, bot, posts[k]);
            PostsRun(fs, bot, posts[..k + 1]) == Run(PostsRun(fs, bot, posts[..k]).threads + Made(r), r.ok)
  {
    assert posts[..k + 1][..k] == posts[..k];
  }

  /** One iteration of the posts loop in terms of PostsRun: after post k
      the threads are those of the first k + 1 posts. */
  lemma PostsLoopStep(fs: FileSystem, bot: string, posts: seq<string>, k: nat, kept: seq<Thread>,
                      threads: seq<Thread>)
    requires k < |posts| && PostsRun(fs, bot, posts[..k]).completed
    requires threads == kept + PostsRun(fs, bot, posts[..k]).threads + Made(PostRun(fs, bot, posts[k]))
    ensures threads == kept + PostsRun(fs, bot, posts[..k + 1]).threads
    ensures PostsRun(fs, bot, posts[..k + 1]).completed == PostRun(fs, bot, posts[k]).ok
  {
    PostsRunStep(fs, bot, posts, k);
  }

  /** Once the loop has stopped, later posts change nothing. */
  lemma {:induction false} PostsRunStops(fs: FileSystem, bot: string, posts: seq<string>, k: nat)
    requires k <= |posts| && !PostsRun(fs, bot, posts[..k]).completed
    ensures PostsRun(fs, bot, posts) == PostsRun(fs, bot, posts[..k])
    decreases |posts| - k
  {
    if k < |posts| {
      assert posts[..k + 1][..k] == posts[..k];
      PostsRunStops(fs, bot, posts, k + 1);
    } else {
      assert posts[..k] == posts;
    }
  }

  /** A forum channel: its active threads, in listing order. */
  class ForumChannel {
    var threads: seq<Thread>

    constructor (threads: seq<Thread>)
      ensures this.threads == threads
    {
      this.threads := threads;
    }

    /** `thread.delete()` of the thread at position `k`. */
    method Delete(k: nat)
      requires k < |threads|
      modifies this
      ensures threads == old(threads[..k] + threads[k + 1..])
    {
      threads := threads[..k] + threads[k + 1..];
    }

    /** `channel.threads.create({ name, message: { content } })`: a new
        thread, opened by `owner` with one message. */
    method Create(owner: string, name: string, content: string) returns (k: nat)
      modifies this
      ensures k == |old(threads)|
      ensures threads == old(threads) + [Thread(owner, name, [content])]
    {
      k := |threads|;
      threads := threads + [Thread(owner, name, [content])];
    }

    /** `thread.send(content)`: a reply at the end of thread `k`. */
    method Send(k: nat, content: string)
      requires k < |threads|
      modifies this
      ensures threads == old(threads[k := threads[k].(messages := threads[k].messages + [content])])
    {
      threads := threads[k := threads[k].(messages := threads[k].messages + [content])];
    }
  }

  /** The deletion loop over the fetched threads: each thread the bot owns
      is deleted, every other one stays where it is. */
  method DeleteBotThreads(forum: ForumChannel, bot: string)
    modifies forum
    ensures forum.threads == KeepOthers(old(forum.threads), bot)
  {
    var existing := forum.threads;
    var k, pos := 0, 0;
    while k < |existing|
      invariant 0 <= k <= |existing|
      invariant pos == |KeepOthers(existing[..k], bot)|
      invariant forum.threads == KeepOthers(existing[..k], bot) + existing[k..]
    {
      DeletionStep(existing, bot, k, forum.threads);
      if existing[k].owner == bot {
        forum.Delete(pos);
      } else {
        pos := pos + 1;
      }
      k := k + 1;
    }
    assert existing[..k] == existing;
  }

  /** One step of the deletion loop: the thread at position `pos` is the
      k-th fetched one; deleting it when the bot owns it, or stepping over
      it otherwise, keeps the loop's shape. */
  lemma DeletionStep(existing: seq<Thread>, bot: string, k: nat, threads: seq<Thread>)
    requires k < |existing| && threads == KeepOthers(existing[..k], bot) + existing[k..]
    ensures var pos, next := |KeepOthers(existing[..k], bot)|, KeepOthers(existing[..k + 1], bot);
            && pos < |threads| && threads[pos] == existing[k]
            && (existing[k].owner == bot ==>
                  threads[..pos] + threads[pos + 1..] == next + existing[k + 1..] && |next| == pos)
            && (existing[k].owner != bot ==> threads == next + existing[k + 1..] && |next| == pos + 1)
  {
    var kept := KeepOthers(existing[..k], bot);
    assert existing[..k + 1][..k] == existing[..k];
    assert existing[k..] == [existing[k]] + existing[k + 1..];
    assert threads[..|kept|] == kept;
    assert threads[|kept| + 1..] == existing[k + 1..];
  }

  /** One post: its thread is opened with the first file and each further
      file is sent as a reply; a failed listing or read ends it. */
  method CreatePost(forum: ForumChannel, bot: string, fs: FileSystem, post: string) returns (ok: bool)
    modifies forum
    ensures forum.threads == old(forum.threads) + Made(PostRun(fs, bot, post))
    ensures ok == PostRun(fs, bot, post).ok
  {
    if post !in fs.dirs {
      return false;
    }
    var msgs := Listing(fs, post);
    var name := Basename(post);
    ghost var base := forum.threads;
    var j, at := 0, 0;
    while j < |msgs|
      invariant 0 <= j <= |msgs|
      invariant forall i :: 0 <= i < j ==> msgs[i] in fs.files
      invariant j == 0 ==> forum.threads == base
      invariant j > 0 ==> at == |base| && forum.threads == base + [Thread(bot, name, Read(fs.files, msgs[..j]))]
    {
      if msgs[j] !in fs.files {
        PostRunStopsAt(fs, bot, post, j);
        return false;
      }
      var content := fs.files[msgs[j]];
      ReadStep(fs.files, msgs, j);
      if j == 0 {
        at := forum.Create(bot, name, content);
      } else {
        ReplyStep(base, Thread(bot, name, Read(fs.files, msgs[..j])), content);
        forum.Send(at, content);
      }
      j := j + 1;
    }
    PostRunStopsAt(fs, bot, post, j);
    return true;
  }

  /** Reading one more path of a listing. */
  lemma ReadStep(files: map<string, string>, paths: seq<string>, j: nat)
    requires j < |paths| && paths[j] in files
    requires forall i :: 0 <= i < j ==> paths[i] in files
    ensures forall p :: p in paths[..j + 1] ==> p in files
    ensures Read(files, paths[..j + 1]) == Read(files, paths[..j]) + [files[paths[j]]]
    ensures j == 0 ==> Read(files, paths[..j + 1]) == [files[paths[j]]]
  {
    assert paths[..j + 1] == paths[..j] + [paths[j]];
  }

  /** A reply to the last thread extends that thread's messages. */
  lemma ReplyStep(base: seq<Thread>, t: Thread, content: string)
    ensures (base + [t])[|base| := t.(messages := t.messages + [content])]
            == base + [t.(messages := t.messages + [content])]
  {
  }

  /** PostRun when the first unreadable entry of the listing is at `j`
      (j = its length when there is none). */
  lemma PostRunStopsAt(fs: FileSystem, bot: string, post: string, j: nat)
    requires post in fs.dirs && j <= |Listing(fs, post)|
    requires forall i :: 0 <= i < j ==> Listing(fs, post)[i] in fs.files
    requires j < |Listing(fs, post)| ==> Listing(fs, post)[j] !in fs.files
    ensures PostRun(fs, bot, post).ok == (j == |Listing(fs, post)|)
    ensures Made(PostRun(fs, bot, post))
            == if j == 0 then [] else [Thread(bot, Basename(post), Read(fs.files, Listing(fs, post)[..j]))]
  {
    var msgs := Listing(fs, post);
    var stop := FirstIndex(msgs, p => p !in fs.files);
    assert stop == j;
    PostRunMeaning(fs, bot, post);
  }

  /** The forum branch: deletes every thread the bot owns, then creates one
      thread per post folder in sorted order; stops at a failed read. */
  method RebuildForum(forum: ForumChannel, bot: string, fs: FileSystem, folder: string) returns (completed: bool)
    requires folder in fs.dirs
    modifies forum
    ensures forum.threads == KeepOthers(old(forum.threads), bot) + PostsRun(fs, bot, Listing(fs, folder)).threads
    ensures completed == PostsRun(fs, bot, Listing(fs, folder)).completed
  {
    var posts := Listing(fs, folder);
    DeleteBotThreads(forum, bot);
    ghost var kept := forum.threads;
    var k := 0;
    while k < |posts|
      invariant 0 <= k <= |posts|
      invariant PostsRun(fs, bot, posts[..k]).completed
      invariant forum.threads == kept + PostsRun(fs, bot, posts[..k]).threads
    {
      var ok := CreatePost(forum, bot, fs, posts[k]);
      PostsLoopStep(fs, bot, posts, k, kept, forum.threads);
      if !ok {
        PostsRunStops(fs, bot, posts, k + 1);
        return false;
      }
      k := k + 1;
    }
    assert posts[..k] == posts;
    return true;
  }
}
