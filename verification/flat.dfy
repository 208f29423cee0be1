/** Flat-channel reconciliation (`createRequiredMessages`): the bot's
    messages in a text channel, taken in creation order, are brought to the
    number of Markdown documents in the folder and overwritten position by
    position with the documents' text. */
module Flat {
  import opened Seqs
  import opened Paths

  /** A channel message. `id` is its place in the channel's history (see
      TextChannel.Valid); a deleted message stays in the history with
      `alive` false, as the platform no longer returns it. */
  datatype Message = Message(id: nat, author: string, timestamp: int, content: string, alive: bool)

  /** A channel history as the platform keeps it: ids are positions, every
      creation timestamp is below `clock`, and no two are equal. */
  ghost predicate WellFormedHistory(s: seq<Message>, clock: int) {
    && (forall i :: 0 <= i < |s| ==> s[i].id == i && s[i].timestamp < clock)
    && (forall i: nat, j: nat :: i < j < |s| ==> Ts(s, i) != Ts(s, j))
  }

  /** The creation timestamp of message `i` (0 outside the history). */
  function Ts(s: seq<Message>, i: nat): int {
    if i < |s| then s[i].timestamp else 0
  }

  /** A message that the platform still returns and that `author` wrote. */
  predicate LiveBy(m: Message, author: string) {
    m.alive && m.author == author
  }

  function Min(a: nat, b: nat): nat {
    if a <= b then a else b
  }

  /** How many messages the equalisation step sends: P - M when M < P. */
  function Sends(m: nat, p: nat): nat {
    if m < p then p - m else 0
  }

  /** The ids n, n+1, ..., n+k-1 of k newly sent messages. */
  function NewIds(n: nat, k: nat): (r: seq<nat>)
    ensures |r| == k && forall j :: 0 <= j < k ==> r[j] == n + j
  {
    seq(k, j requires 0 <= j < k => (n + j) as nat)
  }

  /** `posts.filter(extname is ".md").sort()`. */
  function Docs(posts: seq<string>): (r: seq<string>)
    ensures forall d :: d in r <==> d in posts && IsMarkdown(d)
    ensures Sorted(r, LexLe)
    ensures forall d :: multiset(r)[d] == if IsMarkdown(d) then multiset(posts)[d] else 0
  {
    var md := Filter(posts, IsMarkdown);
    FilterMembers(posts, IsMarkdown);
    FilterMultiset(posts, IsMarkdown);
    SortByPermutation(md, LexLe);
    var r := SortBy(md, LexLe);
    LexLeTotalPreorder();
    SortBySorted(md, LexLe);
    SortByMembers(md, LexLe);
    r
  }

  /** Ids of the bot's live messages, in history order
      (`messages.filter(message.author.id === client.user.id)`). */
  function LiveIds(s: seq<Message>, bot: string): (r: seq<nat>)
    ensures NoDup(r)
    ensures forall i {:trigger i in r} {:trigger LiveBy(s[i], bot)} :: i in r <==> 0 <= i < |s| && LiveBy(s[i], bot)
  {
    if s == [] then []
    else
      var n := |s| - 1;
      var front := LiveIds(s[..n], bot);
      var r := front + (if LiveBy(s[n], bot) then [n] else []);
      assert forall i :: i in front <==> 0 <= i < n && LiveBy(s[i], bot) by {
        forall i ensures i in front <==> 0 <= i < n && LiveBy(s[i], bot) {
          if 0 <= i < n { assert s[..n][i] == s[i]; }
        }
      }
      assert forall i :: i in r <==> i in front || (i == n && LiveBy(s[n], bot));
      r
  }

  /** The comparator `(a, b) => a.createdTimestamp - b.createdTimestamp`. */
  function ByTimestamp(s: seq<Message>): (nat, nat) -> bool {
    (i: nat, j: nat) => Ts(s, i) <= Ts(s, j)
  }

  lemma ByTimestampTotal(s: seq<Message>)
    ensures TotalPreorder(ByTimestamp(s))
  {
  }

  /** `messagesByBot`: the ids of the bot's live messages sorted by creation
      timestamp, oldest first. */
  function BotOrder(s: seq<Message>, bot: string): (r: seq<nat>)
    ensures NoDup(r)
    ensures forall i {:trigger i in r} {:trigger LiveBy(s[i], bot)} :: i in r <==> 0 <= i < |s| && LiveBy(s[i], bot)
    ensures forall k :: 0 <= k < |r| ==> r[k] < |s|
  {
    ByTimestampTotal(s);
    var ids := LiveIds(s, bot);
    var r := SortBy(ids, ByTimestamp(s));
    SortByNoDup(ids, ByTimestamp(s));
    SortByMembers(ids, ByTimestamp(s));
    assert forall k :: 0 <= k < |r| ==> r[k] in r;
    r
  }

  /** `messagesByBot` is ordered by creation time, oldest first. */
  lemma BotOrderSorted(s: seq<Message>, bot: string)
    ensures var r := BotOrder(s, bot);
            forall a, b :: 0 <= a < b < |r| ==> r[a] < |s| && r[b] < |s| && s[r[a]].timestamp <= s[r[b]].timestamp
  {
    ByTimestampTotal(s);
    var r := BotOrder(s, bot);
    assert r == SortBy(LiveIds(s, bot), ByTimestamp(s));
    SortBySorted(LiveIds(s, bot), ByTimestamp(s));
    assert forall a :: 0 <= a < |r| ==> r[a] in r;
    assert Sorted(r, ByTimestamp(s));
  }

  /** Each message's rank among the bot's messages in creation order
      (|BotOrder| for the messages that are not the bot's live ones). */
  function BotRank(s: seq<Message>, bot: string): (rank: seq<nat>)
    ensures |rank| == |s|
  {
    Ranks(BotOrder(s, bot), |s|)
  }

  /** What the messages `ids` say, in that order. */
  function ContentsAt(s: seq<Message>, ids: seq<nat>): (r: seq<string>)
    requires forall k :: 0 <= k < |ids| ==> ids[k] < |s|
    ensures |r| == |ids| && forall k {:trigger r[k]} :: 0 <= k < |ids| ==> r[k] == s[ids[k]].content
  {
    seq(|ids|, k requires 0 <= k < |ids| => s[ids[k]].content)
  }

  /** What the bot's messages say, in creation order. */
  function BotContents(s: seq<Message>, bot: string): seq<string> {
    var order := BotOrder(s, bot);
    assert forall k :: 0 <= k < |order| ==> order[k] in order;
    ContentsAt(s, order)
  }

  /** The final state of one message that held rank `rank` among the `live`
      bot messages (rank >= live: not a live bot message at all). */
  function Settle(msg: Message, rank: nat, live: nat, contents: seq<string>): Message {
    if rank >= live then msg
    else if rank < |contents| then msg.(content := contents[rank])
    else msg.(alive := false)
  }

  /** The old messages after reconciling, each settled by its rank. */
  function Settled(s: seq<Message>, rank: seq<nat>, live: nat, contents: seq<string>): (r: seq<Message>)
    requires |rank| == |s|
    ensures |r| == |s|
    ensures forall i {:trigger r[i]} :: 0 <= i < |s| ==> r[i] == Settle(s[i], rank[i], live, contents)
    ensures forall i {:trigger r[i]} :: 0 <= i < |s| ==>
              r[i].id == s[i].id && r[i].author == s[i].author && r[i].timestamp == s[i].timestamp
  {
    seq(|s|, i requires 0 <= i < |s| => Settle(s[i], rank[i], live, contents))
  }

  /** The messages sent for `texts`, the first one with id `n`, created at
      `clock`, `clock + 1`, ... */
  function Sent(n: nat, clock: int, bot: string, texts: seq<string>): (r: seq<Message>)
    ensures |r| == |texts|
    ensures forall j {:trigger r[j]} :: 0 <= j < |texts| ==> r[j] == Message(n + j, bot, clock + j, texts[j], true)
  {
    seq(|texts|, j requires 0 <= j < |texts| => Message(n + j, bot, clock + j, texts[j], true))
  }

  /** The channel history after reconciling it with the document texts
      `contents`: each old message settled by its rank among the bot's
      messages, followed by the messages sent for the missing documents. */
  function Reconciled(s: seq<Message>, clock: int, bot: string, contents: seq<string>): (r: seq<Message>)
    ensures |r| == |s| + Sends(|BotOrder(s, bot)|, |contents|)
  {
    var order := BotOrder(s, bot);
    Settled(s, BotRank(s, bot), |order|, contents)
    + Sent(|s|, clock, bot, contents[Min(|order|, |contents|)..])
  }

  /** An old message after reconciling: settled by its rank. */
  lemma ReconciledAt(s: seq<Message>, clock: int, bot: string, contents: seq<string>, i: nat)
    requires i < |s|
    ensures Reconciled(s, clock, bot, contents)[i]
            == Settle(s[i], BotRank(s, bot)[i], |BotOrder(s, bot)|, contents)
  {
  }

  /** The bot's message at position k < P in creation order takes the text
      of document k. */
  lemma ReconciledEdits(s: seq<Message>, clock: int, bot: string, contents: seq<string>)
    ensures var order := BotOrder(s, bot);
            var r := Reconciled(s, clock, bot, contents);
            forall k :: 0 <= k < |order| && k < |contents| ==>
              r[order[k]] == s[order[k]].(content := contents[k])
  {
    var order := BotOrder(s, bot);
    forall k | 0 <= k < |order| && k < |contents|
      ensures Reconciled(s, clock, bot, contents)[order[k]] == s[order[k]].(content := contents[k])
    {
      ReconciledAt(s, clock, bot, contents, order[k]);
    }
  }

  /** The bot's messages at positions P..M-1 in creation order are deleted. */
  lemma ReconciledDeletes(s: seq<Message>, clock: int, bot: string, contents: seq<string>)
    ensures var order := BotOrder(s, bot);
            var r := Reconciled(s, clock, bot, contents);
            forall k :: |contents| <= k < |order| ==>
              r[order[k]] == s[order[k]].(alive := false)
  {
    var order := BotOrder(s, bot);
    forall k | |contents| <= k < |order|
      ensures Reconciled(s, clock, bot, contents)[order[k]] == s[order[k]].(alive := false)
    {
      ReconciledAt(s, clock, bot, contents, order[k]);
    }
  }

  /** Messages of other authors, and deleted ones, are never touched; no
      message changes author, id or creation time. */
  lemma ReconciledKeeps(s: seq<Message>, clock: int, bot: string, contents: seq<string>)
    ensures var r := Reconciled(s, clock, bot, contents);
            && (forall i :: 0 <= i < |s| && !LiveBy(s[i], bot) ==> r[i] == s[i])
            && (forall i :: 0 <= i < |s| ==>
                  r[i].id == s[i].id && r[i].author == s[i].author && r[i].timestamp == s[i].timestamp)
  {
    var r := Reconciled(s, clock, bot, contents);
    forall i | 0 <= i < |s|
      ensures !LiveBy(s[i], bot) ==> r[i] == s[i]
      ensures r[i].id == s[i].id && r[i].author == s[i].author && r[i].timestamp == s[i].timestamp
    {
      ReconciledAt(s, clock, bot, contents, i);
    }
  }

  /** Documents M..P-1 are sent, in order, as new live bot messages: the
      j-th new message carries document M + j. */
  lemma ReconciledNew(s: seq<Message>, clock: int, bot: string, contents: seq<string>, j: nat)
    requires j < Sends(|BotOrder(s, bot)|, |contents|)
    ensures var m := |BotOrder(s, bot)|;
            Reconciled(s, clock, bot, contents)[|s| + j] == Message(|s| + j, bot, clock + j, contents[m + j], true)
  {
    var m := |BotOrder(s, bot)|;
    assert Min(m, |contents|) == m;
    var settled := Settled(s, BotRank(s, bot), m, contents);
    var sent := Sent(|s|, clock, bot, contents[m..]);
    assert Reconciled(s, clock, bot, contents) == settled + sent;
    assert sent[j] == Message(|s| + j, bot, clock + j, contents[m + j], true);
    assert (settled + sent)[|s| + j] == sent[j];
  }

  /** Every message after the old ones is a new live bot message; the one
      at position i carries document M + (i - |s|). */
  lemma ReconciledSent(s: seq<Message>, clock: int, bot: string, contents: seq<string>)
    ensures var m, r := |BotOrder(s, bot)|, Reconciled(s, clock, bot, contents);
            forall i :: |s| <= i < |r| ==>
              m + (i - |s|) < |contents|
              && r[i] == Message(i, bot, clock + (i - |s|), contents[m + (i - |s|)], true)
  {
    var m, r := |BotOrder(s, bot)|, Reconciled(s, clock, bot, contents);
    forall i | |s| <= i < |r|
      ensures m + (i - |s|) < |contents|
      ensures r[i] == Message(i, bot, clock + (i - |s|), contents[m + (i - |s|)], true)
    {
      ReconciledNew(s, clock, bot, contents, i - |s|);
    }
  }

  /** Reconciling keeps the history well formed; the clock has advanced by
      the number of messages sent. */
  lemma ReconciledWellFormed(s: seq<Message>, clock: int, bot: string, contents: seq<string>)
    requires WellFormedHistory(s, clock)
    ensures WellFormedHistory(Reconciled(s, clock, bot, contents),
                              clock + Sends(|BotOrder(s, bot)|, |contents|))
  {
    var r := Reconciled(s, clock, bot, contents);
    var n := Sends(|BotOrder(s, bot)|, |contents|);
    forall i | |s| <= i < |r| ensures r[i].id == i && r[i].timestamp == clock + (i - |s|) < clock + n {
      ReconciledNew(s, clock, bot, contents, i - |s|);
    }
    forall i: nat, j: nat | i < j < |r| ensures Ts(r, i) != Ts(r, j) {
      if j < |s| {
        assert Ts(s, i) != Ts(s, j);
      }
    }
  }

  /** The bot's messages after reconciling, in creation order: the old
      ones that are kept (positions below min(M, P)), then the new ones. */
  function Target(s: seq<Message>, bot: string, contents: seq<string>): seq<nat> {
    var order := BotOrder(s, bot);
    order[..Min(|order|, |contents|)] + NewIds(|s|, Sends(|order|, |contents|))
  }

  lemma TargetNoDup(s: seq<Message>, bot: string, contents: seq<string>)
    ensures NoDup(Target(s, bot, contents))
  {
    var order := BotOrder(s, bot);
    var kept := order[..Min(|order|, |contents|)];
    var added := NewIds(|s|, Sends(|order|, |contents|));
    assert forall a :: 0 <= a < |kept| ==> kept[a] == order[a] && order[a] in order;
    assert Target(s, bot, contents) == kept + added;
  }

  /** The live bot messages after reconciling are exactly those of Target. */
  lemma ReconciledLive(s: seq<Message>, clock: int, bot: string, contents: seq<string>)
    ensures var r := Reconciled(s, clock, bot, contents);
            forall i: nat :: i in Target(s, bot, contents) <==> i < |r| && LiveBy(r[i], bot)
  {
    var order := BotOrder(s, bot);
    var m, p := |order|, |contents|;
    var n := Sends(m, p);
    var r := Reconciled(s, clock, bot, contents);
    var kept := order[..Min(m, p)];
    var added := NewIds(|s|, n);
    var target := Target(s, bot, contents);
    assert target == kept + added;
    var rank := BotRank(s, bot);
    forall i: nat ensures i in target <==> i < |r| && LiveBy(r[i], bot) {
      if i < |s| {
        ReconciledAt(s, clock, bot, contents, i);
        assert i !in added;
        assert rank[i] < m <==> i in order;
        assert i in order <==> LiveBy(s[i], bot);
        if rank[i] < Min(m, p) {
          assert kept[rank[i]] == i;
          assert LiveBy(r[i], bot);
        } else {
          forall a | 0 <= a < |kept| ensures kept[a] != i {
            assert rank[order[a]] == a;
          }
        }
      } else if i < |r| {
        ReconciledNew(s, clock, bot, contents, i - |s|);
        assert added[i - |s|] == i;
      } else {
        assert i !in kept && i !in added;
      }
    }
  }

  /** Target is ordered by creation time in the reconciled history. */
  lemma TargetSorted(s: seq<Message>, clock: int, bot: string, contents: seq<string>)
    requires WellFormedHistory(s, clock)
    ensures Sorted(Target(s, bot, contents), ByTimestamp(Reconciled(s, clock, bot, contents)))
  {
    var target := Target(s, bot, contents);
    var ts := ByTimestamp(Reconciled(s, clock, bot, contents));
    forall a, b | 0 <= a < b < |target| ensures ts(target[a], target[b]) {
      TargetPair(s, clock, bot, contents, a, b);
    }
  }

  lemma TargetPair(s: seq<Message>, clock: int, bot: string, contents: seq<string>, a: nat, b: nat)
    requires WellFormedHistory(s, clock)
    requires a < b < |Target(s, bot, contents)|
    ensures var r := Reconciled(s, clock, bot, contents);
            var target := Target(s, bot, contents);
            Ts(r, target[a]) <= Ts(r, target[b])
  {
    var order := BotOrder(s, bot);
    if b < Min(|order|, |contents|) {
      TargetPairKept(s, clock, bot, contents, a, b);
    } else if a < Min(|order|, |contents|) {
      TargetPairMixed(s, clock, bot, contents, a, b);
    } else {
      TargetPairAdded(s, clock, bot, contents, a, b);
    }
  }

  /** Two kept messages keep their creation times. */
  lemma TargetPairKept(s: seq<Message>, clock: int, bot: string, contents: seq<string>, a: nat, b: nat)
    requires a < b < Min(|BotOrder(s, bot)|, |contents|)
    ensures var r := Reconciled(s, clock, bot, contents);
            var target := Target(s, bot, contents);
            Ts(r, target[a]) <= Ts(r, target[b])
  {
    var order := BotOrder(s, bot);
    var target := Target(s, bot, contents);
    BotOrderSorted(s, bot);
    assert target[a] == order[a] && target[b] == order[b];
  }

  /** A kept message is older than a newly sent one. */
  lemma TargetPairMixed(s: seq<Message>, clock: int, bot: string, contents: seq<string>, a: nat, b: nat)
    requires WellFormedHistory(s, clock)
    requires a < Min(|BotOrder(s, bot)|, |contents|) <= b < |Target(s, bot, contents)|
    ensures var r := Reconciled(s, clock, bot, contents);
            var target := Target(s, bot, contents);
            Ts(r, target[a]) <= Ts(r, target[b])
  {
    var order := BotOrder(s, bot);
    var target := Target(s, bot, contents);
    var j := b - Min(|order|, |contents|);
    assert target[a] == order[a] && order[a] in order;
    assert target[b] == |s| + j;
    ReconciledNew(s, clock, bot, contents, j);
  }

  /** Newly sent messages are created in order. */
  lemma TargetPairAdded(s: seq<Message>, clock: int, bot: string, contents: seq<string>, a: nat, b: nat)
    requires Min(|BotOrder(s, bot)|, |contents|) <= a < b < |Target(s, bot, contents)|
    ensures var r := Reconciled(s, clock, bot, contents);
            var target := Target(s, bot, contents);
            Ts(r, target[a]) <= Ts(r, target[b])
  {
    var order := BotOrder(s, bot);
    var target := Target(s, bot, contents);
    var i, j := a - Min(|order|, |contents|), b - Min(|order|, |contents|);
    assert target[a] == |s| + i && target[b] == |s| + j;
    ReconciledNew(s, clock, bot, contents, i);
    ReconciledNew(s, clock, bot, contents, j);
  }

  /** After reconciling, the bot's messages in creation order are the old
      ones that were kept, oldest first, followed by the newly sent ones. */
  lemma ReconciledOrder(s: seq<Message>, clock: int, bot: string, contents: seq<string>)
    requires WellFormedHistory(s, clock)
    ensures BotOrder(Reconciled(s, clock, bot, contents), bot) == Target(s, bot, contents)
  {
    var r := Reconciled(s, clock, bot, contents);
    var target := Target(s, bot, contents);
    ReconciledWellFormed(s, clock, bot, contents);
    ReconciledLive(s, clock, bot, contents);
    TargetNoDup(s, bot, contents);
    TargetSorted(s, clock, bot, contents);
    var got := BotOrder(r, bot);
    var ts := ByTimestamp(r);
    ByTimestampTotal(r);
    BotOrderSorted(r, bot);
    assert forall a :: 0 <= a < |got| ==> got[a] in got;
    assert Sorted(got, ts);
    assert forall x :: x in got <==> x in target;
    SortedUnique(got, target, ts);
  }

  /** The reconciled messages of Target say what the documents say. */
  lemma TargetContents(s: seq<Message>, clock: int, bot: string, contents: seq<string>)
    ensures var r := Reconciled(s, clock, bot, contents);
            var target := Target(s, bot, contents);
            && |target| == |contents|
            && (forall k :: 0 <= k < |target| ==> target[k] < |r|)
            && ContentsAt(r, target) == contents
  {
    var order := BotOrder(s, bot);
    var m, p := |order|, |contents|;
    var r := Reconciled(s, clock, bot, contents);
    var target := Target(s, bot, contents);
    ReconciledEdits(s, clock, bot, contents);
    forall k | 0 <= k < p ensures target[k] < |r| && r[target[k]].content == contents[k] {
      if k < m {
        assert target[k] == order[k] && order[k] in order;
      } else {
        assert target[k] == |s| + (k - m);
        ReconciledNew(s, clock, bot, contents, k - m);
      }
    }
  }

  /** Length convergence and positional content: after reconciling, the
      bot's messages in creation order carry exactly the documents' texts,
      one message per document. */
  lemma ReconciledContents(s: seq<Message>, clock: int, bot: string, contents: seq<string>)
    requires WellFormedHistory(s, clock)
    ensures BotContents(Reconciled(s, clock, bot, contents), bot) == contents
  {
    ReconciledOrder(s, clock, bot, contents);
    TargetContents(s, clock, bot, contents);
  }

  /** Settling messages that already say what their rank asks changes
      nothing. */
  lemma {:induction false} SettledUnchanged(s: seq<Message>, order: seq<nat>, contents: seq<string>)
    requires NoDup(order) && |order| == |contents|
    requires forall k :: 0 <= k < |order| ==> order[k] < |s|
    requires ContentsAt(s, order) == contents
    ensures Settled(s, Ranks(order, |s|), |order|, contents) == s
  {
    var rank := Ranks(order, |s|);
    var r := Settled(s, rank, |order|, contents);
    forall i | 0 <= i < |s| ensures r[i] == s[i] {
      if rank[i] < |order| {
        assert ContentsAt(s, order)[rank[i]] == s[i].content;
      }
    }
  }

  /** A channel whose bot messages already say, in creation order, what
      the documents say is left as it is. */
  lemma ReconciledInSync(s: seq<Message>, clock: int, bot: string, contents: seq<string>)
    requires BotContents(s, bot) == contents
    ensures Reconciled(s, clock, bot, contents) == s
  {
    var order := BotOrder(s, bot);
    SettledUnchanged(s, order, contents);
    assert contents[Min(|order|, |contents|)..] == [];
  }

  /** Reconciling an already reconciled channel against the same documents
      changes nothing: no message is sent or deleted and every edit writes
      the text the message already has. */
  lemma ReconciledIdempotent(s: seq<Message>, clock: int, clock': int, bot: string, contents: seq<string>)
    requires WellFormedHistory(s, clock)
    ensures var r := Reconciled(s, clock, bot, contents);
            Reconciled(r, clock', bot, contents) == r
  {
    ReconciledContents(s, clock, bot, contents);
    ReconciledInSync(Reconciled(s, clock, bot, contents), clock', bot, contents);
  }

  /** Changing what messages say, or whether they are alive, keeps a
      history well formed. */
  lemma StampsKept(s: seq<Message>, t: seq<Message>, clock: int)
    requires WellFormedHistory(s, clock) && |t| == |s|
    requires forall i :: 0 <= i < |s| ==> t[i].id == s[i].id && t[i].timestamp == s[i].timestamp
    ensures WellFormedHistory(t, clock)
  {
    forall i: nat, j: nat | i < j < |t| ensures Ts(t, i) != Ts(t, j) {
      assert Ts(s, i) != Ts(s, j);
    }
  }

  /** A message stamped with the clock extends a well-formed history. */
  lemma StampsExtended(s: seq<Message>, clock: int, m: Message)
    requires WellFormedHistory(s, clock) && m.id == |s| && m.timestamp == clock
    ensures WellFormedHistory(s + [m], clock + 1)
  {
    var t := s + [m];
    forall i: nat, j: nat | i < j < |t| ensures Ts(t, i) != Ts(t, j) {
      if j < |s| {
        assert Ts(s, i) != Ts(s, j);
      }
    }
  }

  /** A text channel: its message history (deleted messages included, as
      ids are positions) and the clock that stamps new messages. */
  class TextChannel {
    var messages: seq<Message>
    var clock: int

    ghost predicate Valid()
      reads this
    {
      WellFormedHistory(messages, clock)
    }

    constructor (history: seq<Message>, clock: int)
      requires WellFormedHistory(history, clock)
      ensures Valid() && messages == history && this.clock == clock
    {
      messages := history;
      this.clock := clock;
    }

    /** `channel.send(content)`: a new live message, newer than all others. */
    method Send(author: string, content: string) returns (id: nat)
      requires Valid()
      modifies this
      ensures Valid()
      ensures id == |old(messages)|
      ensures messages == old(messages) + [Message(id, author, old(clock), content, true)]
      ensures clock == old(clock) + 1
    {
      id := |messages|;
      StampsExtended(messages, clock, Message(id, author, clock, content, true));
      messages := messages + [Message(id, author, clock, content, true)];
      clock := clock + 1;
    }

    /** `message.edit(content)`. */
    method Edit(id: nat, content: string)
      requires Valid() && id < |messages|
      modifies this
      ensures Valid()
      ensures messages == old(messages)[id := old(messages)[id].(content := content)]
      ensures clock == old(clock)
    {
      StampsKept(messages, messages[id := messages[id].(content := content)], clock);
      messages := messages[id := messages[id].(content := content)];
    }

    /** `message.delete()`. */
    method Delete(id: nat)
      requires Valid() && id < |messages|
      modifies this
      ensures Valid()
      ensures messages == old(messages)[id := old(messages)[id].(alive := false)]
      ensures clock == old(clock)
    {
      StampsKept(messages, messages[id := messages[id].(alive := false)], clock);
      messages := messages[id := messages[id].(alive := false)];
    }
  }

  /** `createRequiredMessages`: keeps the Markdown paths, sorted, and the
      bot's messages, oldest first; deletes the surplus messages or sends the
      missing documents; then edits every message to its document's text. */
  method CreateRequiredMessages(channel: TextChannel, bot: string, files: map<string, string>, posts: seq<string>)
    requires channel.Valid()
    requires forall p :: p in posts && IsMarkdown(p) ==> p in files
    modifies channel
    ensures channel.Valid()
    ensures channel.messages == Reconciled(old(channel.messages), old(channel.clock), bot, Read(files, Docs(posts)))
    ensures channel.clock == old(channel.clock) + Sends(|BotOrder(old(channel.messages), bot)|, |Docs(posts)|)
  {
    var docs := Docs(posts);
    var byBot := BotOrder(channel.messages, bot);
    ghost var s0, c0 := channel.messages, channel.clock;
    ghost var contents := Read(files, docs);

    // make the number of bot messages equal to the number of documents
    byBot := EqualiseMessages(channel, bot, files, docs, byBot);
    TargetNoDup(s0, bot, contents);
    ghost var e := channel.messages;

    // overwrite each message with its document, pairing them by position
    EditMessages(channel, byBot, files, docs);
    EditPassResult(s0, c0, bot, contents, e, byBot, channel.messages);
  }

  /** The first half of `createRequiredMessages`: deletes the bot's newest
      messages beyond the number of documents, or sends the documents that
      have no message yet; `ids` are the bot's messages afterwards, oldest
      first, of which the first P are Target. */
  method EqualiseMessages(channel: TextChannel, bot: string, files: map<string, string>, docs: seq<string>,
                          byBot: seq<nat>) returns (ids: seq<nat>)
    requires channel.Valid()
    requires forall d :: d in docs ==> d in files
    requires byBot == BotOrder(channel.messages, bot)
    modifies channel
    ensures channel.Valid()
    ensures channel.clock == old(channel.clock) + Sends(|byBot|, |docs|)
    ensures Equalised(old(channel.messages), BotRank(old(channel.messages), bot), |byBot|, old(channel.clock), bot,
                      Read(files, docs), channel.messages)
    ensures |docs| <= |ids| && ids[..|docs|] == Target(old(channel.messages), bot, Read(files, docs))
    ensures forall k :: 0 <= k < |ids| ==> ids[k] < |channel.messages|
  {
    ghost var s0, c0 := channel.messages, channel.clock;
    ghost var contents := Read(files, docs);
    var p, m := |docs|, |byBot|;
    ghost var target := Target(s0, bot, contents);
    TargetCases(s0, bot, contents);
    ids := byBot;
    if m > p {
      DeleteMessages(channel, byBot[p..]);
      DeletedEqualised(s0, c0, bot, contents, channel.messages);
    } else if m < p {
      var added := SendMessages(channel, bot, files, docs[m..]);
      SentEqualised(s0, c0, bot, files, docs, channel.messages);
      ids := byBot + added;
      assert ids[..p] == ids;
    } else {
      UnchangedEqualised(s0, c0, bot, contents);
      assert ids[..p] == ids;
    }
  }

  /** The deletion loop: every message of `ids` is deleted, in order. */
  method DeleteMessages(channel: TextChannel, ids: seq<nat>)
    requires channel.Valid()
    requires forall k :: 0 <= k < |ids| ==> ids[k] < |channel.messages|
    modifies channel
    ensures channel.Valid() && channel.clock == old(channel.clock)
    ensures |channel.messages| == |old(channel.messages)|
    ensures forall i :: 0 <= i < |channel.messages| ==>
              channel.messages[i] == if i in ids then old(channel.messages)[i].(alive := false)
                                     else old(channel.messages)[i]
  {
    var k := 0;
    while k < |ids|
      invariant 0 <= k <= |ids|
      invariant channel.Valid() && channel.clock == old(channel.clock)
      invariant |channel.messages| == |old(channel.messages)|
      invariant forall i :: 0 <= i < |channel.messages| ==>
                  channel.messages[i] == if i in ids[..k] then old(channel.messages)[i].(alive := false)
                                         else old(channel.messages)[i]
    {
      channel.Delete(ids[k]);
      assert ids[..k + 1] == ids[..k] + [ids[k]];
      k := k + 1;
    }
    assert ids[..k] == ids;
  }

  /** The sending loop: the text of each path is sent, in order; returns
      the ids of the new messages. */
  method SendMessages(channel: TextChannel, author: string, files: map<string, string>, paths: seq<string>)
    returns (ids: seq<nat>)
    requires channel.Valid()
    requires forall p :: p in paths ==> p in files
    modifies channel
    ensures channel.Valid()
    ensures channel.messages
            == old(channel.messages) + Sent(|old(channel.messages)|, old(channel.clock), author, Read(files, paths))
    ensures channel.clock == old(channel.clock) + |paths|
    ensures ids == NewIds(|old(channel.messages)|, |paths|)
  {
    ghost var s0, c0 := channel.messages, channel.clock;
    ghost var texts := Read(files, paths);
    ids := [];
    var k := 0;
    while k < |paths|
      invariant 0 <= k <= |paths|
      invariant channel.Valid() && channel.clock == c0 + k
      invariant channel.messages == s0 + Sent(|s0|, c0, author, texts[..k])
      invariant ids == NewIds(|s0|, k)
    {
      var id := channel.Send(author, files[paths[k]]);
      assert Sent(|s0|, c0, author, texts[..k + 1])
             == Sent(|s0|, c0, author, texts[..k]) + [Message(id, author, c0 + k, texts[k], true)];
      ids := ids + [id];
      k := k + 1;
    }
    assert texts[..k] == texts;
  }

  /** The edit loop: the k-th message of `ids` is edited to the text of the
      k-th path. `ids` always holds a message for every path, so the
      source's fallback of sending a new message is never taken. */
  method EditMessages(channel: TextChannel, ids: seq<nat>, files: map<string, string>, paths: seq<string>)
    requires channel.Valid()
    requires forall p :: p in paths ==> p in files
    requires |paths| <= |ids| && NoDup(ids[..|paths|])
    requires forall k :: 0 <= k < |paths| ==> ids[k] < |channel.messages|
    modifies channel
    ensures channel.Valid() && channel.clock == old(channel.clock)
    ensures |channel.messages| == |old(channel.messages)|
    ensures forall k :: 0 <= k < |paths| ==>
              channel.messages[ids[k]] == old(channel.messages)[ids[k]].(content := files[paths[k]])
    ensures forall i :: 0 <= i < |channel.messages| && i !in ids[..|paths|] ==>
              channel.messages[i] == old(channel.messages)[i]
  {
    var k := 0;
    while k < |paths|
      invariant 0 <= k <= |paths|
      invariant channel.Valid() && channel.clock == old(channel.clock)
      invariant |channel.messages| == |old(channel.messages)|
      invariant forall j :: 0 <= j < k ==>
                  channel.messages[ids[j]] == old(channel.messages)[ids[j]].(content := files[paths[j]])
      invariant forall i :: 0 <= i < |channel.messages| && i !in ids[..k] ==>
                  channel.messages[i] == old(channel.messages)[i]
    {
      if k < |ids| {
        NextOfNoDupPrefix(ids, |paths|, k);
        channel.Edit(ids[k], files[paths[k]]);
      } else {
        assert false;
      }
      k := k + 1;
    }
  }

  /** The next element of a duplicate-free prefix is new. */
  lemma NextOfNoDupPrefix(ids: seq<nat>, n: nat, k: nat)
    requires k < n <= |ids| && NoDup(ids[..n])
    ensures ids[..k + 1] == ids[..k] + [ids[k]]
    ensures ids[k] !in ids[..k]
    ensures forall j :: 0 <= j < k ==> ids[j] != ids[k]
  {
    forall j | 0 <= j < k ensures ids[j] != ids[k] {
      assert ids[..n][j] != ids[..n][k];
    }
    assert ids[..k + 1] == ids[..k] + [ids[k]];
  }

  /** After deleting the bot's messages ranked P..M-1 the history is
      equalised. */
  lemma DeletedEqualised(s0: seq<Message>, c0: int, bot: string, contents: seq<string>, e: seq<Message>)
    requires |contents| < |BotOrder(s0, bot)|
    requires |e| == |s0|
    requires forall i :: 0 <= i < |e| ==>
               e[i] == if i in BotOrder(s0, bot)[|contents|..] then s0[i].(alive := false) else s0[i]
    ensures Equalised(s0, BotRank(s0, bot), |BotOrder(s0, bot)|, c0, bot, contents, e)
  {
    var order := BotOrder(s0, bot);
    forall i | 0 <= i < |s0| ensures i in order[|contents|..] <==> |contents| <= BotRank(s0, bot)[i] < |order| {
      SuffixRank(order, |s0|, |contents|, i);
    }
  }

  /** A position belongs to the suffix from `p` exactly when its rank is at
      least `p`. */
  lemma SuffixRank(order: seq<nat>, n: nat, p: nat, i: nat)
    requires NoDup(order) && p <= |order| && i < n
    requires forall k :: 0 <= k < |order| ==> order[k] < n
    ensures i in order[p..] <==> p <= Ranks(order, n)[i] < |order|
  {
    var rank := Ranks(order, n);
    if p <= rank[i] < |order| {
      assert order[p..][rank[i] - p] == i;
    }
    if i in order[p..] {
      var a :| 0 <= a < |order| - p && order[p..][a] == i;
      assert rank[order[p + a]] == p + a;
    }
  }

  /** After sending documents M..P-1 the history is equalised. */
  lemma SentEqualised(s0: seq<Message>, c0: int, bot: string, files: map<string, string>, docs: seq<string>,
                      e: seq<Message>)
    requires forall d :: d in docs ==> d in files
    requires |BotOrder(s0, bot)| < |docs|
    requires e == s0 + Sent(|s0|, c0, bot, Read(files, docs[|BotOrder(s0, bot)|..]))
    ensures Equalised(s0, BotRank(s0, bot), |BotOrder(s0, bot)|, c0, bot, Read(files, docs), e)
  {
    var m, contents := |BotOrder(s0, bot)|, Read(files, docs);
    var added := Sent(|s0|, c0, bot, Read(files, docs[m..]));
    forall i | |s0| <= i < |e|
      ensures e[i] == Message(i, bot, c0 + (i - |s0|), contents[m + (i - |s0|)], true)
    {
      assert e[i] == added[i - |s0|];
    }
  }

  /** When there are as many bot messages as documents nothing changes. */
  lemma UnchangedEqualised(s0: seq<Message>, c0: int, bot: string, contents: seq<string>)
    requires |BotOrder(s0, bot)| == |contents|
    ensures Equalised(s0, BotRank(s0, bot), |BotOrder(s0, bot)|, c0, bot, contents, s0)
  {
  }

  /** The edit pass over the bot's messages after equalisation, whose
      first P are Target, completes the reconciliation. */
  lemma EditPassResult(s0: seq<Message>, c0: int, bot: string, contents: seq<string>, e: seq<Message>,
                       ids: seq<nat>, final: seq<Message>)
    requires Equalised(s0, BotRank(s0, bot), |BotOrder(s0, bot)|, c0, bot, contents, e)
    requires |contents| <= |ids| && ids[..|contents|] == Target(s0, bot, contents)
    requires NoDup(Target(s0, bot, contents))
    requires forall k :: 0 <= k < |contents| ==> ids[k] < |e|
    requires |final| == |e|
    requires forall k :: 0 <= k < |contents| ==> final[ids[k]] == e[ids[k]].(content := contents[k])
    requires forall i :: 0 <= i < |e| && i !in ids[..|contents|] ==> final[i] == e[i]
    ensures final == Reconciled(s0, c0, bot, contents)
  {
    var target := Target(s0, bot, contents);
    assert forall k :: 0 <= k < |contents| ==> ids[k] == target[k];
    SyncedByEdits(e, target, contents, final);
    SyncPassResult(s0, c0, bot, contents, e, final);
  }

  /** Editing the messages of `target` in order is the sync pass over its
      ranks. */
  lemma SyncedByEdits(e: seq<Message>, target: seq<nat>, contents: seq<string>, final: seq<Message>)
    requires NoDup(target) && |target| == |contents|
    requires forall k :: 0 <= k < |target| ==> target[k] < |e|
    requires |final| == |e|
    requires forall k :: 0 <= k < |target| ==> final[target[k]] == e[target[k]].(content := contents[k])
    requires forall i :: 0 <= i < |e| && i !in target ==> final[i] == e[i]
    ensures Synced(e, Ranks(target, |e|), contents, final)
  {
    var tr := Ranks(target, |e|);
    forall i | 0 <= i < |e|
      ensures final[i] == if tr[i] < |contents| then e[i].(content := contents[tr[i]]) else e[i]
    {
      if tr[i] < |contents| {
        assert target[tr[i]] == i;
      }
    }
  }

  /** The history after equalisation: the bot messages ranked P..M-1
      deleted, or the missing documents sent. */
  ghost predicate Equalised(s0: seq<Message>, rank: seq<nat>, m: nat, c0: int, bot: string, contents: seq<string>,
                            e: seq<Message>)
    requires |rank| == |s0|
  {
    var p := |contents|;
    && |e| == |s0| + Sends(m, p)
    && (forall i :: 0 <= i < |s0| ==>
          e[i] == if p <= rank[i] < m then s0[i].(alive := false) else s0[i])
    && (forall i :: |s0| <= i < |e| ==>
          e[i] == Message(i, bot, c0 + (i - |s0|), contents[m + (i - |s0|)], true))
  }

  /** The history after the sync pass: each message of rank k < P in the
      edit order (`tr`) edited to text k, all others as they were. */
  ghost predicate Synced(e: seq<Message>, tr: seq<nat>, contents: seq<string>, final: seq<Message>)
    requires |tr| == |e|
  {
    && |final| == |e|
    && (forall i :: 0 <= i < |e| ==>
          final[i] == if tr[i] < |contents| then e[i].(content := contents[tr[i]]) else e[i])
  }

  /** Target is the first P bot messages when there are enough of them,
      otherwise all of them followed by the new ones. */
  lemma TargetCases(s: seq<Message>, bot: string, contents: seq<string>)
    ensures var order := BotOrder(s, bot);
            |contents| <= |order| ==> Target(s, bot, contents) == order[..|contents|]
    ensures var order := BotOrder(s, bot);
            |order| < |contents| ==> Target(s, bot, contents) == order + NewIds(|s|, |contents| - |order|)
  {
    var order := BotOrder(s, bot);
    if |contents| <= |order| {
      assert NewIds(|s|, 0) == [];
    } else {
      assert order[..|order|] == order;
    }
  }

  /** Target's shape: the kept messages, then the new ones in order. */
  lemma TargetShape(s: seq<Message>, bot: string, contents: seq<string>)
    ensures var order, target := BotOrder(s, bot), Target(s, bot, contents);
            var q := Min(|order|, |contents|);
            && |target| == q + Sends(|order|, |contents|)
            && (forall k :: 0 <= k < q ==> target[k] == order[k])
            && (forall k :: q <= k < |target| ==> target[k] == |s| + (k - q))
  {
  }

  /** Target as SyncPassEqual uses it: duplicate-free, one id per document,
      the kept messages (ids below n) and then the new ids n, n+1, ... */
  ghost predicate TargetShaped(n: nat, order: seq<nat>, contents: seq<string>, target: seq<nat>) {
    var q := Min(|order|, |contents|);
    && NoDup(target) && |target| == |contents|
    && (forall k :: 0 <= k < q ==> target[k] == order[k])
    && (forall k :: q <= k < |target| ==> target[k] == n + (k - q))
  }

  lemma TargetIsShaped(s: seq<Message>, bot: string, contents: seq<string>)
    ensures TargetShaped(|s|, BotOrder(s, bot), contents, Target(s, bot, contents))
  {
    TargetNoDup(s, bot, contents);
    TargetShape(s, bot, contents);
  }

  /** The reconciled history `r`, message by message: old messages settled
      by their rank, then the sent ones. */
  ghost predicate SettledThenSent(s0: seq<Message>, order: seq<nat>, rank: seq<nat>, c0: int, bot: string,
                                  contents: seq<string>, r: seq<Message>)
    requires |rank| == |s0|
  {
    && |r| == |s0| + Sends(|order|, |contents|)
    && (forall i :: 0 <= i < |s0| ==> r[i] == Settle(s0[i], rank[i], |order|, contents))
    && (forall i :: |s0| <= i < |r| ==>
          |order| + (i - |s0|) < |contents|
          && r[i] == Message(i, bot, c0 + (i - |s0|), contents[|order| + (i - |s0|)], true))
  }

  lemma ReconciledIsSettledThenSent(s0: seq<Message>, c0: int, bot: string, contents: seq<string>)
    ensures SettledThenSent(s0, BotOrder(s0, bot), BotRank(s0, bot), c0, bot, contents,
                            Reconciled(s0, c0, bot, contents))
  {
    forall i | 0 <= i < |s0|
      ensures Reconciled(s0, c0, bot, contents)[i] == Settle(s0[i], BotRank(s0, bot)[i], |BotOrder(s0, bot)|, contents)
    {
      ReconciledAt(s0, c0, bot, contents, i);
    }
    ReconciledSent(s0, c0, bot, contents);
  }

  /** Equalising and then editing the messages of Target in order yields
      the reconciled history. */
  lemma SyncPassResult(s0: seq<Message>, c0: int, bot: string, contents: seq<string>,
                       e: seq<Message>, final: seq<Message>)
    requires Equalised(s0, BotRank(s0, bot), |BotOrder(s0, bot)|, c0, bot, contents, e)
    requires NoDup(Target(s0, bot, contents))
    requires Synced(e, Ranks(Target(s0, bot, contents), |e|), contents, final)
    ensures final == Reconciled(s0, c0, bot, contents)
  {
    var order, rank, target := BotOrder(s0, bot), BotRank(s0, bot), Target(s0, bot, contents);
    TargetIsShaped(s0, bot, contents);
    ReconciledIsSettledThenSent(s0, c0, bot, contents);
    SyncPassEqual(s0, order, rank, c0, bot, contents, target, Ranks(target, |e|), e, final,
                  Reconciled(s0, c0, bot, contents));
  }

  /** The sync pass, over the facts it needs: equalised history `e`, target
      order and the expected result `r`, message by message. */
  lemma {:induction false} SyncPassEqual(s0: seq<Message>, order: seq<nat>, rank: seq<nat>, c0: int, bot: string,
                    contents: seq<string>, target: seq<nat>, tr: seq<nat>, e: seq<Message>, final: seq<Message>,
                    r: seq<Message>)
    requires NoDup(order) && rank == Ranks(order, |s0|)
    requires TargetShaped(|s0|, order, contents, target)
    requires Equalised(s0, rank, |order|, c0, bot, contents, e)
    requires tr == Ranks(target, |e|)
    requires Synced(e, tr, contents, final)
    requires SettledThenSent(s0, order, rank, c0, bot, contents, r)
    ensures final == r
  {
    forall i | 0 <= i < |final| ensures final[i] == r[i] {
      if i < |s0| {
        SyncPassOld(s0, order, rank, c0, bot, contents, target, tr, e, final, i);
      } else {
        SyncPassNew(s0, order, rank, c0, bot, contents, target, tr, e, final, i);
      }
    }
  }

  /** An old message ends the sync pass settled by its rank. */
  lemma {:induction false} SyncPassOld(s0: seq<Message>, order: seq<nat>, rank: seq<nat>, c0: int, bot: string,
                    contents: seq<string>, target: seq<nat>, tr: seq<nat>, e: seq<Message>, final: seq<Message>, i: nat)
    requires NoDup(order) && rank == Ranks(order, |s0|)
    requires NoDup(target) && |target| == |contents|
    requires forall k :: 0 <= k < Min(|order|, |contents|) ==> target[k] == order[k]
    requires forall k :: Min(|order|, |contents|) <= k < |target| ==> target[k] >= |s0|
    requires Equalised(s0, rank, |order|, c0, bot, contents, e)
    requires tr == Ranks(target, |e|)
    requires Synced(e, tr, contents, final)
    requires i < |s0|
    ensures final[i] == Settle(s0[i], rank[i], |order|, contents)
  {
    var q, k := Min(|order|, |contents|), tr[i];
    assert rank[i] < q ==> target[rank[i]] == i;
    assert k < |contents| ==> target[k] == i;
  }

  /** The j-th sent message ends the sync pass as it was sent. */
  lemma {:induction false} SyncPassNew(s0: seq<Message>, order: seq<nat>, rank: seq<nat>, c0: int, bot: string,
                    contents: seq<string>, target: seq<nat>, tr: seq<nat>, e: seq<Message>, final: seq<Message>, i: nat)
    requires NoDup(target) && |target| == |contents|
    requires forall k :: Min(|order|, |contents|) <= k < |target| ==>
               target[k] == |s0| + (k - Min(|order|, |contents|))
    requires |rank| == |s0| && Equalised(s0, rank, |order|, c0, bot, contents, e)
    requires tr == Ranks(target, |e|)
    requires Synced(e, tr, contents, final)
    requires |s0| <= i < |final|
    ensures |order| + (i - |s0|) < |contents|
    ensures final[i] == Message(i, bot, c0 + (i - |s0|), contents[|order| + (i - |s0|)], true)
  {
    assert Min(|order|, |contents|) == |order|;
    assert target[|order| + (i - |s0|)] == i;
  }

}
