/** Channel resolution: a wiki folder named `<name>_<id>` (or just `<name>`)
    is mapped to a remote channel, first by its id, then by its name among
    the guild's channels. */
module Resolver {
  import opened Seqs
  import opened Paths

  /** The channel types the synchroniser distinguishes: guild text channels,
      forum channels, threads, direct-message channels and all others. */
  datatype Kind = Text | Forum | Thread | Dm | Other

  datatype Channel = Channel(id: string, name: string, guildId: string, kind: Kind)

  /** What the platform answers: the channel fetched by id, when the fetch
      succeeds, and the guild's channel listing. */
  datatype Directory = Directory(byId: map<string, Channel>, listed: seq<Channel>)

  /** Splits a folder name at its last '_' into display name and channel id.
      Without '_' the id is the whole name and the display name is empty,
      because `substring(0, -1)` clamps to `substring(0, 0)`. */
  function SplitFolderName(folder: string): (r: (string, string))
    ensures '_' in folder ==> r.0 + "_" + r.1 == folder && '_' !in r.1
    ensures '_' !in folder ==> r.0 == "" && r.1 == folder
  {
    var last := LastIndexOf(folder, '_');
    var name := Substring(folder, 0, last);
    var id := Substring(folder, last + 1, |folder|);
    assert 0 <= last ==> folder == folder[..last] + "_" + folder[last + 1..];
    (name, id)
  }

  /** The channel filter of forum folders, `channel.isThread()`. */
  predicate IsThread(c: Channel) {
    c.kind == Thread
  }

  /** The channel filter of flat folders, `_ => true`. */
  predicate AnyChannel(c: Channel) {
    true
  }

  /** The condition of the name search: a guild (non-DM) channel of the
      configured guild with the display name that the filter accepts. */
  predicate NameMatches(c: Channel, guild: string, name: string, accept: Channel -> bool) {
    c.kind != Dm && c.guildId == guild && c.name == name && accept(c)
  }

  /** `getChannelFromFolderName`: the channel fetched by id if there is one,
      whatever its kind; otherwise the first listed channel that the name
      search accepts; otherwise nothing. */
  function Resolve(folder: string, dir: Directory, guild: string, accept: Channel -> bool): (r: Option<Channel>)
    ensures var id := SplitFolderName(folder).1;
            id in dir.byId ==> r == Some(dir.byId[id])
    ensures var (name, id) := SplitFolderName(folder);
            id !in dir.byId ==>
              (r == None <==> forall c :: c in dir.listed ==> !NameMatches(c, guild, name, accept))
    ensures var (name, id) := SplitFolderName(folder);
            id !in dir.byId && r.Some? ==>
              exists k :: 0 <= k < |dir.listed| && dir.listed[k] == r.value
                && NameMatches(dir.listed[k], guild, name, accept)
                && forall j :: 0 <= j < k ==> !NameMatches(dir.listed[j], guild, name, accept)
  {
    var (name, id) := SplitFolderName(folder);
    if id in dir.byId then Some(dir.byId[id])
    else
      var k := FirstIndex(dir.listed, c => NameMatches(c, guild, name, accept));
      if k < |dir.listed| then Some(dir.listed[k]) else None
  }

  /** Under the `isThread()` filter the name search only ever yields threads,
      so a forum channel is reached through its id or not at all. */
  lemma ForumOnlyById(folder: string, dir: Directory, guild: string)
    ensures var r := Resolve(folder, dir, guild, IsThread);
            r.Some? && r.value.kind == Forum ==>
              SplitFolderName(folder).1 in dir.byId && r.value == dir.byId[SplitFolderName(folder).1]
  {
  }
}
