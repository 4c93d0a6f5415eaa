/** The values the danbooru cog passes around: accounts, pool annotations,
    search results, what one poll of the image board can return, messages
    to send, and the files the cog keeps on disk. */
module DanTypes {
  import opened Wrappers

  /** A Discord account as the cog uses it: `user.id`, `user.name`,
      `user.mention`. Discord compares accounts by id. */
  datatype User = User(id: nat, name: string, mention: string)

  /** A pool annotation resolved at subscribe time: `{'tag', 'name', 'id'}`.
      The name is `None` when the pool lookup did not answer with 200. */
  datatype Pool = Pool(tag: string, name: Option<string>, id: string)

  /** One search result, with `created_at` as whole seconds and `file_url`
      already made absolute by the lookup helper. */
  datatype Post = Post(
    id: nat,
    created: nat,
    fileUrl: string,
    tagString: string,
    tagStringMeta: string,
    tagStringCopyright: string)

  /** What the search capability gives back for one query in one tick:
      a (possibly empty) list, `None` for a non-200 answer, or the failure
      the scheduler's `except` clauses tell apart. */
  datatype Fetch =
    | Found(posts: seq<Post>)
    | NoAnswer
    | Transient
    | Cancelled
    | Unexpected(description: string)

  /** Where a message goes: a direct message to one account, or a channel. */
  datatype Target = DirectMessage(userId: nat) | ChannelMessage(channelId: nat)

  datatype Delivery = Delivery(target: Target, text: string)

  /** The in-memory state of one subscription (`Dansub`), as a value. */
  datatype SubState = SubState(
    users: seq<User>,
    tags: seq<string>,
    pools: seq<Pool>,
    guild: Option<nat>,
    channel: Option<nat>,
    isPrivate: bool,
    oldTimestamp: Option<nat>,
    pausedUsers: seq<nat>)

  /** The JSON document `sub_to_json` writes. Keys that files written by
      older versions may lack are `Option`s; `users` is the index-keyed
      object `{"0": {...}, "1": {...}}` in index order. */
  datatype SubRecord = SubRecord(
    users: seq<User>,
    tags: seq<string>,
    isPrivate: Option<bool>,
    server: Option<nat>,
    channel: Option<nat>,
    oldTimestamp: string,
    newTimestamp: string,
    alreadyPosted: seq<string>,
    pools: Option<seq<Pool>>,
    pausedUsers: Option<seq<nat>>)

  /** A `{'channel', 'server'}` binding, as `setup_dan` stores it. */
  datatype Binding = Binding(channel: nat, server: nat)

  /** What one file on disk holds. */
  datatype FileContent =
    | SubscriptionFile(record: SubRecord)
    | IndexFile(text: string)
    | SubChannelFile(server: nat, channel: nat)
    | TagListFile(tags: seq<string>)
    | BindingListFile(bindings: seq<Binding>)

  const SubsFile := "data/danbooru/subs.db"
  const SubChannelPath := "data/danbooru/sub_channel.json"
  const FeedDirectory := "data/danbooru/subs/"
  const BlacklistPath := "data/danbooru_cog_blacklist.json"
  const DanbooruChannelPath := "data/danbooru_channel_file.json"
  const DanbooruBase := "https://danbooru.donmai.us"

  /** The account the scheduler reports unexpected failures to. */
  const OwnerId: nat := 134310073014026242
}
