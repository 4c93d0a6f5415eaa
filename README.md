# A verified model of the bot's danbooru subscriptions and meme-off rounds

This project models two cogs of a Discord bot and proves properties of the model.

**The danbooru cog** (`cogs/danbooru.py`) lets users subscribe to danbooru tag searches.
- Subscriptions are shared, bound to a guild channel, or private and delivered by direct message.
- Once a minute a scheduler polls every subscription.
- It posts the images that are newer than the subscription's timestamp watermark, then moves the watermark forward.
- Each subscription is saved as a JSON record. An index file lists the paths of the records, and the records are reloaded from it at start up.
- The `dans` commands add users to the list of subscriptions and remove them: `sub`, `unsub`, `pause` and `unpause`.
- The cog also keeps a tag blacklist and a list of channels bound to danbooru commands.

**The meme-off cog** (`cogs/meme_off.py`) runs rounds of a meme contest.
- A round has a timer with a deadline.
- Users submit template links, kept in one bag per user.
- A rotation draws one template at a time from the submitters; the drawn template is pinned.
- Pinning and unpinning are restricted to the pinner or a moderator.

The model has one module per concern:

| file | module | what it holds |
|---|---|---|
| `wrappers.dfy` | `Wrappers` | `Option` and `Result` |
| `strings.dfy` | `Strings` | the Python string and list operations the cogs use (`startswith`, `in`, `split`, `join`, `list.remove`, `str`/`int` of integers) |
| `sorting.dfy` | `Sorting` | Python's string order and `sorted`, proved to be the unique sorted permutation |
| `dan_types.dfy` | `DanTypes` | users, pools, posts, subscription states, files, fetch answers and messages |
| `dan_helper.dfy` | `DanHelper` | `build_url`, `_add_blacklist_to_tags`, `build_message` |
| `dansub.dfy` | `Subscription` | the file-name key, mentions, the skip rule, the tag line, and the `Dansub` class |
| `chunking.dfy` | `Chunking` | the two message chunkers |
| `persistence.dfy` | `Persistence` | the record and index formats, the reload of a record, and the `Disk` class that holds the files |
| `polling.dfy` | `Polling` | the value specification of one tick: new-post detection, the watermark, messages, the exception handlers and the files written |
| `scheduler.dfy` | `Schedule` | the `Scheduler` class, with each method proved against `Polling` and `Persistence` |
| `commands.dfy` | `Commands` | the value specification of the blacklist commands, `setup_dan`, `sub`, `unsub`, `pause` and `unpause` |
| `cog.dfy` | `Cog` | the `DanbooruCog` class, with each command proved against `Commands` |
| `meme_off.dfy` | `MemeOffRounds` | template bags, duration parsing, the deadline breakdown, the rotation, and the `MemeOff` state machine |

Imperative code is modelled imperatively:
- The mutable objects (`Dansub`, `Scheduler`, the cog and its files, `TemplateSubmission`, `MemeOff`) are classes.
- Their methods carry `modifies` clauses.
- Loops for the tick, the chunkers, `sub`, `unsub`, `pause`, `unpause` and the template rotation are `while` loops.

Each such method is proved equal to a value function of the old state. The properties the program promises are then proved as lemmas about those functions.

How the outside world appears in the model:
- **Time.** Timestamps are whole seconds.
- **Files.** The file system is a map from path to content.
- **Searches.** The danbooru search is a function from the query to a fetch answer. A fetch answer is a list of posts, a transient network failure, a cancellation or an unexpected error.
- **Pool lookups.** The pool lookup is a function from pool id to name.
- **Discord.** Users (`get_user`) and guild members (`get_member`) are looked up in a directory value, which also lists the guilds the bot is in. Channels are not looked up: a channel id is stored as given, and `sub` stores the guild id of `sub_channel.json` without looking it up (see "## Left out").
- **Randomness.** `random.choice` and `random.shuffle` become an index and a permutation passed in by the caller.
- **Messages.** Messages sent are returned as a list of deliveries, each a target plus text.

## Model

| member | source | states |
|---|---|---|
| `DanHelper.BuildUrl` | cogs/danbooru.py:76-81 | an `http` URL is returned unchanged; otherwise the result is the base, one `/` (added only when the URL lacks it) and the URL, with the length to match; a relative URL must be non-empty since `file_url[0]` is read |
| `DanHelper.BuildUrlIdempotent` | cogs/danbooru.py:76-81 | with an absolute base, building a built URL again changes nothing |
| `DanHelper.JoinNegated` | cogs/danbooru.py:419 | `' -' + ' -'.join(blacklist)` is one ` -tag` term per blacklisted tag, in order |
| `DanHelper.AddBlacklistToTags` | cogs/danbooru.py:417-421 | `_add_blacklist_to_tags`: the tags followed by ` -` and the blacklist joined with ` -`, or the tags alone for an empty blacklist |
| `DanHelper.AddBlacklistSpec` | cogs/danbooru.py:417-421 | the search is the user's tags followed by one ` -tag` term per blacklisted tag; an empty blacklist leaves the tags as they were |
| `DanHelper.BuildMessage` | cogs/danbooru.py:725-736 | `build_message`: the post page for a translated post, else the file URL; wrapped after the copyright in spoiler bars for a spoiler; followed by the author's mention when sent in another channel |
| `DanHelper.BuildMessageSpec` | cogs/danbooru.py:725-736 | the reply always contains the post link (post page for translated posts); spoilers are wrapped after the copyright; a reply in another channel ends with the author's mention; otherwise it is the bare link |
| `Subscription.Sanitize` | cogs/danbooru.py:123 | `re.sub('[^\w\-_\.]', '_', s)`: each character outside word characters, `-` and `.` becomes `_` |
| `Subscription.SanitizeSpec` | cogs/danbooru.py:121-125 | the file-name substitution keeps the length, keeps every allowed character in place, and puts `_` exactly where a character outside `[\w\-_.]` was |
| `Subscription.SanitizedIsSafe` | cogs/danbooru.py:121-125 | every character of a sanitised name is a word character, `-` or `.` |
| `Subscription.FeedPath` | cogs/danbooru.py:100 | `feed_file`: `data/danbooru/subs/`, the key, then `.json` |
| `Subscription.Key` | cogs/danbooru.py:120-125 | `tags_to_filename`: the sanitised space-joined tags, followed for a private subscription by the owner's id in decimal |
| `Subscription.FeedPathIsNotIndex` | cogs/danbooru.py:100 | no feed file path is the index file `data/danbooru/subs.db` |
| `Subscription.FeedPathSafe` | cogs/danbooru.py:100 | a feed path lies directly in `data/danbooru/subs/`, ends in `.json`, and its key holds only allowed characters |
| `Subscription.FeedPathHasNoLineBreakOrQuote` | cogs/danbooru.py:249-252 | a feed path is non-empty and holds no newline and no quote, so the index file's line splitting and quote stripping give it back intact |
| `Subscription.PrivateKeysCanCollide` | cogs/danbooru.py:122-123 | the owner id is appended without a separator, so two different private subscriptions can share one feed file |
| `Subscription.MentionText` | cogs/danbooru.py:108-110 | `users_to_mention`: the comma-joined mentions of the users whose id is not paused, in list order |
| `Subscription.Active` | cogs/danbooru.py:109 | the users whose id is not among the paused ids, in list order |
| `Subscription.ActiveSpec` | cogs/danbooru.py:108-110 | a user is mentioned exactly when subscribed and not paused; order is kept and nobody is added; with no one paused all users are mentioned |
| `Subscription.DormantAsWritten` | cogs/danbooru.py:192 | the skip test as written: private with any paused id, or as many paused ids as users |
| `Subscription.IsDormant` | cogs/danbooru.py:192 | the corrected skip test: private with any paused id, or every user's id paused |
| `Subscription.DormantIffNobodyActive` | cogs/danbooru.py:192 | under the intended skip rule a shared subscription is skipped exactly when nobody would be mentioned |
| `Subscription.DormantAsWrittenSilencesActiveUser` | cogs/danbooru.py:192 | the counting rule as written skips a shared subscription whose first user paused twice although the second user is active |
| `Subscription.DormantAsWrittenCountsStaleIds` | cogs/danbooru.py:192 | the counting rule as written keeps counting the paused id of a user who has since unsubscribed |
| `Subscription.DormantRulesAgreeWhenPausedIdsAreClean` | cogs/danbooru.py:192 | with distinct user ids and distinct paused ids that all belong to users, the written rule and the intended rule agree, both ways |
| `Subscription.PoolLabel` | cogs/danbooru.py:134 | `'{0[name]}({0[tag]})'.format(pool)`: the pool's name (`None` when unnamed), then its tag in parentheses |
| `Subscription.PoolPass` | cogs/danbooru.py:131-135 | the inner loop for one tag: each pool whose tag equals the current text removes that text's first occurrence, appends its label, and the label becomes the current text |
| `Subscription.RewriteTags` | cogs/danbooru.py:128-135 | the outer loop over a prefix of the tags: each tag containing `pool:` goes through the pool pass, in tag order |
| `Subscription.RewriteStep` | cogs/danbooru.py:129-135 | one turn of the `tags_to_message` loop extends the rewritten list by that tag's pool pass and keeps the tags still to come in the list |
| `Subscription.PoolPassKeeps` | cogs/danbooru.py:131-135 | the pool loop for one tag keeps the list's length and every other tag of the list |
| `Subscription.RewriteTagsKeeps` | cogs/danbooru.py:128-135 | the outer loop keeps the list's length and the tags not yet visited |
| `Subscription.MessageTags` | cogs/danbooru.py:127-136 | `tags_to_message` before the join: the copy of the tags after each `pool:` tag is replaced by its pool's `name(tag)`, through `RewriteTags` over the tags in order |
| `Subscription.MessageTagsLength` | cogs/danbooru.py:127-136 | the tag line lists as many entries as the subscription has tags |
| `Subscription.PoolPassNoMatch` | cogs/danbooru.py:131-135 | a tag that no pool names is left alone |
| `Subscription.RewriteTagsNoMatch` | cogs/danbooru.py:128-135 | when no pool names any tag the rewritten list is the copy itself |
| `Subscription.MessageTagsWithoutPools` | cogs/danbooru.py:127-136 | tags no pool annotation names are shown exactly as stored |
| `Subscription.MessageTagsExample` | cogs/danbooru.py:127-136 | a pool tag is removed and appended at the end as `name(tag)` |
| `Subscription.MatchingPool` | cogs/danbooru.py:131-132 | the first pool annotation whose tag equals the tag, or none when no annotation has that tag |
| `Subscription.PoolPassOnce` | cogs/danbooru.py:131-135 | when no label is itself a pool's tag, the pool loop removes the tag and appends the first matching pool's `name(tag)`, or changes nothing when no pool matches |
| `Subscription.NamedTagStep` | cogs/danbooru.py:130-135 | one turn of the outer loop on a named tag takes that tag out of the working list and appends its label |
| `Subscription.UnnamedTagStep` | cogs/danbooru.py:130-135 | one turn on a tag no pool names (or one without `pool:`) leaves the working list alone |
| `Subscription.RewriteTagsPrefix` | cogs/danbooru.py:128-135 | after the first n tags, the working list is the unnamed tags seen so far, then the tags not yet visited, then the labels added so far |
| `Subscription.MessageTagsMovesPoolTagsToEnd` | cogs/danbooru.py:127-136 | for any tags and pools where no label is a pool tag and each pool-named tag occurs once, the tag line is the unnamed tags in order followed by the pool labels of the named tags in visiting order |
| `Subscription.Dansub.constructor` | cogs/danbooru.py:85-104 | users, pools, privacy and paused ids are stored; tags are sorted in place; guild and channel only for a shared subscription; the watermark starts unset; the feed path is derived from the sorted tags and the owner |
| `Subscription.Dansub.UsersToMention` | cogs/danbooru.py:108-110 | `users_to_mention` on the object: the mention text of its users and paused ids |
| `Subscription.Dansub.TagsToFilename` | cogs/danbooru.py:120-125 | `tags_to_filename` on the object: the key of its tags, privacy and owner |
| `Subscription.Dansub.TagsToString` | cogs/danbooru.py:112-114 | the tags are sorted in place (a no-op on sorted tags) and space-joined |
| `Subscription.Dansub.CompareTags` | cogs/danbooru.py:116-118 | the caller's list comes back sorted, and the answer is true exactly when it holds the same tags as the subscription with duplicates counted, in any order |
| `Subscription.Dansub.WriteSubToFile` | cogs/danbooru.py:143-168 | the feed file is replaced by the subscription's record and no other file changes |
| `Subscription.Dansub.TagsToMessage` | cogs/danbooru.py:127-136 | the result is the space-join of the tags with each pool tag rewritten and moved to the end, computed on a copy (the tags themselves are not changed) |
| `Subscription.Dansub.ReplacePoolTag` | cogs/danbooru.py:131-135 | the pool loop for one tag gives the pool pass of that tag; each `remove` finds its text |
| `Sorting.LexLeTotal` | cogs/danbooru.py:113 | Python's string order compares any two tags, so `sort()` is defined on every tag list |
| `Sorting.LexLeAntisymmetric` | cogs/danbooru.py:113 | two tags that sort both ways round are the same tag |
| `Sorting.LexLeTransitive` | cogs/danbooru.py:113 | the string order is transitive |
| `Sorting.SortPermutes` | cogs/danbooru.py:112-118 | sorting keeps every tag with its multiplicity: duplicates are kept and nothing is added |
| `Sorting.SortStrings` | cogs/danbooru.py:113 | `list.sort()` on strings: the same strings in Python's code-point order, computed by insertion; only the result matters (see `Sorting.SortSorts` and `Sorting.SortPermutes`) |
| `Sorting.SortSorts` | cogs/danbooru.py:112-118 | the sorted list is in Python's string order |
| `Sorting.SortedUnique` | cogs/danbooru.py:116-118 | two sorted lists with the same tags, counted with multiplicity, are equal |
| `Sorting.SortIdempotent` | cogs/danbooru.py:112-114 | sorting an already sorted list changes nothing, so re-sorting the stored tags is harmless |
| `Sorting.SortEqualIffPermutation` | cogs/danbooru.py:116-118 | two lists sort to the same list exactly when they are rearrangements of each other |
| `Sorting.SortedEqualIffPermutation` | cogs/danbooru.py:116-118 | the sorted caller list equals the stored sorted tags exactly when it is a rearrangement of them |
| `Chunking.Header` | cogs/danbooru.py:326-328 | the opening of a batch: the mention text, a newline, the back-quoted tag line and a newline |
| `Chunking.Tail` | cogs/danbooru.py:337 | the closing of a batch: the back-quoted tag line |
| `Chunking.KeptAsWritten` | cogs/danbooru.py:329-332 | the loop as written emits at most all of the posts |
| `Chunking.GroupChunks` | cogs/danbooru.py:324-339 | a batch of `k` posts makes `k / 4 + 1` messages: a new one starts at every 1-based index divisible by 4 |
| `Chunking.FlushPoint` | cogs/danbooru.py:330 | the test `index % 4 == 0` fires exactly where the next chunk starts |
| `Chunking.FlushCount` | cogs/danbooru.py:329-338 | after the last post the open message is the last chunk |
| `Chunking.CloseChunks` | cogs/danbooru.py:337-338 | the flushed messages and the open one with the back-quoted tags appended make the whole message list |
| `Chunking.FlushStep` | cogs/danbooru.py:330-336 | flushing at a multiple of four appends the open message to the list and opens the next one with the current post |
| `Chunking.PlaceStep` | cogs/danbooru.py:336 | a post between flush points is appended with its newline to the open message |
| `Chunking.SplitInGroupsOfFourAsWritten` | cogs/danbooru.py:324-339 | the loop as written, `break` included, returns the grouping of the posts it keeps: all of them unless their number is a positive multiple of four, when the last is lost |
| `Chunking.SplitInGroupsOfFour` | cogs/danbooru.py:324-339 | the loop without the `break` returns the grouping of all the posts |
| `Chunking.GroupPrefixConcat` | cogs/danbooru.py:324-339 | the first `m` messages read together are the header and the posts before chunk `m` |
| `Chunking.GroupChunksConcat` | cogs/danbooru.py:324-339 | read one after another, the messages are the header, one line per emitted post in order, and the back-quoted tag line |
| `Chunking.GroupChunksShape` | cogs/danbooru.py:326-338 | the first message starts with the mention and tag header, the last ends with the tag line, the first holds at most three posts and every later one at most four |
| `Chunking.SplitInGroupsOfFourKeepsAll` | cogs/danbooru.py:324-339 | the corrected chunker emits every post exactly once, in order |
| `Chunking.AsWrittenDropsLastOfMultipleOfFour` | cogs/danbooru.py:330-332 | as written, every post but the last of a batch whose size is a positive multiple of four is emitted |
| `Chunking.FourPostsExample` | cogs/danbooru.py:330-332 | with four posts the code as written sends one message without the fourth URL; the corrected loop sends two |
| `Chunking.Reduce` | cogs/danbooru.py:347-352 | the spam reducer always produces at least one message |
| `Chunking.ReduceMessageSpam` | cogs/danbooru.py:342-353 | the loop returns the reducer's chunks of the header and the posts |
| `Chunking.ReduceConcat` | cogs/danbooru.py:342-353 | the chunks read together are the header and `post + "\n"` for every post, in order |
| `Chunking.ReduceFirstStartsWith` | cogs/danbooru.py:344-346 | the first chunk starts with the mention and tag header |
| `Chunking.ReduceSplitsOnlyWhenFull` | cogs/danbooru.py:348-350 | a new chunk starts only when the next post line would push the current one past 2000 characters |
| `Chunking.ReduceWithinBudget` | cogs/danbooru.py:348-351 | every chunk stays within 2000 characters, except a header too long on its own and a single post line too long on its own |
| `Persistence.Disk.constructor` | cogs/danbooru.py:165-168 | the disk starts with the given files |
| `Persistence.Disk.Delete` | cogs/danbooru.py:619 | `os.remove` reports whether the file existed and removes only that path |
| `Persistence.TimestampText` | cogs/danbooru.py:156 | `str(old_timestamp)`: `None` while unset, otherwise the time as decimal seconds |
| `Persistence.ParseTimestamp` | cogs/danbooru.py:304-305 | the reading side: `'None'` leaves the watermark unset, other text is parsed or raises |
| `Persistence.ParseTimestampText` | cogs/danbooru.py:304-305 | reading back the written watermark gives the same watermark, unset (`'None'`) or set |
| `Persistence.ResolveMembers` | cogs/danbooru.py:282-288 | resolving stored members never yields more users than were stored |
| `Persistence.ResolveMembersFound` | cogs/danbooru.py:282-288 | every resolved member was looked up by a stored id |
| `Persistence.ResolveMembersKeeps` | cogs/danbooru.py:282-288 | users whose ids resolve to themselves all survive, in record order |
| `Persistence.ToRecord` | cogs/danbooru.py:143-163 | `sub_to_json`: users, tags, privacy, server and channel only when shared, the watermark text, the constant `new_timestamp` text, empty `already_posted`, pools and paused ids |
| `Persistence.LoadShared` | cogs/danbooru.py:272-306 | the shared branch of `create_sub_from_file`: the `sub_channel.json` or the record's ids (a `KeyError` without them), a raise for a guild the bot is not in, the members found in that guild, the tags sorted, the timestamp parsed |
| `Persistence.LoadRecordAsWritten` | cogs/danbooru.py:259-306 | `create_sub_from_file` as written: a private record is skipped when its owner is unknown and otherwise raises `IndexError`, since the owner is never added to `user_list` |
| `Persistence.LoadRecord` | cogs/danbooru.py:259-306 | the corrected `create_sub_from_file`: a private record loads with its looked-up owner as only user; a shared one as `LoadShared` says |
| `Persistence.LoadFile` | cogs/danbooru.py:259-262 | `json.load(open(path))` then the corrected load: a missing path or one holding no record raises |
| `Persistence.LoadAll` | cogs/danbooru.py:245-257 | `retrieve_subs` over the index paths: skipped records are left out, loaded ones kept in index order, the first raise ends the load |
| `Persistence.LoadToRecord` | cogs/danbooru.py:259-306 | loading the record `sub_to_json` wrote gives back the same subscription, private ones included (corrected loader) |
| `Persistence.PrivateRecordNeverLoadsAsWritten` | cogs/danbooru.py:265-301 | as written, a private record is either skipped (owner unknown) or raises, and raises whenever its owner resolves |
| `Persistence.SubChannelOverride` | cogs/danbooru.py:274-276 | `sub_channel.json`, when present, gives the server and channel ids for every shared subscription |
| `Persistence.IndexText` | cogs/danbooru.py:364 | `write_to_file`'s text: the feed paths joined with newlines |
| `Persistence.TextLines` | cogs/danbooru.py:249-251 | `readlines()` with the newline removed: the newline-separated fields, without the empty one after a final newline |
| `Persistence.IndexLines` | cogs/danbooru.py:248-252 | the paths read from the index are its lines without newlines and without quote characters, one per line |
| `Persistence.IndexRoundTrip` | cogs/danbooru.py:245-257 | reading the index back gives the paths `write_to_file` wrote, when none is empty or holds a newline or quote |
| `Persistence.IndexDropsTrailingEmptyPath` | cogs/danbooru.py:249-251 | an index whose last path is empty loses that line on reading |
| `Polling.NewPosts` | cogs/danbooru.py:240-242 | the posts strictly newer than the watermark, in fetch order |
| `Polling.NewPostsMembers` | cogs/danbooru.py:240-242 | a post is collected exactly when it was fetched and is strictly newer than the watermark |
| `Polling.NewPostsAppend` | cogs/danbooru.py:234-242 | collection keeps fetch order (no sorting): it distributes over concatenation of the answer |
| `Polling.NewPostsSnoc` | cogs/danbooru.py:240-242 | one more image appends that image exactly when it is newer than the watermark |
| `Polling.ScanPosts` | cogs/danbooru.py:229-243 | `_find_all_new_posts`: with no watermark the first post is the bootstrap post and sets it; then every post newer than the watermark is collected |
| `Polling.ScanSpec` | cogs/danbooru.py:229-243 | the first image sets an unset watermark and is sent on its own, never collected; the collected posts are exactly the fetched ones newer than the watermark in force |
| `Polling.Urls` | cogs/danbooru.py:241 | `new_posts` holds each collected post's `file_url`, in order |
| `Polling.Stamps` | cogs/danbooru.py:242 | `timestamp_posted` is the parallel list of the collected posts' times |
| `Polling.UrlsStampsSnoc` | cogs/danbooru.py:241-242 | collecting one more post appends its URL and its time |
| `Polling.Max` | cogs/danbooru.py:201 | `max(timestamp_posted)` is one of the times and no time exceeds it |
| `Polling.NextWatermark` | cogs/danbooru.py:195-202 | the watermark after a poll: the newest collected time, else the bootstrap post's time, else unchanged |
| `Polling.WatermarkAdvances` | cogs/danbooru.py:199-202 | a set watermark never moves back, moves strictly forward when posts were collected, and stays put when none were; a non-empty answer always sets it |
| `Polling.NewPostsNone` | cogs/danbooru.py:240 | no post is collected when every post is at or before the watermark |
| `Polling.NextWatermarkBoundsPosts` | cogs/danbooru.py:199-202 | after the poll no fetched post is newer than the watermark |
| `Polling.RescanFindsNothing` | cogs/danbooru.py:229-243 | asking again with the same answer collects nothing and sends no bootstrap: no post is announced twice |
| `Polling.Batch` | cogs/danbooru.py:308-315 | `send_new_posts`: the corrected groups-of-four chunks of the URLs under the active mentions and the tag line, each sent to the owner (private) or the channel (shared) |
| `Polling.Deliveries` | cogs/danbooru.py:310-314 | one message per chunk, each to the same target, in order |
| `Polling.TagText` | cogs/danbooru.py:127-136 | `tags_to_message()`: the rewritten tags joined with spaces |
| `Polling.TargetOf` | cogs/danbooru.py:310-314 | where `send_new_posts` sends: the owner of a private subscription, the channel of a shared one |
| `Polling.BatchUnfold` | cogs/danbooru.py:308-315 | `send_new_posts` sends the groups-of-four chunks of the URLs under the active mentions and tag line, to the owner or the channel (corrected chunker) |
| `Polling.BatchIgnoresWatermark` | cogs/danbooru.py:308-314 | what is sent does not depend on the watermark |
| `Polling.BatchSpec` | cogs/danbooru.py:324-339 | every message of a batch goes to the subscription's target, and read in order they are the header, one line per URL, and the tag line (corrected chunker) |
| `Polling.TextsOfDeliveries` | cogs/danbooru.py:310-314 | the texts sent are the chunks, in order |
| `Polling.AnnounceSteps` | cogs/danbooru.py:195-202 | the bootstrap post is sent first with the watermark set from it, then the collected URLs; the watermark moves to the newest collected time and the feed file is written whenever anything was sent (corrected chunker) |
| `Polling.Poll` | cogs/danbooru.py:192-203 | the tick's loop body up to its handlers: skipped when dormant (corrected rule), nothing for an empty answer, a failure for a failed lookup, otherwise `Announce` |
| `Polling.Announce` | cogs/danbooru.py:195-202 | a non-empty answer: the bootstrap post sent alone, then the collected posts' batch; the watermark moved to the newest collected time; the feed file written when anything was sent |
| `Polling.PollChangesOnlyWatermark` | cogs/danbooru.py:192-211 | a poll changes nothing of a subscription but its watermark, never backwards; a failure happens exactly for a non-dormant subscription whose lookup failed, and then nothing changes or is sent (corrected skip rule) |
| `Polling.DormantPollIsSilent` | cogs/danbooru.py:192-193 | a skipped subscription sends nothing and is not touched (corrected skip rule) |
| `Polling.PollAnnouncesNewPosts` | cogs/danbooru.py:195-202 | the messages of a poll announce the bootstrap post and every post newer than the old watermark, in fetch order, all to the subscription's target (corrected skip rule and chunker) |
| `Polling.TextsAppend` | cogs/danbooru.py:310-314 | the texts of two message runs are their concatenation |
| `Polling.RepollSendsNothing` | cogs/danbooru.py:192-202 | polling again with the same answer sends nothing |
| `Polling.FeedFiles` | cogs/danbooru.py:364 | one feed path per subscription |
| `Polling.FeedFilesAt` | cogs/danbooru.py:364 | entry `k` of the index list is subscription `k`'s feed file |
| `Polling.FeedFilesAppend` | cogs/danbooru.py:364 | the index list of a concatenation is the concatenation of the lists |
| `Polling.FeedFilesSnoc` | cogs/danbooru.py:364 | one more subscription appends its feed file |
| `Polling.WriteRecordsSnoc` | cogs/danbooru.py:226-227 | writing one more record overwrites just that feed file, after the earlier ones |
| `Polling.WriteRecordsKeepsIndex` | cogs/danbooru.py:224-227 | writing the records leaves the index file alone |
| `Polling.WriteRecordsWritesEach` | cogs/danbooru.py:224-227 | every subscription's feed file holds its own record, unless a later subscription with the same file overwrote it |
| `Polling.WriteRecordsKeepsOthers` | cogs/danbooru.py:224-227 | a file that is no subscription's feed file is left alone |
| `Polling.WriteIndex` | cogs/danbooru.py:362-369 | `write_to_file`: the index file replaced by the feed paths of the list |
| `Polling.WriteRecords` | cogs/danbooru.py:226-227 | `write_sub_to_file` for each subscription in list order, a later colliding key overwriting an earlier one |
| `Polling.FlushAll` | cogs/danbooru.py:224-227 | `_write_subs_information_to_file`: the index, then every record |
| `Polling.FlushWritesIndex` | cogs/danbooru.py:224-227 | after `_write_subs_information_to_file` the index lists every feed file |
| `Polling.FeedFilesOfUpdate` | cogs/danbooru.py:201 | moving a watermark does not move a feed file |
| `Polling.Handle` | cogs/danbooru.py:205-221 | the `except` clauses after subscription i's poll: its new state and feed file kept, a flush of every file after any failure, the owner alert after an unexpected one, and a stop on cancellation |
| `Polling.AlertText` | cogs/danbooru.py:215-218 | the owner's alert: the error, the subscription's tags, and `None` for the traceback slot |
| `Polling.HandleFiles` | cogs/danbooru.py:201-214 | the files after a turn: the poll's feed-file write, and a full flush after any failure |
| `Polling.HandleDeliveries` | cogs/danbooru.py:212-219 | the messages after a turn: the poll's, then the owner's alert after an unexpected failure |
| `Polling.HandleSpec` | cogs/danbooru.py:205-221 | the exception handlers keep the other subscriptions and the feed files, keep earlier messages in front, and on cancellation write the index before stopping |
| `Polling.Step` | cogs/danbooru.py:188-221 | one turn of the tick: subscription i polled with its joined tags as the query, then handled |
| `Polling.Tick` | cogs/danbooru.py:185-222 | `schedule_task`: the turns from the first subscription on, stopping at a cancellation, and the index written at the end |
| `Polling.TickFrom` | cogs/danbooru.py:187-222 | the tick from subscription i on: one turn each, stopping at a cancellation, and the index written after the last |
| `Polling.StepSpec` | cogs/danbooru.py:188-221 | one turn of the loop changes only subscription `i`'s watermark, never backwards, keeps earlier messages in front, and writes the index if it stops |
| `Polling.AdvancedTransitive` | cogs/danbooru.py:201 | watermark advances compose |
| `Polling.TickKeepsSubscriptions` | cogs/danbooru.py:185-222 | a tick keeps the same subscriptions in the same order, each with only its watermark moved forward, and leaves the ones before the start unvisited |
| `Polling.StepAdvances` | cogs/danbooru.py:188-221 | one turn moves the watermark of the subscription it visits and of no other |
| `Polling.TickKeepsEarlierMessages` | cogs/danbooru.py:185-222 | messages only accumulate during a tick |
| `Polling.TickWritesIndex` | cogs/danbooru.py:205-222 | a tick always ends with the index listing every feed file, cancelled or not |
| `Schedule.StatesOf` | cogs/danbooru.py:171-182 | the value view of the live list has one state per subscription, in list order |
| `Schedule.StatesOfSnoc` | cogs/danbooru.py:304 | appending a subscription appends its state |
| `Schedule.FeedFileList` | cogs/danbooru.py:364 | the feed files of the live list, one per subscription, in order |
| `Schedule.FeedFileListIsFeedFiles` | cogs/danbooru.py:364 | the feed files the objects hold are the ones their states name |
| `Schedule.MatchingUsers` | cogs/danbooru.py:317-322 | `find_matching_subs`: the user lists of the subscriptions whose space-joined tags occur in the tag string, in list order |
| `Schedule.MatchingUsersSpec` | cogs/danbooru.py:317-322 | a user list is reported exactly when some subscription with those users has its joined tags inside the post's tag string, and never more lists than subscriptions |
| `Schedule.MatchingUsersAppend` | cogs/danbooru.py:319-321 | matching distributes over concatenation of the subscription list, so list order is kept |
| `Schedule.PrefixedEmpty` | cogs/danbooru.py:252-257 | with nothing loaded before, the outcome is the load itself |
| `Schedule.PrefixedStep` | cogs/danbooru.py:252-257 | one more path of the index: a raise ends the reload with its reason, a loaded record joins the earlier ones, a skipped path is passed over |
| `Schedule.StepIsHandle` | cogs/danbooru.py:188-221 | one turn of the tick is the exception handling of the poll of that subscription with its joined tags as the query |
| `Schedule.TickAdvance` | cogs/danbooru.py:186-221 | a cancellation ends the tick with that turn's result; otherwise the tick goes on from the next subscription |
| `Schedule.SortTagString` | cogs/danbooru.py:356-360 | `sort_tags`: the tag string split on spaces, sorted and joined with spaces |
| `Schedule.SortTagStringSplit` | cogs/danbooru.py:356-360 | splitting the sorted tag string gives the sorted tags |
| `Schedule.SortTagStringSpec` | cogs/danbooru.py:356-360 | sorting a tag string keeps its tags, duplicates counted, and is idempotent |
| `Schedule.MapOverride` | cogs/danbooru.py:165-168 | writing a file again replaces what the earlier write left |
| `Schedule.SendAll` | cogs/danbooru.py:310-314 | the sending loop delivers every chunk, in order, to the one target |
| `Schedule.Scheduler.constructor` | cogs/danbooru.py:173-182 | a new scheduler is valid with no subscriptions, bound to the bot's directory and the disk |
| `Schedule.Scheduler.WriteToFile` | cogs/danbooru.py:362-369 | the index file is rewritten with the feed files of the live list, one per line, and no other file changes |
| `Schedule.Scheduler.Remove` | cogs/danbooru.py:613 | removal drops the first occurrence of the subscription from the list |
| `Schedule.Scheduler.WriteSubsInformationToFile` | cogs/danbooru.py:224-227 | the index, then every record in list order, as the value flush specifies |
| `Schedule.Scheduler.WriteRecordsInOrder` | cogs/danbooru.py:226-227 | each subscription's record is written in list order |
| `Schedule.Scheduler.SendNewPosts` | cogs/danbooru.py:308-315 | the messages sent are the batch of the URLs for the subscription's state (corrected chunker) |
| `Schedule.Scheduler.SetFirstWatermark` | cogs/danbooru.py:236-239 | an unset watermark is set from the post, which is sent on its own, and only that feed file is rewritten |
| `Schedule.Scheduler.FindAllNewPosts` | cogs/danbooru.py:229-243 | the URLs and times returned are those of the posts the scan collects; the bootstrap branch sets the watermark, sends the first post and saves the subscription, otherwise nothing changes |
| `Schedule.Scheduler.PollOne` | cogs/danbooru.py:192-203 | the loop body of a tick changes the subscription, the messages, the failure and its feed file exactly as the value poll does (corrected skip rule and chunker) |
| `Schedule.Scheduler.AnnounceNewPosts` | cogs/danbooru.py:195-202 | for a non-empty answer, the new state, the messages and the feed file are those of the value announcement, whose steps `Polling.AnnounceSteps` states (corrected chunker) |
| `Schedule.Scheduler.PublishNewer` | cogs/danbooru.py:199-202 | the collected URLs are sent, the watermark becomes the newest collected time, and the feed file is saved (corrected chunker) |
| `Schedule.Scheduler.Tick` | cogs/danbooru.py:184-222 | the subscriptions' new states, the files, the messages and the cancellation flag are exactly those of the value tick (corrected skip rule and chunker) |
| `Schedule.Scheduler.Finish` | cogs/danbooru.py:222 | the tick ends by rewriting the index, completing the value tick |
| `Schedule.Scheduler.Advance` | cogs/danbooru.py:188-221 | one turn keeps the list and either stops with the tick's result or keeps the loop's invariant for the next index |
| `Schedule.Scheduler.TickStep` | cogs/danbooru.py:188-221 | the loop body with its handlers matches the value step on subscription `i` (corrected skip rule and chunker) |
| `Schedule.Scheduler.Kept` | cogs/danbooru.py:188-221 | an untouched list keeps its states and its validity |
| `Schedule.Scheduler.OneChanged` | cogs/danbooru.py:188-221 | changing only subscription `i` changes only its entry of the states |
| `Schedule.Scheduler.PollAt` | cogs/danbooru.py:192-203 | polling subscription `i` changes only its state and its feed file |
| `Schedule.Scheduler.Recover` | cogs/danbooru.py:205-221 | after any failure every file is flushed, and after an unexpected one the owner gets exactly one alert naming the error and the tags |
| `Schedule.Scheduler.FindMatchingSubs` | cogs/danbooru.py:317-322 | the matched user lists are those of the value match over the subscriptions' states |
| `Schedule.Scheduler.CreateSubFromFile` | cogs/danbooru.py:259-306 | the outcome is the value load of that path; a loaded subscription is a new valid object in the loaded state (corrected loader) |
| `Schedule.Scheduler.Append` | cogs/danbooru.py:304 | a new subscription is appended and the list stays valid |
| `Schedule.Scheduler.RetrieveSubs` | cogs/danbooru.py:245-257 | a missing index is created empty; the listed paths are then loaded and appended, or the first raise is reported (corrected loader) |
| `Schedule.Scheduler.LoadPaths` | cogs/danbooru.py:252-257 | the paths are loaded in turn; the states appended are the value load's, or its error is returned (corrected loader) |
| `Schedule.Scheduler.LoadStep` | cogs/danbooru.py:252-257 | one path loaded: a raise stops with the whole load's error, otherwise the loop's invariant holds for the next path (corrected loader) |
| `Commands.BlacklistText` | cogs/danbooru.py:432-434 | the blacklist listing: the heading, the tags one per line, the closing fence |
| `Commands.BlacklistTextLists` | cogs/danbooru.py:431-434 | the blacklist listing holds every tag, one per line and in order, between its heading and the closing fence |
| `Commands.RemoveTag` | cogs/danbooru.py:447-457 | a listed tag loses exactly one occurrence and the list is written back with the "removed" reply; an unlisted tag gets "tag not in blacklist" and nothing changes |
| `Commands.RemoveTagUndoesAdd` | cogs/danbooru.py:438-457 | removing a tag just added always succeeds and gives back the same tags, duplicates counted, and the same list when the tag was new |
| `Commands.ChannelIds` | cogs/danbooru.py:470 | the bound channel ids, one per binding, in order |
| `Commands.SetupDan` | cogs/danbooru.py:468-480 | `setup_dan`: "channel already setup" for a bound channel, an `AttributeError` in a direct message, otherwise the channel and guild appended with "channel setup for danbooru commands" |
| `Commands.SetupDanBindsOnce` | cogs/danbooru.py:466-480 | a guild channel is bound afterwards, never twice; an already bound channel or a direct message changes nothing; at most one binding is appended at the end |
| `Commands.SetupDanIdempotent` | cogs/danbooru.py:470-472 | a second `setup_dan` from the same channel changes nothing and says "channel already setup" |
| `Commands.PoolId` | cogs/danbooru.py:553 | `tag[len('pool:'):]`: the text after the first five characters |
| `Commands.RequestPools` | cogs/danbooru.py:551-558 | every pool comes from a requested tag holding `pool:`, with the id after the first five characters and the looked-up name; no such tag, no pools |
| `Commands.RequestPoolsSnoc` | cogs/danbooru.py:552-558 | the pools follow the request's tag order |
| `Commands.Candidate` | cogs/danbooru.py:562 | the loop's test: the same sorted tags, and a shared subscription unless the request is private |
| `Commands.Holds` | cogs/danbooru.py:563-564 | a subscription lists the account when one of its users has the account's id |
| `Commands.FirstCandidate` | cogs/danbooru.py:561-562 | the first subscription with the same tags that the request may use, and none before it |
| `Commands.FirstHolding` | cogs/danbooru.py:562-566 | the first such subscription that already lists the author, and none before it |
| `Commands.DecideAsWritten` | cogs/danbooru.py:561-572 | the decision as written: only the first candidate is examined; already subscribed if it lists the author, a new subscription if either side is private, otherwise joined |
| `Commands.DecideAsWrittenDuplicatesPrivate` | cogs/danbooru.py:561-568 | a direct-message request whose author has a private subscription to the tags behind someone else's shared one creates a duplicate private subscription |
| `Commands.Decide` | cogs/danbooru.py:561-572 | the intended decision: "already subscribed" only for a candidate that lists the author; "joined" only for a shared candidate and a shared request, without the author; "created" only when no candidate lists the author |
| `Commands.DecideAgreesWhenNoLaterHolder` | cogs/danbooru.py:561-568 | the written loop and the intended decision agree unless a later candidate lists the author |
| `Commands.NewSub` | cogs/danbooru.py:573-582 | a new subscription has only the author, the requested tags sorted with duplicates kept, is private exactly for a direct message, and a shared one has a guild and a channel id (those of `sub_channel.json` or of the request; the lookups are assumed to succeed) |
| `Commands.Subscribe` | cogs/danbooru.py:538-589 | `sub`: a failed lookup is reported; otherwise the corrected decision says already subscribed, joined (author appended, record saved) or created (appended, saved, with the newest image's URL) |
| `Commands.SubscribeHeld` | cogs/danbooru.py:563-566 | an author already in a candidate is told so and nothing changes (corrected `sub` decision) |
| `Commands.Joining` | cogs/danbooru.py:567-572 | joining: the author appended to subscription j, its record saved, the "added to existing sub" reply |
| `Commands.Creating` | cogs/danbooru.py:573-589 | creating: the new subscription appended and saved, the "successfully subscribed" and newest-image replies |
| `Commands.SubscribeNotHeld` | cogs/danbooru.py:567-584 | otherwise the first candidate is joined when it and the request are shared, else a new subscription is created |
| `Commands.SubscribeSubscribes` | cogs/danbooru.py:537-589 | after a successful `sub` the author is in a subscription to the requested tags that the request may use; only the joined one changes and a created one is appended |
| `Commands.SubscribeIdempotent` | cogs/danbooru.py:537-589 | a second identical `sub` reports "already subscribed" and changes no state and no file |
| `Commands.Without` | cogs/danbooru.py:603-607 | the accounts left are exactly the others, in order |
| `Commands.DropUser` | cogs/danbooru.py:603-610 | the inner loop's removals account for every entry it took out, and no removal leaves the users unchanged |
| `Commands.DropUserAbsent` | cogs/danbooru.py:603-604 | an account not listed removes nothing |
| `Commands.WithoutAppend` | cogs/danbooru.py:603-607 | removing an account distributes over concatenation |
| `Commands.WithoutAbsent` | cogs/danbooru.py:603-607 | removing an account not listed changes nothing |
| `Commands.RemoveFirstAt` | cogs/danbooru.py:607 | `list.remove(x)` removes the first occurrence, at its position |
| `Commands.OthersLackId` | cogs/danbooru.py:603-607 | with distinct ids, the rest of the list lacks the removed id |
| `Commands.DropAt` | cogs/danbooru.py:607 | with distinct ids, removing the entry for an id is removing every account with it |
| `Commands.DropUserDistinct` | cogs/danbooru.py:603-610 | with distinct ids, the skipping of the inner loop does no harm: exactly the author's entry goes |
| `Commands.Repeat` | cogs/danbooru.py:610 | one "successfully unsubscribed" reply per removal |
| `Commands.RepeatSnoc` | cogs/danbooru.py:610 | one more removal, one more reply |
| `Commands.UnsubOne` | cogs/danbooru.py:602-622 | one visit of `unsub`: other tags keep the subscription; matching tags drop the author's entries, rewrite the index and the record per removal, and drop an emptied subscription with its feed file |
| `Commands.UnsubOneMatched` | cogs/danbooru.py:602-622 | a matching subscription keeps its other users and is saved, or with none left is dropped and its feed file deleted, or reports the failed delete |
| `Commands.Unsubscribe` | cogs/danbooru.py:593-622 | `unsub`: the sorted request tags, and the visits over the list as it started (corrected walk) |
| `Commands.UnsubFrom` | cogs/danbooru.py:601-622 | `unsub`'s outer loop from position i, one visit per subscription of the list it started from |
| `Commands.UnsubTrace` | cogs/danbooru.py:601-622 | the states of the outer loop, each from the one before by one visit (corrected `unsub` walk) |
| `Commands.UnsubTraceEnds` | cogs/danbooru.py:601-622 | the trace ends where the loop ends (corrected `unsub` walk) |
| `Commands.UnsubscribeAsWritten` | cogs/danbooru.py:601-618 | `unsub` as written on the live list: an emptied subscription is removed in place and the index moves on, so the next one is not visited |
| `Commands.UnsubscribeAsWrittenSkipsNext` | cogs/danbooru.py:601-618 | iterating the live list while removing from it skips the next subscription: its author stays subscribed, unlike the intended walk |
| `Commands.UnsubKeptSpec` | cogs/danbooru.py:592-622 | the intended outcome: no subscription to the tags lists the account, every other subscription stays, and nothing new appears |
| `Commands.UnsubFromKept` | cogs/danbooru.py:601-622 | with distinct accounts per subscription, the walk over the starting list keeps exactly the intended outcome |
| `Commands.UnsubOneKept` | cogs/danbooru.py:602-622 | one visit keeps that subscription's intended piece |
| `Commands.UnsubscribeRemovesEverywhere` | cogs/danbooru.py:592-622 | `unsub` leaves the account in no subscription to the (sorted) tags and keeps every other subscription |
| `Commands.PauseOne` | cogs/danbooru.py:631-633 | one subscription in `pause`: its paused ids gain the account's id when it lists the account |
| `Commands.Holding` | cogs/danbooru.py:630 | `subscriptions_of_user`: the subscriptions listing the account, in list order |
| `Commands.PauseAll` | cogs/danbooru.py:624-634 | `pause` keeps the number of subscriptions |
| `Commands.HoldingSnoc` | cogs/danbooru.py:630 | the account's subscriptions keep list order |
| `Commands.PauseSilences` | cogs/danbooru.py:624-634 | after `pause` the account is mentioned in none of its subscriptions and its private ones are dormant; users and tags stay, and other subscriptions are untouched |
| `Commands.Unpause` | cogs/danbooru.py:637-647 | `unpause`: for each subscription listing the account in list order, one copy of its id removed and the record saved; a `ValueError` at the first without the id |
| `Commands.UnpauseUndoesPause` | cogs/danbooru.py:624-646 | `unpause` after `pause` does not fail and gives back every subscription |
| `Commands.PauseOneUndone` | cogs/danbooru.py:632-644 | removing the id `pause` appended gives back the subscription |
| `Commands.UnpauseFrom` | cogs/danbooru.py:642-645 | `unpause`'s loop from position k: one copy of the id removed from each holding subscription and its record saved, a `ValueError` at the first without it |
| `Commands.UnpauseFromPaused` | cogs/danbooru.py:643-645 | the loop of `unpause` undoes the earlier pause subscription by subscription |
| `Commands.UnpauseWithoutPauseFails` | cogs/danbooru.py:643-644 | `unpause` by an account that never paused fails at its first subscription with nothing changed |
| `Commands.UnpauseFromClean` | cogs/danbooru.py:643-644 | from any position, a later subscription with the account and no pause makes the loop fail with nothing changed |
| `Cog.LiveFeedFiles` | cogs/danbooru.py:608 | the index written mid-`unsub` names the feed files of the subscriptions kept so far and of those not yet visited |
| `Cog.DistinctWithout` | cogs/danbooru.py:618 | removing one entry keeps the live list free of duplicates |
| `Cog.LeftValid` | cogs/danbooru.py:603-616 | a subscription that still has users after the author's entries went is still well formed |
| `Cog.RewriteAgain` | cogs/danbooru.py:608-609 | rewriting the same two files again leaves only the last writes |
| `Cog.PausedRecordsSnoc` | cogs/danbooru.py:631-633 | `pause` saves the account's subscriptions in list order |
| `Cog.PausedSplice` | cogs/danbooru.py:631-633 | one more subscription of the list has gone through `pause` |
| `Cog.DanbooruCog.constructor` | cogs/danbooru.py:377-392 | the blacklist is the saved list, and the bindings are the saved ones or none when the file is missing |
| `Cog.DanbooruCog.Unload` | cogs/danbooru.py:394-407 | nothing is written when no subscription is listed; otherwise the index and every record, the same writes as the scheduler's flush |
| `Cog.DanbooruCog.BlacklistAdd` | cogs/danbooru.py:438-444 | the tag is appended, the blacklist file holds the new list, and the reply names the tag |
| `Cog.DanbooruCog.BlacklistRemove` | cogs/danbooru.py:447-457 | the blacklist, the reply and the file are exactly those of the value removal; the file is written only when the tag was listed |
| `Cog.DanbooruCog.SetupDan` | cogs/danbooru.py:466-480 | the bindings and the reply are those of the value `setup_dan`, and the bindings file is written only when a binding was added |
| `Cog.DanbooruCog.Subscribe` | cogs/danbooru.py:537-589 | the subscriptions, the files and the replies after `sub` are those of the intended value `sub` (corrected `sub` decision) |
| `Cog.DanbooruCog.SubscribeFound` | cogs/danbooru.py:548-589 | the same once the tag lookup found a post (corrected `sub` decision) |
| `Cog.DanbooruCog.JoinOrCreate` | cogs/danbooru.py:567-589 | with no candidate listing the author, the first candidate is joined when both are shared, else a subscription is created, as the value `sub` says |
| `Cog.DanbooruCog.CollectPools` | cogs/danbooru.py:551-558 | the pool loop collects exactly the value pools |
| `Cog.DanbooruCog.FindCandidates` | cogs/danbooru.py:561-566 | the walk finds the first candidate and the first candidate listing the author (corrected `sub` decision) |
| `Cog.DanbooruCog.IsCandidate` | cogs/danbooru.py:562 | the loop's test is the candidate predicate on the sorted request tags |
| `Cog.DanbooruCog.JoinSub` | cogs/danbooru.py:569-572 | joining changes the states, files and replies as the value `Joining` says |
| `Cog.DanbooruCog.AddMember` | cogs/danbooru.py:569-570 | only subscription `j` changes, gaining the author last, and only its feed file is written |
| `Cog.DanbooruCog.CreateSub` | cogs/danbooru.py:573-589 | creating changes the states, files and replies as the value `Creating` says |
| `Cog.DanbooruCog.ListAndSave` | cogs/danbooru.py:583-584 | a new subscription goes at the end of the list and only its feed file is written |
| `Cog.DanbooruCog.MakeSub` | cogs/danbooru.py:573-582 | the `Dansub` built is a new valid object in the value new state (guild and channel lookups assumed to succeed) |
| `Cog.DanbooruCog.Unsubscribe` | cogs/danbooru.py:592-622 | the subscriptions, files and replies after `unsub` are those of the value `unsub` walking the list it started from (corrected `unsub` walk) |
| `Cog.DanbooruCog.UnsubWalk` | cogs/danbooru.py:601-622 | the outer loop ends with the live list being the kept subscriptions, in the states and files of the value walk over the list it started from (corrected `unsub` walk) |
| `Cog.DanbooruCog.BeginWalk` | cogs/danbooru.py:601 | the walk starts with nothing kept and the whole list to visit |
| `Cog.DanbooruCog.UnsubStep` | cogs/danbooru.py:602-622 | one visit matches the value visit and keeps the walk's invariant |
| `Cog.DanbooruCog.KeepStep` | cogs/danbooru.py:602 | a subscription with other tags is kept unchanged |
| `Cog.DanbooruCog.LiveIsValid` | cogs/danbooru.py:601-622 | the live list during the walk is a valid scheduler list |
| `Cog.DanbooruCog.KeepLeft` | cogs/danbooru.py:616 | a visited subscription that keeps users joins the kept ones |
| `Cog.DanbooruCog.WalkKeeps` | cogs/danbooru.py:616 | keeping the visited subscription extends the walk |
| `Cog.DanbooruCog.RemoveEmpty` | cogs/danbooru.py:616-622 | a subscription left without users leaves the list, its feed file goes, and whether it existed is reported |
| `Cog.DanbooruCog.UnsubMatched` | cogs/danbooru.py:603-622 | a matching subscription is visited as the value visit says |
| `Cog.DanbooruCog.Settle` | cogs/danbooru.py:616-622 | the end of a visit drops a subscription left without users and deletes its feed file, and otherwise keeps it with the files unchanged |
| `Cog.DanbooruCog.VisitDrop` | cogs/danbooru.py:603-610 | the inner loop leaves the value drop's users, one reply per removal, and the index and record rewritten when anything was removed |
| `Cog.DanbooruCog.VisitFramed` | cogs/danbooru.py:603-610 | a visit leaves the kept subscriptions and those not yet visited alone |
| `Cog.DanbooruCog.StartVisit` | cogs/danbooru.py:602-608 | the visited subscription is none of the kept ones, and the index written names the kept and the unvisited feed files |
| `Cog.DanbooruCog.DropUserFrom` | cogs/danbooru.py:603-610 | the inner loop over `sub.users`, removing from the list it walks, ends in the value drop, with the index and the record written when anything went |
| `Cog.DanbooruCog.DropOne` | cogs/danbooru.py:607-609 | one removal takes out the first occurrence, then writes the index and the record |
| `Cog.DanbooruCog.Pause` | cogs/danbooru.py:624-634 | the states become the value `pause`'s, the account's subscriptions are saved in list order, and the reply is fixed |
| `Cog.DanbooruCog.PauseStep` | cogs/danbooru.py:631-633 | one turn of the loop keeps its invariant |
| `Cog.DanbooruCog.PauseAt` | cogs/danbooru.py:632-633 | only subscription `k` changes, and it is saved only when it lists the account |
| `Cog.DanbooruCog.Unpause` | cogs/danbooru.py:636-646 | the states and files are the value `unpause`'s; a failure is the `ValueError` of `list.remove`, otherwise the fixed reply |
| `Cog.DanbooruCog.UnpauseWalk` | cogs/danbooru.py:643-645 | the loop ends where the value `unpause` does |
| `Cog.DanbooruCog.UnpauseStep` | cogs/danbooru.py:643-645 | one turn either fails with the command's end state or keeps the loop's invariant |
| `Cog.DanbooruCog.UnpauseAt` | cogs/danbooru.py:644-645 | the first occurrence of the id goes from subscription `k`, which is saved |
| `MemeOffRounds.Draw` | cogs/meme_off.py:19-24 | an empty bag gives nothing and stays empty; otherwise the link given was in the bag, exactly one copy of it leaves, and a pick within the bag gives that entry |
| `MemeOffRounds.TemplateSubmission.constructor` | cogs/meme_off.py:12-14 | a new submission belongs to its user and holds no links |
| `MemeOffRounds.TemplateSubmission.AddTemplate` | cogs/meme_off.py:16-17 | the link is appended to the user's links |
| `MemeOffRounds.TemplateSubmission.GetTemplate` | cogs/meme_off.py:19-24 | the link returned and the links left are those of the value draw |
| `MemeOffRounds.ParseDuration` | cogs/meme_off.py:88-94 | the parsing of `meme_off_start`: a trailing `s` stripped, two words or an unpacking error, an unknown unit refused, then `int(amount)` times the unit's seconds or a `ValueError` |
| `MemeOffRounds.Stripped` | cogs/meme_off.py:88-89 | one trailing `s` removed |
| `MemeOffRounds.UnitSeconds` | cogs/meme_off.py:90 | `time_units`: hour 3600, minute 60, second 1, nothing else |
| `MemeOffRounds.SplitTwoWords` | cogs/meme_off.py:91 | text made of two space-free words around one space splits into exactly those two words |
| `MemeOffRounds.ParseShownDuration` | cogs/meme_off.py:88-94 | any integer amount with a known unit, singular or plural, parses to that amount and unit and to amount times the unit's seconds |
| `MemeOffRounds.UnknownUnitRefused` | cogs/meme_off.py:92-93 | a unit outside hour, minute and second is refused as an unknown unit, before the amount is read |
| `MemeOffRounds.DurationExamples` | cogs/meme_off.py:88-94 | "30 minutes" is 1800 seconds and "2 hours" 7200 |
| `MemeOffRounds.DoubledSRefused` | cogs/meme_off.py:88-93 | only one trailing `s` is dropped, so "30 minutess" is refused |
| `MemeOffRounds.OneWordRefused` | cogs/meme_off.py:91 | a duration that is not two words cannot be unpacked |
| `MemeOffRounds.NotANumberRefused` | cogs/meme_off.py:88-94 | two words whose unit is known (with or without a plural `s`) but whose amount `int` cannot read make `int` raise, after the unit lookup |
| `MemeOffRounds.WordAmountRefused` | cogs/meme_off.py:94 | an amount that is not an integer makes `int` raise |
| `MemeOffRounds.Remaining` | cogs/meme_off.py:104-107 | the days, hours, minutes and seconds of a time difference: each field in range, and together they make up the difference, the days rounded down as a `timedelta`'s are |
| `MemeOffRounds.DivModUnique` | cogs/meme_off.py:105-106 | a quotient and a remainder in range are the only ones |
| `MemeOffRounds.RemainingUnique` | cogs/meme_off.py:104-107 | the breakdown of a difference is the only one with fields in range |
| `MemeOffRounds.DeadlineText` | cogs/meme_off.py:106-119 | `meme_off_deadline`'s text: days, hours and minutes each shown when non-zero, seconds after `and`, plurals above one, then `left` |
| `MemeOffRounds.Part` | cogs/meme_off.py:111-118 | one component: nothing for zero, otherwise the number, the unit, an `s` above one and a space |
| `MemeOffRounds.PartPlural` | cogs/meme_off.py:109-116 | a zero field is left out, and a field gets its plural `s` exactly when it is above one |
| `MemeOffRounds.DeadlineLeftOnly` | cogs/meme_off.py:104-117 | the message is the bare "left" exactly when no time is left |
| `MemeOffRounds.DeadlineUnderAMinute` | cogs/meme_off.py:115-117 | under a minute the message is "and N second(s) left" |
| `MemeOffRounds.Pop` | cogs/meme_off.py:180-183 | one `template_order.pop()` and `get_template()`: a `KeyError` for an id without a bag, otherwise one draw kept only when it starts with `http` |
| `MemeOffRounds.Rotate` | cogs/meme_off.py:180-192 | the selection loop: pop and draw until a usable template, an empty order or a missing bag |
| `MemeOffRounds.RotateOrder` | cogs/meme_off.py:180-190 | the order left is a prefix of the one before, shorter by at least one pop, and empty once the rotation is exhausted |
| `MemeOffRounds.RotateBags` | cogs/meme_off.py:180-190 | the same users keep bags, and a user the rotation did not pop keeps the same bag |
| `MemeOffRounds.PopShrinks` | cogs/meme_off.py:180-183 | one pop takes at most one link from one bag |
| `MemeOffRounds.RotateShrinks` | cogs/meme_off.py:180-190 | a rotation only takes links out of bags |
| `MemeOffRounds.RotateFound` | cogs/meme_off.py:180-193 | a template found starts with `http` and was taken from the bag of a user in the order, whose bag loses it |
| `MemeOffRounds.IsModerator` | cogs/meme_off.py:229 | the moderator roles: `Discord-Senpai` or `Subreddit-Senpai` |
| `MemeOffRounds.TemplateAnnouncement` | cogs/meme_off.py:193 | the embed's description naming the submitter |
| `MemeOffRounds.MemeOff.constructor` | cogs/meme_off.py:34-45 | a fresh cog has no timer, no deadline, no submissions, no order and no pin |
| `MemeOffRounds.MemeOff.Start` | cogs/meme_off.py:81-96 | refused while a timer runs; otherwise a parsed duration starts a timer with its deadline `delay` seconds on, an unknown unit gets the list of units, and any other bad duration raises; a refusal changes nothing |
| `MemeOffRounds.MemeOff.DeadlineReply` | cogs/meme_off.py:100-118 | without a deadline "No timer set currently"; at the deadline the bare "left" and never before |
| `MemeOffRounds.MemeOff.Cancel` | cogs/meme_off.py:122-129 | with a timer the timer and its deadline are dropped and cancellation is reported; without one `None.cancel()` raises and nothing changes |
| `MemeOffRounds.MemeOff.FinishRound` | cogs/meme_off.py:134-140 | the end of a round clears the pin, the pinner, the timer and the deadline |
| `MemeOffRounds.MemeOff.AddTo` | cogs/meme_off.py:149-164 | the link is appended to the author's bag, which is created when missing; no other bag changes |
| `MemeOffRounds.MemeOff.Submit` | cogs/meme_off.py:144-167 | an attachment is stored as it is; otherwise a link starting with `http` is stored, another link is refused, and no link asks for one; exactly one link is added or nothing changes |
| `MemeOffRounds.MemeOff.DeleteTemplates` | cogs/meme_off.py:200-206 | a moderator empties the submissions; anyone else changes nothing |
| `MemeOffRounds.MemeOff.PopOne` | cogs/meme_off.py:180-190 | one pop changes the bags and the order as the value pop does |
| `MemeOffRounds.MemeOff.Select` | cogs/meme_off.py:180-190 | the selection loop ends in the value rotation's bags and order, with its found template, its exhaustion, or its missing submission |
| `MemeOffRounds.MemeOff.Rotation` | cogs/meme_off.py:180-197 | the selection loop and the pin agree with the value rotation |
| `MemeOffRounds.MemeOff.Template` | cogs/meme_off.py:171-197 | refused while pinned; "No templates submitted" with nothing to rotate; otherwise the order is rebuilt from the shuffled submitters only when empty, and the value rotation decides the pin and the reply |
| `MemeOffRounds.MemeOff.Pin` | cogs/meme_off.py:210-218 | refused while pinned; otherwise the message is pinned with the author as pinner |
| `MemeOffRounds.MemeOff.Unpin` | cogs/meme_off.py:222-235 | the pin goes, with its pinner, exactly when there is one and the author pinned it or is a moderator; otherwise nothing changes and the refusal is given |
| `Strings.ContainsAt` | cogs/danbooru.py:552 | a string occurring at some position is contained |
| `Strings.ContainsAffix` | cogs/danbooru.py:319 | a string contains each of its pieces |
| `Strings.NotContainsWithoutFirstChar` | cogs/danbooru.py:552 | a string lacking the first character of `p` does not contain `p` |
| `Strings.Split` | cogs/danbooru.py:549 | `split` with an explicit separator always gives at least one field |
| `Strings.SplitFieldsHaveNoSeparator` | cogs/danbooru.py:357 | no field of a split holds the separator |
| `Strings.SplitJoin` | cogs/danbooru.py:357 | splitting undoes joining when no field holds the separator |
| `Strings.SplitOfPlain` | cogs/meme_off.py:91 | a separator-free prefix is glued to the first field of what follows |
| `Strings.RemoveFirst` | cogs/danbooru.py:451 | `list.remove` shortens a list holding the element by one and leaves any other list as it is |
| `Strings.RemoveFirstCount` | cogs/danbooru.py:451 | `list.remove` takes out one occurrence and nothing else |
| `Strings.RemoveFirstOfSnoc` | cogs/danbooru.py:451 | removing an element just appended to a list without it gives back the list |
| `Strings.RemoveFirstOfMiddle` | cogs/danbooru.py:133 | `list.remove(x)` on a list whose first `x` follows a prefix without it drops exactly that `x` |
| `Strings.DeleteChar` | cogs/danbooru.py:252 | `replace(c, '')` leaves no `c` and changes a string without one not at all |
| `Strings.DigitChar` | cogs/danbooru.py:123 | each decimal digit has its character |
| `Strings.ShowNatDigits` | cogs/danbooru.py:156 | `str` of a non-negative integer is non-empty decimal digits |
| `Strings.ShowNat` | cogs/danbooru.py:123 | `str(id)`: the decimal digits of a natural number |
| `Strings.ParseInt` | cogs/meme_off.py:94 | `int(amount)`: an optional sign and ASCII digits, or nothing |
| `Strings.ParseShowNat` | cogs/danbooru.py:156 | `int(str(n)) == n` for a non-negative integer |
| `Strings.ParseShowInt` | cogs/meme_off.py:94-95 | `int(str(i)) == i` for any integer |

## Left out

- HTTP: the `Helper` lookups against danbooru (`lookup_pool`, `lookup_posts`, `lookup_tags`) are not modelled. Their answers are parameters: a fetch function keyed by the query, a pool-name function, and the newest post passed to `sub`.
- Discord: sending, embeds, pinning and role editing are modelled only as the texts and targets returned.
  - `get_user` and `get_member` are lookups in a directory value, and `get_guild` on reload is a test that the guild is in it. `get_channel`, and `get_guild` in `sub`, are assumed to succeed; see the lines for `Persistence.LoadShared`, `Commands.NewSub` and `Cog.DanbooruCog.MakeSub` below.
  - An unknown guild when a shared record is reloaded is treated as a raise. The code would raise on `server.get_member` once it reached the users.
- Scheduling: `tasks.loop`, `asyncio.sleep`, the event loop and concurrency are left out.
  - A tick is one sequential pass over the subscriptions.
  - A cancellation is a fetch answer that ends the tick in the `except CancelledError` clause.
  - The owner alert is one direct message with the error and the query.
- Schedule.Scheduler.Tick: the test `sub not in self.subscriptions` (cogs/danbooru.py:190) always passes while the list is not changed during a tick, so it is not modelled. Commands run between ticks, not concurrently with one.
- Schedule.Scheduler.constructor: the model's constructor does not call `retrieve_subs`. It is called as `RetrieveSubs` right after.
- The tick, the reload, `sub` and `unsub` are modelled with the corrections listed under "## Findings". The code as written is modelled beside them, and the lemmas named there show where the two differ. The members below follow the corrected rules, so their contracts describe the intended program, not the code as written at those lines:
- Polling.Poll: uses the corrected skip rule `Subscription.IsDormant`, not the as-written `Subscription.DormantAsWritten` (line 192), so with shared users 1 and 2 and paused ids `[1, 1]` it polls where the code skips; and the corrected chunker `Chunking.SplitInGroupsOfFour`, not the as-written `Chunking.SplitInGroupsOfFourAsWritten` (lines 330-332), so with four new posts it sends the fourth URL where the code drops it.
- Polling.Batch: uses the corrected chunker `Chunking.SplitInGroupsOfFour`, not the as-written `Chunking.SplitInGroupsOfFourAsWritten` (lines 330-332), so with four new posts it sends the fourth URL where the code drops it.
- Polling.Tick: uses the corrected skip rule `Subscription.IsDormant`, not the as-written `Subscription.DormantAsWritten` (line 192), so with shared users 1 and 2 and paused ids `[1, 1]` it polls where the code skips; and the corrected chunker `Chunking.SplitInGroupsOfFour`, not the as-written `Chunking.SplitInGroupsOfFourAsWritten` (lines 330-332), so with four new posts it sends the fourth URL where the code drops it.
- Polling.Step: uses the corrected skip rule `Subscription.IsDormant`, not the as-written `Subscription.DormantAsWritten` (line 192), so with shared users 1 and 2 and paused ids `[1, 1]` it polls where the code skips; and the corrected chunker `Chunking.SplitInGroupsOfFour`, not the as-written `Chunking.SplitInGroupsOfFourAsWritten` (lines 330-332), so with four new posts it sends the fourth URL where the code drops it.
- Polling.BatchUnfold: uses the corrected chunker `Chunking.SplitInGroupsOfFour`, not the as-written `Chunking.SplitInGroupsOfFourAsWritten` (lines 330-332), so with four new posts it sends the fourth URL where the code drops it.
- Polling.BatchSpec: uses the corrected chunker `Chunking.SplitInGroupsOfFour`, not the as-written `Chunking.SplitInGroupsOfFourAsWritten` (lines 330-332), so with four new posts it sends the fourth URL where the code drops it.
- Polling.AnnounceSteps: uses the corrected chunker `Chunking.SplitInGroupsOfFour`, not the as-written `Chunking.SplitInGroupsOfFourAsWritten` (lines 330-332), so with four new posts it sends the fourth URL where the code drops it.
- Polling.PollChangesOnlyWatermark: uses the corrected skip rule `Subscription.IsDormant`, not the as-written `Subscription.DormantAsWritten` (line 192), so with shared users 1 and 2 and paused ids `[1, 1]` it polls where the code skips.
- Polling.DormantPollIsSilent: uses the corrected skip rule `Subscription.IsDormant`, not the as-written `Subscription.DormantAsWritten` (line 192), so with shared users 1 and 2 and paused ids `[1, 1]` it polls where the code skips.
- Polling.PollAnnouncesNewPosts: uses the corrected skip rule `Subscription.IsDormant`, not the as-written `Subscription.DormantAsWritten` (line 192), so with shared users 1 and 2 and paused ids `[1, 1]` it polls where the code skips; and the corrected chunker `Chunking.SplitInGroupsOfFour`, not the as-written `Chunking.SplitInGroupsOfFourAsWritten` (lines 330-332), so with four new posts it sends the fourth URL where the code drops it.
- Schedule.Scheduler.SendNewPosts: uses the corrected chunker `Chunking.SplitInGroupsOfFour`, not the as-written `Chunking.SplitInGroupsOfFourAsWritten` (lines 330-332), so with four new posts it sends the fourth URL where the code drops it.
- Schedule.Scheduler.PollOne: uses the corrected skip rule `Subscription.IsDormant`, not the as-written `Subscription.DormantAsWritten` (line 192), so with shared users 1 and 2 and paused ids `[1, 1]` it polls where the code skips; and the corrected chunker `Chunking.SplitInGroupsOfFour`, not the as-written `Chunking.SplitInGroupsOfFourAsWritten` (lines 330-332), so with four new posts it sends the fourth URL where the code drops it.
- Schedule.Scheduler.AnnounceNewPosts: uses the corrected chunker `Chunking.SplitInGroupsOfFour`, not the as-written `Chunking.SplitInGroupsOfFourAsWritten` (lines 330-332), so with four new posts it sends the fourth URL where the code drops it.
- Schedule.Scheduler.PublishNewer: uses the corrected chunker `Chunking.SplitInGroupsOfFour`, not the as-written `Chunking.SplitInGroupsOfFourAsWritten` (lines 330-332), so with four new posts it sends the fourth URL where the code drops it.
- Schedule.Scheduler.Tick: uses the corrected skip rule `Subscription.IsDormant`, not the as-written `Subscription.DormantAsWritten` (line 192), so with shared users 1 and 2 and paused ids `[1, 1]` it polls where the code skips; and the corrected chunker `Chunking.SplitInGroupsOfFour`, not the as-written `Chunking.SplitInGroupsOfFourAsWritten` (lines 330-332), so with four new posts it sends the fourth URL where the code drops it.
- Schedule.Scheduler.TickStep: uses the corrected skip rule `Subscription.IsDormant`, not the as-written `Subscription.DormantAsWritten` (line 192), so with shared users 1 and 2 and paused ids `[1, 1]` it polls where the code skips; and the corrected chunker `Chunking.SplitInGroupsOfFour`, not the as-written `Chunking.SplitInGroupsOfFourAsWritten` (lines 330-332), so with four new posts it sends the fourth URL where the code drops it.
- Persistence.LoadFile: uses the corrected loader `Persistence.LoadRecord`, not the as-written `Persistence.LoadRecordAsWritten` (lines 265-301), so a private record whose owner is known loads where the code raises.
- Persistence.LoadAll: uses the corrected loader `Persistence.LoadRecord`, not the as-written `Persistence.LoadRecordAsWritten` (lines 265-301), so a private record whose owner is known loads where the code raises.
- Schedule.Scheduler.CreateSubFromFile: uses the corrected loader `Persistence.LoadRecord`, not the as-written `Persistence.LoadRecordAsWritten` (lines 265-301), so a private record whose owner is known loads where the code raises.
- Schedule.Scheduler.RetrieveSubs: uses the corrected loader `Persistence.LoadRecord`, not the as-written `Persistence.LoadRecordAsWritten` (lines 265-301), so a private record whose owner is known loads where the code raises.
- Schedule.Scheduler.LoadPaths: uses the corrected loader `Persistence.LoadRecord`, not the as-written `Persistence.LoadRecordAsWritten` (lines 265-301), so a private record whose owner is known loads where the code raises.
- Schedule.Scheduler.LoadStep: uses the corrected loader `Persistence.LoadRecord`, not the as-written `Persistence.LoadRecordAsWritten` (lines 265-301), so a private record whose owner is known loads where the code raises.
- Commands.Subscribe: uses the corrected decision `Commands.Decide`, not the as-written `Commands.DecideAsWritten` (lines 561-568), so an author already in a later subscription to the tags is told so where the code may create a duplicate.
- Commands.SubscribeHeld: uses the corrected decision `Commands.Decide`, not the as-written `Commands.DecideAsWritten` (lines 561-568), so an author already in a later subscription to the tags is told so where the code may create a duplicate.
- Cog.DanbooruCog.Subscribe: uses the corrected decision `Commands.Decide`, not the as-written `Commands.DecideAsWritten` (lines 561-568), so an author already in a later subscription to the tags is told so where the code may create a duplicate.
- Cog.DanbooruCog.SubscribeFound: uses the corrected decision `Commands.Decide`, not the as-written `Commands.DecideAsWritten` (lines 561-568), so an author already in a later subscription to the tags is told so where the code may create a duplicate.
- Cog.DanbooruCog.FindCandidates: uses the corrected decision `Commands.Decide`, not the as-written `Commands.DecideAsWritten` (lines 561-568), so an author already in a later subscription to the tags is told so where the code may create a duplicate.
- Commands.Unsubscribe: uses the corrected walk over the starting list (`Commands.UnsubFrom`), not the as-written `Commands.UnsubscribeAsWritten` (lines 601-618), so the subscription after a dropped one is still visited where the code skips it.
- Commands.UnsubTrace: uses the corrected walk over the starting list (`Commands.UnsubFrom`), not the as-written `Commands.UnsubscribeAsWritten` (lines 601-618), so the subscription after a dropped one is still visited where the code skips it.
- Commands.UnsubTraceEnds: uses the corrected walk over the starting list (`Commands.UnsubFrom`), not the as-written `Commands.UnsubscribeAsWritten` (lines 601-618), so the subscription after a dropped one is still visited where the code skips it.
- Cog.DanbooruCog.Unsubscribe: uses the corrected walk over the starting list (`Commands.UnsubFrom`), not the as-written `Commands.UnsubscribeAsWritten` (lines 601-618), so the subscription after a dropped one is still visited where the code skips it.
- Cog.DanbooruCog.UnsubWalk: uses the corrected walk over the starting list (`Commands.UnsubFrom`), not the as-written `Commands.UnsubscribeAsWritten` (lines 601-618), so the subscription after a dropped one is still visited where the code skips it.
- JSON, `open`, `os.remove` and `dateutil`: records are a datatype stored in the file map, and timestamps are written as decimal seconds. The real JSON text and date formats are not modelled.
- Polling.Max: timestamps with sub-second parts, time zones and the `datetime` type are not modelled; a `datetime` watermark is always truthy, so an unset one is `None`, never `0`.
- Subscription.SanitizeSpec: Python's `\w` is Unicode-aware; the model counts only ASCII letters, digits and `_` as word characters.
- DanHelper.BuildUrl: an empty relative `file_url` makes the code raise `IndexError`; the model requires a non-empty one instead of modelling the raise.
- Subscription.Dansub.ReplacePoolTag: the `ValueError` that `tags_list.remove(tag)` could raise cannot occur, since the tag being removed was just found in the list, so that path is not modelled.
- Posts are announced in the order the search returns them. No chronological sorting is done, because the code does none.
- Commands `dan`, `danr`, `list`, `convert`, `setup` and `restart`, `init_directories`, and `_get_danbooru_channel_of_message`/`_find_danbooru_image` are not modelled: they are HTTP and Discord formatting. `convert` also calls `Dansub` with the wrong number of arguments.
- Cog.DanbooruCog.constructor: a missing blacklist file makes the cog's constructor raise; the model requires the file instead. `aiohttp` sessions are left out.
- The decorators `is_owner_or_moderator`, `has_any_role`, `guild_only`, `dm_only` and `channel_only` are not modelled, except as follows:
  - the moderator role check of `delete_templates`, modelled in `MemeOffRounds.MemeOff.DeleteTemplates`;
  - `guild` being `None` in a direct message, modelled in `setup_dan`.
- The meme-off `ping` and `help` commands are not modelled: they are Discord formatting only.
- MemeOffRounds.MemeOff.Start: the deadline is set when the timer is started, not when its task first runs. The sleep is not modelled, and `FinishRound` is the end of the task.
- MemeOffRounds.MemeOff.DeadlineReply: its contract states only the no-timer reply and when the bare "left" appears. The full text is `DeadlineText`, covered by the deadline lemmas. Microseconds of the difference are ignored.
- Strings.ParseInt: `int` is modelled as an optional sign followed by ASCII digits. Surrounding whitespace, underscores and non-ASCII digits, which Python also accepts, are not modelled.
- Attributes of the bot that survive a reload of the meme-off cog are not modelled: the constructor starts from a bot without them.
- `TemplateSubmission.__eq__` (cogs/meme_off.py:26-29) is never called by the cog, and its fallback names an undefined `false`, so it is not modelled.
- Commands.PauseAll: a subscription is paused for a user exactly when it lists the user's account, with the whole account compared. The model compares ids, since the member objects are equal exactly when their ids are.
- Persistence.LoadShared: `get_channel` (cogs/danbooru.py:278 and :281) is not modelled, and the channel id of the record or of `sub_channel.json` is stored as found. The code stores `None` when the bot cannot see the channel. Every later `sub_to_json` of that subscription then raises `AttributeError` at `self.channel.id` (line 155): in `write_sub_to_file` and in every flush, including the flushes inside the tick's `except` clauses (lines 206, 209 and 214), which then end `schedule_task`. `sub.channel.send` at line 314 also raises. The model assumes every channel lookup succeeds.
- Commands.NewSub: the guild and channel of `sub_channel.json` (cogs/danbooru.py:576-577) are stored as ids, with `get_guild` and `get_channel` assumed to succeed. In the code either can return `None`. The subscription is then appended at line 583, and `write_sub_to_file` at line 584 raises `AttributeError` (line 154 or 155), which `sub` reports as "Error while adding sub" and re-raises. So the contract's promise of a guild and a channel for every shared subscription holds only under that assumption.
- Cog.DanbooruCog.MakeSub: it builds the shared `Dansub` from the `sub_channel.json` ids under the same assumption as `Commands.NewSub`. The `None` guild or channel that `get_guild` or `get_channel` can return at cogs/danbooru.py:576-577, and the raise that follows, are not modelled.
- Commands.DropUser: `sub.users.remove(user)` in `unsub` (cogs/danbooru.py:607) finds the member by Discord's equality, which compares ids. The model's `Commands.DropUser` and `Cog.DanbooruCog.DropOne` compare whole `User` records. The two agree while the users of a subscription have distinct ids and an id always comes with the same record, which holds for users the bot looked up.
- Persistence.IndexLines: `readlines()` (cogs/danbooru.py:249) also ends lines at `\r` and `\r\n`. The model splits the index at `\n` only. The two agree on every index the program writes, since a feed path is the feed directory, a key of word characters, `-`, `.` and digits, and `.json`, so it holds no `\r` or `\n` (`Subscription.FeedPathSafe`). Index files edited by hand with other line ends are not modelled.

## Findings

| source | as written | input that shows it | evidently intended | confidence | as-written member | corrected member |
|---|---|---|---|---|---|---|
| cogs/danbooru.py:265-301 | the private branch of `create_sub_from_file` looks up the owner but never adds it to `user_list`. The subscription is then built with no users, and the file name computed from `users[0]` (line 123) raises `IndexError` | any saved private subscription whose owner is still known to the bot | the owner is the subscription's only user, so private subscriptions survive a restart | not executed | `Persistence.PrivateRecordNeverLoadsAsWritten` | `Persistence.LoadToRecord` |
| cogs/danbooru.py:330-332 | in `_split_message_in_groups_of_four`, when the post at a position divisible by four is the last one, the loop breaks before adding it | four new posts `a`, `b`, `c`, `d`: one message with `a`, `b`, `c` only | every new post is sent, four to a message | not executed | `Chunking.FourPostsExample` | `Chunking.SplitInGroupsOfFourKeepsAll` |
| cogs/danbooru.py:192 | a shared subscription is skipped when it has as many paused ids as users. `pause` appends an id every time it runs (line 632), and `unsub` does not drop the id (line 607) | shared users 1 and 2, user 1 has paused twice: paused ids `[1, 1]`, and the tick skips the subscription although user 2 is active | skip a shared subscription only when every user paused | not executed | `Subscription.DormantAsWrittenSilencesActiveUser` | `Subscription.DormantIffNobodyActive` |
| cogs/danbooru.py:561-568 | `sub` stops at the first subscription with the requested tags that lacks the author when either side is private. A later subscription the author is already in is never looked at | a shared subscription of user 2 to `cat` listed before user 1's private one; user 1 asks for `cat` by direct message and gets a second private subscription | an author already subscribed is told so | not executed | `Commands.DecideAsWrittenDuplicatesPrivate` | `Commands.SubscribeIdempotent` |
| cogs/danbooru.py:601-618 | `unsub` iterates over the live list while removing emptied subscriptions from it, so the subscription after a removed one is never visited | user 1's private subscription to `cat` followed by a shared one with users 1 and 2; after `unsub cat` user 1 is still in the shared one | the author leaves every subscription to the tags | not executed | `Commands.UnsubscribeAsWrittenSkipsNext` | `Commands.UnsubscribeRemovesEverywhere` |
