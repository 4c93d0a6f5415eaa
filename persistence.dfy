/** What the danbooru cog keeps on disk: the JSON record of one
    subscription (`sub_to_json` / `create_sub_from_file`) and the index
    file listing every record's path (`write_to_file` / `retrieve_subs`).
    The disk itself is a map from path to content. */
module Persistence {
  import opened Wrappers
  import opened Strings
  import opened Sorting
  import opened DanTypes

  /** The filesystem the cog reads and writes. */
  class Disk {
    var files: map<string, FileContent>

    constructor (files: map<string, FileContent>)
      ensures this.files == files
    {
      this.files := files;
    }

    /** `os.remove(path)`: reports whether the file was there to remove. */
    method Delete(path: string) returns (found: bool)
      modifies this
      ensures found == (path in old(files)) && files == old(files) - {path}
    {
      found := path in files;
      files := files - {path};
    }
  }

  // ---------------------------------------------------------------------
  // Timestamps

  /** `str(old_timestamp)`: the word `None` while the watermark is unset,
      otherwise the instant, written here as its decimal seconds. */
  function TimestampText(t: Option<nat>): string
  {
    if t.None? then "None" else ShowNat(t.value)
  }

  /** The reading side: `'None'` leaves the watermark unset, anything else
      goes through the date parser, which raises on text it cannot read. */
  function ParseTimestamp(text: string): Result<Option<nat>, string>
  {
    if text == "None" then Ok(None)
    else
      var n := ParseNat(text);
      if n.Some? then Ok(Some(n.value)) else Err("unparsable timestamp")
  }

  /** Reading back what was written gives the same watermark, set or not:
      decimal text never reads as the word `None`. */
  lemma ParseTimestampText(t: Option<nat>)
    ensures ParseTimestamp(TimestampText(t)) == Ok(t)
  {
    if t.Some? {
      ShowNatDigits(t.value);
      ParseShowNat(t.value);
      assert !IsDigit("None"[0]);
      assert TimestampText(t) != "None";
    }
  }

  /** `str(datetime.datetime)`: the constructor assigns the class itself to
      `new_timestamp`, so every record holds the class's printed name. */
  const NewTimestampText := "<class 'datetime.datetime'>"

  // ---------------------------------------------------------------------
  // The subscription record

  /** `sub_to_json`: server and channel only for a shared subscription,
      `already_posted` is always empty and the paused ids are copied. */
  function ToRecord(s: SubState): SubRecord
  {
    SubRecord(
      s.users, s.tags, Some(s.isPrivate),
      if s.isPrivate then None else s.guild,
      if s.isPrivate then None else s.channel,
      TimestampText(s.oldTimestamp), NewTimestampText, [],
      Some(s.pools), Some(s.pausedUsers))
  }

  /** The Discord lookups `create_sub_from_file` makes: `bot.get_user(id)`
      over `accounts`, and `guild.get_member(id)` over the members of each
      guild the bot is in. Channel ids are taken to resolve. */
  datatype Directory = Directory(accounts: map<nat, User>, guilds: map<nat, map<nat, User>>)

  /** What loading one record gives: a subscription, nothing (its private
      owner is unknown) or an exception that ends `retrieve_subs`. */
  datatype LoadResult = Loaded(sub: SubState) | Skipped | Crashed(reason: string)

  /** `sub_channel.json`, when present: the server and channel every shared
      subscription is redirected to. */
  function SubChannelOverride(files: map<string, FileContent>): Option<(nat, nat)>
  {
    if SubChannelPath in files && files[SubChannelPath].SubChannelFile?
    then Some((files[SubChannelPath].server, files[SubChannelPath].channel))
    else None
  }

  /** The loop over `data['users']`: members found in the guild, in record
      order; the ones the guild does not know are dropped. */
  function ResolveMembers(users: seq<User>, members: map<nat, User>): (r: seq<User>)
    ensures |r| <= |users|
  {
    if users == [] then []
    else if users[0].id in members then [members[users[0].id]] + ResolveMembers(users[1..], members)
    else ResolveMembers(users[1..], members)
  }

  /** Every member returned was looked up by a stored id. */
  lemma {:induction false} ResolveMembersFound(users: seq<User>, members: map<nat, User>)
    ensures forall u :: u in ResolveMembers(users, members) ==>
      exists v :: v in users && v.id in members && members[v.id] == u
  {
    if users != [] {
      ResolveMembersFound(users[1..], members);
      forall u | u in ResolveMembers(users, members)
        ensures exists v :: v in users && v.id in members && members[v.id] == u
      {
        if u in ResolveMembers(users[1..], members) {
          var v :| v in users[1..] && v.id in members && members[v.id] == u;
          assert v in users;
        } else {
          assert users[0] in users && members[users[0].id] == u;
        }
      }
    }
  }

  /** Users whose ids resolve to themselves all survive, in order. */
  lemma {:induction false} ResolveMembersKeeps(users: seq<User>, members: map<nat, User>)
    requires forall v :: v in users ==> v.id in members && members[v.id] == v
    ensures ResolveMembers(users, members) == users
  {
    if users != [] {
      assert users[0] in users;
      ResolveMembersKeeps(users[1..], members);
      assert users == [users[0]] + users[1..];
    }
  }

  /** The shared branch of `create_sub_from_file`, common to both versions. */
  function LoadShared(dir: Directory, subChannel: Option<(nat, nat)>, r: SubRecord): LoadResult
  {
    var ids := if subChannel.Some? then Some(subChannel.value)
               else if r.server.Some? && r.channel.Some? then Some((r.server.value, r.channel.value))
               else None;
    if ids.None? then Crashed("KeyError: 'server'")
    else
      var (server, channel) := ids.value;
      if server !in dir.guilds then Crashed("AttributeError: get_member on None")
      else
        var ts := ParseTimestamp(r.oldTimestamp);
        if ts.Err? then Crashed(ts.error)
        else Loaded(SubState(ResolveMembers(r.users, dir.guilds[server]), SortStrings(r.tags), PoolsOf(r),
                             Some(server), Some(channel), false, ts.value, PausedOf(r)))
  }

  function PoolsOf(r: SubRecord): seq<Pool>
  {
    if r.pools.Some? then r.pools.value else []
  }

  function PausedOf(r: SubRecord): seq<nat>
  {
    if r.pausedUsers.Some? then r.pausedUsers.value else []
  }

  /** `create_sub_from_file` as written: the private branch looks the owner
      up but never adds it to `user_list`, so the `Dansub` constructor's
      `users[0]` (in `tags_to_filename`) raises `IndexError`. */
  function LoadRecordAsWritten(dir: Directory, subChannel: Option<(nat, nat)>, r: SubRecord): LoadResult
  {
    if r.isPrivate == Some(true) then
      if r.users == [] then Crashed("KeyError: '0'")
      else if r.users[0].id !in dir.accounts then Skipped
      else Crashed("IndexError: list index out of range")
    else LoadShared(dir, subChannel, r)
  }

  /** `create_sub_from_file` with the looked-up owner as the private
      subscription's one user. */
  function LoadRecord(dir: Directory, subChannel: Option<(nat, nat)>, r: SubRecord): LoadResult
  {
    if r.isPrivate == Some(true) then
      if r.users == [] then Crashed("KeyError: '0'")
      else if r.users[0].id !in dir.accounts then Skipped
      else
        var ts := ParseTimestamp(r.oldTimestamp);
        if ts.Err? then Crashed(ts.error)
        else Loaded(SubState([dir.accounts[r.users[0].id]], SortStrings(r.tags), PoolsOf(r),
                             None, None, true, ts.value, PausedOf(r)))
    else LoadShared(dir, subChannel, r)
  }

  /** `json.load(open(path))` followed by the loading above; a path that
      is missing or holds no subscription record raises. */
  function LoadFile(dir: Directory, files: map<string, FileContent>, path: string): LoadResult
  {
    if path !in files then Crashed("FileNotFoundError")
    else if !files[path].SubscriptionFile? then Crashed("not a subscription record")
    else LoadRecord(dir, SubChannelOverride(files), files[path].record)
  }

  /** `retrieve_subs` over the index lines: skipped records are left out,
      the first raise ends the load. */
  function LoadAll(dir: Directory, files: map<string, FileContent>, paths: seq<string>): Result<seq<SubState>, string>
  {
    if paths == [] then Ok([])
    else
      var first := LoadFile(dir, files, paths[0]);
      if first.Crashed? then Err(first.reason)
      else
        var rest := LoadAll(dir, files, paths[1..]);
        if rest.Err? then rest
        else if first.Loaded? then Ok([first.sub] + rest.value)
        else rest
  }

  /** A subscription whose stored accounts still resolve to themselves
      (and, if shared, no redirecting `sub_channel.json`). */
  predicate Reloadable(dir: Directory, subChannel: Option<(nat, nat)>, s: SubState)
  {
    && Sorted(s.tags)
    && (s.isPrivate ==>
          && |s.users| == 1 && s.guild.None? && s.channel.None?
          && s.users[0].id in dir.accounts && dir.accounts[s.users[0].id] == s.users[0])
    && (!s.isPrivate ==>
          && s.guild.Some? && s.channel.Some? && subChannel.None?
          && s.guild.value in dir.guilds
          && forall u :: u in s.users ==>
               u.id in dir.guilds[s.guild.value] && dir.guilds[s.guild.value][u.id] == u)
  }

  /** Loading what `sub_to_json` wrote gives back the same subscription. */
  lemma LoadToRecord(dir: Directory, subChannel: Option<(nat, nat)>, s: SubState)
    requires Reloadable(dir, subChannel, s)
    ensures LoadRecord(dir, subChannel, ToRecord(s)) == Loaded(s)
  {
    ParseTimestampText(s.oldTimestamp);
    SortIdempotent(s.tags);
    if s.isPrivate {
      assert [dir.accounts[s.users[0].id]] == s.users;
    } else {
      ResolveMembersKeeps(s.users, dir.guilds[s.guild.value]);
    }
  }

  /** As written, no private subscription survives a reload: it either is
      skipped (owner unknown) or raises, and a raise ends `retrieve_subs`. */
  lemma PrivateRecordNeverLoadsAsWritten(dir: Directory, subChannel: Option<(nat, nat)>, s: SubState)
    requires s.isPrivate
    ensures LoadRecordAsWritten(dir, subChannel, ToRecord(s)).Crashed? ||
            LoadRecordAsWritten(dir, subChannel, ToRecord(s)) == Skipped
    ensures Reloadable(dir, subChannel, s) ==>
            LoadRecordAsWritten(dir, subChannel, ToRecord(s)).Crashed?
  {
  }

  // ---------------------------------------------------------------------
  // The index file

  /** `write_to_file`: the feed file paths joined by newlines. */
  function IndexText(paths: seq<string>): string
  {
    Join("\n", paths)
  }

  /** `f.readlines()` followed by removing `\n` from each line: the fields
      between newlines, without the empty one after a final newline (an
      empty file has no lines). */
  function TextLines(text: string): seq<string>
  {
    var parts := Split(text, '\n');
    if parts[|parts| - 1] == "" then parts[..|parts| - 1] else parts
  }

  /** The paths `retrieve_subs` opens, in file order: each line without
      its newline and without quote characters. */
  function IndexLines(text: string): (r: seq<string>)
    ensures |r| == |TextLines(text)|
    ensures forall i :: 0 <= i < |r| ==> r[i] == DeleteChar(TextLines(text)[i], '\'')
  {
    var lines := TextLines(text);
    seq(|lines|, i requires 0 <= i < |lines| => DeleteChar(lines[i], '\''))
  }

  /** Reading the index back gives the paths it was written from, as long
      as none is empty or holds a newline or a quote (feed paths never do). */
  lemma IndexRoundTrip(paths: seq<string>)
    requires forall i :: 0 <= i < |paths| ==> paths[i] != "" && '\n' !in paths[i] && '\'' !in paths[i]
    ensures IndexLines(IndexText(paths)) == paths
  {
    if paths == [] {
      assert Split("", '\n') == [""];
      assert TextLines("") == [];
    } else {
      SplitJoin(paths, '\n');
      assert TextLines(IndexText(paths)) == paths;
    }
  }

  /** An index whose last path is empty loses that line: the one way the
      round trip can fail. */
  lemma IndexDropsTrailingEmptyPath()
    ensures IndexLines(IndexText(["a", ""])) == ["a"]
  {
    assert IndexText(["a", ""]) == "a\n";
    var t := "a\n";
    assert t[0] == 'a' && t[1..] == "\n";
    var u := "\n";
    assert u[0] == '\n' && u[1..] == "";
    assert Split(u, '\n') == ["", ""];
    var rest := Split(t[1..], '\n');
    assert rest[0] == "" && rest[1..] == [""];
    assert ['a'] + rest[0] == "a";
    assert Split(t, '\n') == [['a'] + rest[0]] + rest[1..];
    assert Split("a\n", '\n') == ["a", ""];
    assert TextLines("a\n") == ["a"];
    assert DeleteChar("a", '\'') == "a";
  }
}
