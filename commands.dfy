/** The value specification of the danbooru cog's commands: the tag
    blacklist, the channel bindings of `setup_dan`, and `sub`, `unsub`,
    `pause` and `unpause` on the scheduler's list of subscriptions, each
    as the states, files and replies it produces. */
module Commands {
  import opened Wrappers
  import opened Strings
  import opened Sorting
  import opened DanTypes
  import opened Subscription
  import opened Persistence
  import opened Polling

  // ---------------------------------------------------------------------
  // The tag blacklist

  const BlacklistHeading := "Following tags are blacklisted```\n"
  const NotInBlacklist := "tag not in blacklist"

  /** The reply of `blacklist_tags` and `blacklist_list`. */
  function BlacklistText(tags: seq<string>): string
  {
    BlacklistHeading + Join("\n", tags) + "```"
  }

  /** The listing holds the blacklist, one tag per line, between its
      heading and the closing fence. */
  lemma BlacklistTextLists(tags: seq<string>)
    requires |tags| >= 1 && forall k :: 0 <= k < |tags| ==> '\n' !in tags[k]
    ensures var t := BlacklistText(tags);
      && StartsWith(t, BlacklistHeading) && EndsWith(t, "```")
      && Split(t[|BlacklistHeading|..|t| - 3], '\n') == tags
  {
    var t := BlacklistText(tags);
    assert t[|BlacklistHeading|..|t| - 3] == Join("\n", tags);
    assert "\n" == ['\n'];
    SplitJoin(tags, '\n');
  }

  function AddedReply(tag: string): string
  {
    "tag `" + tag + "` added"
  }

  function RemovedReply(tag: string): string
  {
    "tag `" + tag + "` removed"
  }

  /** What `blacklist_remove` leaves: the list, the reply, and whether the
      list was written back. */
  datatype Removal = Removal(list: seq<string>, reply: string, written: bool)

  /** `blacklist_remove`: the first occurrence of a listed tag goes and the
      file is rewritten; a tag that is not listed is reported and nothing
      changes. */
  function RemoveTag(list: seq<string>, tag: string): (r: Removal)
    ensures tag in list ==> r.written && r.reply == RemovedReply(tag)
                            && multiset(r.list) == multiset(list) - multiset{tag}
    ensures tag !in list ==> r == Removal(list, NotInBlacklist, false)
  {
    if tag in list then
      RemoveFirstCount(list, tag);
      Removal(RemoveFirst(list, tag), RemovedReply(tag), true)
    else Removal(list, NotInBlacklist, false)
  }

  /** Removing a tag undoes adding it: the tags are the same, duplicates
      counted, and the same list when the tag was not listed before. */
  lemma RemoveTagUndoesAdd(list: seq<string>, tag: string)
    ensures RemoveTag(list + [tag], tag).written
    ensures multiset(RemoveTag(list + [tag], tag).list) == multiset(list)
    ensures tag !in list ==> RemoveTag(list + [tag], tag).list == list
  {
    assert tag in list + [tag];
    assert multiset(list + [tag]) == multiset(list) + multiset{tag};
    if tag !in list {
      RemoveFirstOfSnoc(list, tag);
    }
  }

  // ---------------------------------------------------------------------
  // Channel bindings

  /** Where a command was sent from: a direct-message channel, which has no
      guild, or a channel of a guild. */
  datatype Origin = DirectChannel(channel: nat) | GuildChannel(server: nat, channel: nat)

  function ChannelIds(bindings: seq<Binding>): (r: seq<nat>)
    ensures |r| == |bindings| && forall k :: 0 <= k < |r| ==> r[k] == bindings[k].channel
  {
    if bindings == [] then [] else [bindings[0].channel] + ChannelIds(bindings[1..])
  }

  /** The bindings the cog starts with: the saved list, or none when the
      file is missing (any other content is read as no bindings). */
  function SavedBindings(files: map<string, FileContent>): seq<Binding>
  {
    if DanbooruChannelPath in files && files[DanbooruChannelPath].BindingListFile?
    then files[DanbooruChannelPath].bindings else []
  }

  predicate DistinctChannels(bindings: seq<Binding>)
  {
    forall i, j :: 0 <= i < j < |bindings| ==> bindings[i].channel != bindings[j].channel
  }

  /** What `setup_dan` leaves: the bindings and the reply, or the error a
      direct message raises (its `guild` is `None`). */
  datatype Setup = Setup(bindings: seq<Binding>, reply: Result<string, string>)

  function SetupDan(bindings: seq<Binding>, origin: Origin): Setup
  {
    if origin.channel in ChannelIds(bindings) then Setup(bindings, Ok("channel already setup"))
    else if origin.DirectChannel? then Setup(bindings, Err("AttributeError: 'NoneType' object has no attribute 'id'"))
    else Setup(bindings + [Binding(origin.channel, origin.server)], Ok("channel setup for danbooru commands"))
  }

  /** `setup_dan` binds a guild channel once: afterwards the channel is
      bound, no channel is bound twice, and nothing else changes. */
  lemma SetupDanBindsOnce(bindings: seq<Binding>, origin: Origin)
    requires DistinctChannels(bindings)
    ensures var r := SetupDan(bindings, origin);
      && DistinctChannels(r.bindings)
      && (origin.GuildChannel? ==> origin.channel in ChannelIds(r.bindings) && r.reply.Ok?)
      && (origin.channel in ChannelIds(bindings) || origin.DirectChannel? ==> r.bindings == bindings)
      && |r.bindings| <= |bindings| + 1 && r.bindings[..|bindings|] == bindings
  {
    var r := SetupDan(bindings, origin);
    if origin.channel !in ChannelIds(bindings) && origin.GuildChannel? {
      var ids := ChannelIds(r.bindings);
      assert ids[|bindings|] == origin.channel;
      forall i, j | 0 <= i < j < |r.bindings|
        ensures r.bindings[i].channel != r.bindings[j].channel
      {
        if j == |bindings| {
          assert ChannelIds(bindings)[i] == bindings[i].channel;
        }
      }
    }
  }

  /** Running `setup_dan` twice from the same channel changes nothing the
      second time and says the channel is already set up. */
  lemma SetupDanIdempotent(bindings: seq<Binding>, origin: Origin)
    requires origin.GuildChannel?
    ensures var once := SetupDan(bindings, origin);
      SetupDan(once.bindings, origin) == Setup(once.bindings, Ok("channel already setup"))
  {
    var once := SetupDan(bindings, origin);
    if origin.channel !in ChannelIds(bindings) {
      assert ChannelIds(once.bindings)[|bindings|] == origin.channel;
    }
  }

  // ---------------------------------------------------------------------
  // Subscribing

  /** A `sub` request: who asked, from where, and the tag text. */
  datatype Request = Request(author: User, origin: Origin, tags: string)

  const LookupErrorReply := "Error while looking up tag. Try again or correct your tags."
  const AlreadyReply := "\nYou are already subscribed to those tags"
  const JoinedReply := "\nSuccessfully added to existing sub `"
  const CreatedReply := "successfully subscribed to the tags: `"
  const NewestReply := "here is the newest image: "

  /** `pool_id = tag[len('pool:'):]`: the text after the first five
      characters, wherever `pool:` occurs in the tag. */
  function PoolId(tag: string): string
  {
    if |tag| >= 5 then tag[5..] else ""
  }

  /** The pool loop of `sub`: one pool for each tag holding `pool:`, in
      request order, named by the pool lookup. */
  function RequestPools(tags: seq<string>, lookupPool: string -> Option<string>): (r: seq<Pool>)
    ensures |r| <= |tags|
    ensures forall p :: p in r ==>
      && p.tag in tags && Contains(p.tag, "pool:") && p.id == PoolId(p.tag) && p.name == lookupPool(p.id)
    ensures (forall t :: t in tags ==> !Contains(t, "pool:")) ==> r == []
  {
    if tags == [] then []
    else
      var rest := RequestPools(tags[1..], lookupPool);
      assert forall p :: p in rest ==> p.tag in tags by {
        assert forall t :: t in tags[1..] ==> t in tags;
      }
      var tag := tags[0];
      if Contains(tag, "pool:") then [Pool(tag, lookupPool(PoolId(tag)), PoolId(tag))] + rest
      else rest
  }

  /** One more tag at the end adds its pool, if any, at the end. */
  lemma {:induction false} RequestPoolsSnoc(tags: seq<string>, t: string, lookupPool: string -> Option<string>)
    ensures RequestPools(tags + [t], lookupPool) ==
            RequestPools(tags, lookupPool) + (if Contains(t, "pool:") then [Pool(t, lookupPool(PoolId(t)), PoolId(t))] else [])
  {
    if tags == [] {
      assert [] + [t] == [t];
    } else {
      assert (tags + [t])[0] == tags[0] && (tags + [t])[1..] == tags[1..] + [t];
      RequestPoolsSnoc(tags[1..], t, lookupPool);
    }
  }

  /** The test of `sub`'s loop: the same tags, in a subscription the
      request may join or find itself in (a private request may use any,
      a shared one only a shared one). */
  predicate Candidate(s: SubState, tags: seq<string>, isPrivate: bool)
  {
    s.tags == tags && (!s.isPrivate || isPrivate)
  }

  predicate Holds(s: SubState, id: nat)
  {
    id in IdSet(s.users)
  }

  /** The first candidate from position `k` on. */
  function FirstCandidate(states: seq<SubState>, tags: seq<string>, isPrivate: bool, k: nat): (r: Option<nat>)
    requires k <= |states|
    decreases |states| - k
    ensures r.Some? ==> k <= r.value < |states| && Candidate(states[r.value], tags, isPrivate)
                        && forall j :: k <= j < r.value ==> !Candidate(states[j], tags, isPrivate)
    ensures r.None? ==> forall j :: k <= j < |states| ==> !Candidate(states[j], tags, isPrivate)
  {
    if k == |states| then None
    else if Candidate(states[k], tags, isPrivate) then Some(k)
    else FirstCandidate(states, tags, isPrivate, k + 1)
  }

  /** The first candidate from position `k` on that already lists the
      account `id`. */
  function FirstHolding(states: seq<SubState>, tags: seq<string>, isPrivate: bool, id: nat, k: nat): (r: Option<nat>)
    requires k <= |states|
    decreases |states| - k
    ensures r.Some? ==> k <= r.value < |states| && Candidate(states[r.value], tags, isPrivate)
                        && Holds(states[r.value], id)
                        && forall j :: k <= j < r.value ==> !(Candidate(states[j], tags, isPrivate) && Holds(states[j], id))
    ensures r.None? ==> forall j :: k <= j < |states| && Candidate(states[j], tags, isPrivate) ==> !Holds(states[j], id)
  {
    if k == |states| then None
    else if Candidate(states[k], tags, isPrivate) && Holds(states[k], id) then Some(k)
    else FirstHolding(states, tags, isPrivate, id, k + 1)
  }

  datatype Outcome = LookupFailed | AlreadySubscribed(index: nat) | Joined(index: nat) | Created

  /** The decision of `sub` as written: only the first candidate is looked
      at; when the author is not in it and either side is private, the
      loop breaks and a new subscription is created. */
  function DecideAsWritten(states: seq<SubState>, tags: seq<string>, isPrivate: bool, id: nat): Outcome
  {
    var c := FirstCandidate(states, tags, isPrivate, 0);
    if c.None? then Created
    else if Holds(states[c.value], id) then AlreadySubscribed(c.value)
    else if states[c.value].isPrivate || isPrivate then Created
    else Joined(c.value)
  }

  /** A direct-message request for tags that a shared subscription of
      someone else has, listed before the author's own private one, makes
      a second private subscription for the same author and tags. */
  lemma DecideAsWrittenDuplicatesPrivate()
    ensures var tags := ["cat"];
      var shared := SubState([User(2, "b", "<@2>")], tags, [], Some(7), Some(8), false, None, []);
      var own := SubState([User(1, "a", "<@1>")], tags, [], None, None, true, None, []);
      && DecideAsWritten([shared, own], tags, true, 1) == Created
      && Candidate(own, tags, true) && Holds(own, 1)
  {
    var tags := ["cat"];
    var shared := SubState([User(2, "b", "<@2>")], tags, [], Some(7), Some(8), false, None, []);
    var own := SubState([User(1, "a", "<@1>")], tags, [], None, None, true, None, []);
    assert Candidate(shared, tags, true);
    assert IdSet(shared.users) == {2};
    assert IdSet(own.users) == {1};
  }

  /** The decision of `sub` as intended: a request from an author already
      in a candidate is answered as such; otherwise a shared request joins
      the first shared candidate, and anything else creates a new
      subscription. */
  function Decide(states: seq<SubState>, tags: seq<string>, isPrivate: bool, id: nat): (r: Outcome)
    ensures r != LookupFailed
    ensures r.AlreadySubscribed? ==> r.index < |states| && Candidate(states[r.index], tags, isPrivate)
                                     && Holds(states[r.index], id)
    ensures r.Joined? ==> r.index < |states| && Candidate(states[r.index], tags, isPrivate)
                          && !states[r.index].isPrivate && !isPrivate && !Holds(states[r.index], id)
    ensures r.Created? ==> forall j :: 0 <= j < |states| && Candidate(states[j], tags, isPrivate) ==>
                             !Holds(states[j], id)
  {
    var a := FirstHolding(states, tags, isPrivate, id, 0);
    if a.Some? then AlreadySubscribed(a.value)
    else
      var c := FirstCandidate(states, tags, isPrivate, 0);
      if c.Some? && !states[c.value].isPrivate && !isPrivate then Joined(c.value) else Created
  }

  /** The two decisions agree except when the as-written one stops at a
      first candidate that lacks the author while a later one has it. */
  lemma DecideAgreesWhenNoLaterHolder(states: seq<SubState>, tags: seq<string>, isPrivate: bool, id: nat)
    requires var c := FirstCandidate(states, tags, isPrivate, 0);
      c.Some? ==> forall j :: c.value < j < |states| && Candidate(states[j], tags, isPrivate) ==> !Holds(states[j], id)
    ensures DecideAsWritten(states, tags, isPrivate, id) == Decide(states, tags, isPrivate, id)
  {
    var c := FirstCandidate(states, tags, isPrivate, 0);
    var a := FirstHolding(states, tags, isPrivate, id, 0);
    if c.Some? && a.Some? {
      assert a.value == c.value;
    }
  }

  /** The subscription `sub` creates: the author alone, the request's tags
      sorted, its pools, the channel of the override file or of the
      request (none for a private one), and the watermark at the newest
      post's time. */
  function NewSub(q: Request, files: map<string, FileContent>, newest: Post,
                  lookupPool: string -> Option<string>): (s: SubState)
    ensures Sorted(s.tags) && s.users == [q.author] && s.isPrivate == q.origin.DirectChannel?
    ensures !s.isPrivate ==> s.guild.Some? && s.channel.Some?
    ensures multiset(s.tags) == multiset(Split(q.tags, ' '))
  {
    var tags := Split(q.tags, ' ');
    var isPrivate := q.origin.DirectChannel?;
    var ids := SubChannelOverride(files);
    SortSorts(tags);
    SortPermutes(tags);
    SubState([q.author], SortStrings(tags), RequestPools(tags, lookupPool),
             if isPrivate then None else if ids.Some? then Some(ids.value.0) else Some(q.origin.server),
             if isPrivate then None else if ids.Some? then Some(ids.value.1) else Some(q.origin.channel),
             isPrivate, Some(newest.created), [])
  }

  /** What `sub` leaves: the subscriptions, the files, the replies, and
      which way it went. */
  datatype Subscribed = Subscribed(states: seq<SubState>, files: map<string, FileContent>,
                                   replies: seq<string>, outcome: Outcome)

  /** `sub`, with `newest` the first post of the one-post lookup (`None`
      when the lookup failed or found nothing). */
  /** The author joins the shared subscription at `j`, which is saved. */
  function Joining(states: seq<SubState>, files: map<string, FileContent>, author: User, j: nat): Subscribed
    requires j < |states|
  {
    var s := states[j].(users := states[j].users + [author]);
    Subscribed(states[j := s], files[StateFeedFile(s) := SubscriptionFile(ToRecord(s))],
               [author.mention + JoinedReply + TagText(s) + "`"], Joined(j))
  }

  /** A new subscription for the request goes at the end and is saved. */
  function Creating(states: seq<SubState>, files: map<string, FileContent>, q: Request,
                    newest: Post, lookupPool: string -> Option<string>): Subscribed
  {
    var s := NewSub(q, files, newest, lookupPool);
    Subscribed(states + [s], files[StateFeedFile(s) := SubscriptionFile(ToRecord(s))],
               [CreatedReply + TagText(s) + "`",
                NewestReply + newest.fileUrl], Created)
  }

  function Subscribe(states: seq<SubState>, files: map<string, FileContent>, q: Request,
                     newest: Option<Post>, lookupPool: string -> Option<string>): Subscribed
  {
    if newest.None? then Subscribed(states, files, [LookupErrorReply], LookupFailed)
    else
      var tags := SortStrings(Split(q.tags, ' '));
      var o := Decide(states, tags, q.origin.DirectChannel?, q.author.id);
      if o.AlreadySubscribed? then
        Subscribed(states, files, [q.author.mention + AlreadyReply], o)
      else if o.Joined? then Joining(states, files, q.author, o.index)
      else Creating(states, files, q, newest.value, lookupPool)
  }

  /** `Subscribe` when a candidate already lists the author. */
  lemma SubscribeHeld(states: seq<SubState>, files: map<string, FileContent>, q: Request,
                      newest: Post, lookupPool: string -> Option<string>)
    requires FirstHolding(states, SortStrings(Split(q.tags, ' ')), q.origin.DirectChannel?, q.author.id, 0).Some?
    ensures Subscribe(states, files, q, Some(newest), lookupPool)
            == Subscribed(states, files, [q.author.mention + AlreadyReply],
                          Decide(states, SortStrings(Split(q.tags, ' ')), q.origin.DirectChannel?, q.author.id))
  {
  }

  /** `Subscribe` when no candidate lists the author: the first candidate
      is joined when it and the request are shared. */
  lemma SubscribeNotHeld(states: seq<SubState>, files: map<string, FileContent>, q: Request,
                         newest: Post, lookupPool: string -> Option<string>)
    requires FirstHolding(states, SortStrings(Split(q.tags, ' ')), q.origin.DirectChannel?, q.author.id, 0).None?
    ensures var c := FirstCandidate(states, SortStrings(Split(q.tags, ' ')), q.origin.DirectChannel?, 0);
      Subscribe(states, files, q, Some(newest), lookupPool)
      == if c.Some? && !states[c.value].isPrivate && !q.origin.DirectChannel? then Joining(states, files, q.author, c.value)
         else Creating(states, files, q, newest, lookupPool)
  {
  }

  /** After a successful `sub` the author is in a subscription to the
      requested tags that the request may use; only the subscription the
      request went to changes, and a new one goes at the end. */
  lemma SubscribeSubscribes(states: seq<SubState>, files: map<string, FileContent>, q: Request,
                            newest: Option<Post>, lookupPool: string -> Option<string>)
    requires newest.Some?
    ensures var r := Subscribe(states, files, q, newest, lookupPool);
      var tags := SortStrings(Split(q.tags, ' '));
      && (exists j :: 0 <= j < |r.states| && Candidate(r.states[j], tags, q.origin.DirectChannel?)
                      && Holds(r.states[j], q.author.id))
      && |r.states| == |states| + (if r.outcome.Created? then 1 else 0)
      && (forall j :: 0 <= j < |states| && !(r.outcome.Joined? && j == r.outcome.index) ==> r.states[j] == states[j])
  {
    var r := Subscribe(states, files, q, newest, lookupPool);
    var tags := SortStrings(Split(q.tags, ' '));
    var isPrivate := q.origin.DirectChannel?;
    var o := r.outcome;
    if o.AlreadySubscribed? {
      assert Candidate(r.states[o.index], tags, isPrivate) && Holds(r.states[o.index], q.author.id);
    } else if o.Joined? {
      var s := r.states[o.index];
      assert s.users[|s.users| - 1] == q.author;
      assert Candidate(s, tags, isPrivate) && Holds(s, q.author.id);
    } else {
      var s := r.states[|states|];
      assert s.users[0] == q.author;
      assert Candidate(s, tags, isPrivate) && Holds(s, q.author.id);
    }
  }

  /** Subscribing twice to the same tags from the same place adds nothing
      the second time: the author is told it is already subscribed. */
  lemma SubscribeIdempotent(states: seq<SubState>, files: map<string, FileContent>, q: Request,
                            newest: Post, lookupPool: string -> Option<string>)
    ensures var once := Subscribe(states, files, q, Some(newest), lookupPool);
      var twice := Subscribe(once.states, once.files, q, Some(newest), lookupPool);
      && twice.outcome.AlreadySubscribed?
      && twice.states == once.states && twice.files == once.files
  {
    var once := Subscribe(states, files, q, Some(newest), lookupPool);
    SubscribeSubscribes(states, files, q, Some(newest), lookupPool);
    var tags := SortStrings(Split(q.tags, ' '));
    var j :| 0 <= j < |once.states| && Candidate(once.states[j], tags, q.origin.DirectChannel?)
             && Holds(once.states[j], q.author.id);
    assert FirstHolding(once.states, tags, q.origin.DirectChannel?, q.author.id, 0).Some?;
  }

  // ---------------------------------------------------------------------
  // Unsubscribing

  predicate DistinctIds(users: seq<User>)
  {
    forall i, j :: 0 <= i < j < |users| ==> users[i].id != users[j].id
  }

  /** The users left once `id` is gone, in their order. */
  function Without(users: seq<User>, id: nat): (r: seq<User>)
    ensures id !in IdSet(r) && |r| <= |users|
    ensures forall u :: u in r <==> u in users && u.id != id
  {
    if users == [] then []
    else
      var rest := Without(users[1..], id);
      assert users == [users[0]] + users[1..];
      (if users[0].id == id then [] else [users[0]]) + rest
  }

  /** The users left by `unsub`'s inner loop, and how many entries it took
      out. */
  datatype Dropped = Dropped(users: seq<User>, removed: nat)

  /** `unsub`'s loop over `sub.users` from position `i`, removing from the
      list it walks: after a removal the next entry moves into the freed
      position and is passed over. */
  function DropUser(users: seq<User>, i: nat, id: nat): (r: Dropped)
    decreases |users| - i
    ensures |r.users| + r.removed == |users|
    ensures r.removed == 0 ==> r.users == users
  {
    if i >= |users| then Dropped(users, 0)
    else if users[i].id == id then
      var d := DropUser(RemoveFirst(users, users[i]), i + 1, id);
      Dropped(d.users, d.removed + 1)
    else DropUser(users, i + 1, id)
  }

  lemma {:induction false} DropUserAbsent(users: seq<User>, i: nat, id: nat)
    requires id !in IdSet(users)
    ensures DropUser(users, i, id) == Dropped(users, 0)
    decreases |users| - i
  {
    if i < |users| {
      assert users[i] in users;
      DropUserAbsent(users, i + 1, id);
    }
  }

  lemma {:induction false} WithoutAppend(a: seq<User>, b: seq<User>, id: nat)
    ensures Without(a + b, id) == Without(a, id) + Without(b, id)
  {
    if a != [] {
      assert (a + b)[0] == a[0] && (a + b)[1..] == a[1..] + b;
      WithoutAppend(a[1..], b, id);
      var h := if a[0].id == id then [] else [a[0]];
      calc {
        Without(a + b, id);
        h + Without(a[1..] + b, id);
        h + (Without(a[1..], id) + Without(b, id));
        (h + Without(a[1..], id)) + Without(b, id);
      }
    } else {
      assert a + b == b;
      assert Without(a, id) == [];
      assert [] + Without(b, id) == Without(b, id);
    }
  }

  lemma WithoutAbsent(users: seq<User>, id: nat)
    requires id !in IdSet(users)
    ensures Without(users, id) == users
  {
    if users != [] {
      assert users[0] in users;
      assert IdSet(users[1..]) <= IdSet(users);
      WithoutAbsent(users[1..], id);
      assert users == [users[0]] + users[1..];
    }
  }

  /** `list.remove(x)` where `x` is at position `i` and not before it. */
  lemma {:induction false} RemoveFirstAt<T>(s: seq<T>, i: nat)
    requires i < |s| && s[i] !in s[..i]
    ensures RemoveFirst(s, s[i]) == s[..i] + s[i + 1..]
  {
    if i > 0 {
      assert s[0] in s[..i];
      assert s[1..][i - 1] == s[i] && s[1..][..i - 1] == s[1..i];
      assert s[i] !in s[1..][..i - 1] by {
        assert forall x :: x in s[1..i] ==> x in s[..i];
      }
      RemoveFirstAt(s[1..], i - 1);
      assert s[1..][i..] == s[i + 1..];
      assert s[..i] == [s[0]] + s[1..i];
      calc {
        RemoveFirst(s, s[i]);
        [s[0]] + RemoveFirst(s[1..], s[i]);
        [s[0]] + (s[1..i] + s[i + 1..]);
        ([s[0]] + s[1..i]) + s[i + 1..];
      }
    } else {
      assert s[..0] == [];
      assert [] + s[1..] == s[1..];
    }
  }

  /** With distinct ids, no account before or after position `i` has the
      id of the one at `i`. */
  lemma OthersLackId(users: seq<User>, i: nat, id: nat)
    requires DistinctIds(users) && i < |users| && users[i].id == id
    ensures id !in IdSet(users[..i]) && id !in IdSet(users[i + 1..])
    ensures users[i] !in users[..i]
  {
    forall u | u in users[..i]
      ensures u.id != id
    {
      var k :| 0 <= k < i && users[..i][k] == u;
      assert users[k].id != users[i].id;
    }
    forall u | u in users[i + 1..]
      ensures u.id != id
    {
      var k :| 0 <= k < |users| - i - 1 && users[i + 1..][k] == u;
      assert users[i + 1 + k].id != users[i].id;
    }
  }

  /** With distinct ids, the account at position `i` is the only one with
      its id. */
  lemma DropAt(users: seq<User>, i: nat, id: nat)
    requires DistinctIds(users) && i < |users| && users[i].id == id
    ensures id !in IdSet(users[..i] + users[i + 1..])
    ensures RemoveFirst(users, users[i]) == users[..i] + users[i + 1..]
    ensures Without(users, id) == users[..i] + users[i + 1..]
  {
    var a, b := users[..i], users[i + 1..];
    OthersLackId(users, i, id);
    assert IdSet(a + b) == IdSet(a) + IdSet(b) by {
      assert forall u :: u in a + b <==> u in a || u in b;
    }
    RemoveFirstAt(users, i);
    assert users == (a + [users[i]]) + b;
    WithoutAppend(a + [users[i]], b, id);
    WithoutAppend(a, [users[i]], id);
    WithoutAbsent(a, id);
    WithoutAbsent(b, id);
    assert [users[i]][1..] == [];
    assert Without([users[i]], id) == [];
    assert a + [] == a;
  }

  /** With distinct ids, the inner loop's skipping does no harm: exactly
      the entry for `id` goes. */
  lemma {:induction false} DropUserDistinct(users: seq<User>, i: nat, id: nat)
    requires DistinctIds(users)
    requires forall k :: 0 <= k < i && k < |users| ==> users[k].id != id
    ensures DropUser(users, i, id) == Dropped(Without(users, id), if id in IdSet(users) then 1 else 0)
    decreases |users| - i
  {
    if i >= |users| {
      assert id !in IdSet(users);
      DropUserAbsent(users, i, id);
      WithoutAbsent(users, id);
    } else if users[i].id == id {
      DropAt(users, i, id);
      DropUserAbsent(users[..i] + users[i + 1..], i + 1, id);
      assert users[i] in users;
    } else {
      DropUserDistinct(users, i + 1, id);
    }
  }

  const UnsubscribedReply := "successfully unsubscribed"
  const NotSubscribedReply := "You aren't subscribed to that tag"
  const FullyRemovedReply := "subscription fully removed"
  const RemoveErrorReply := "Error while removing feed file. `FileNotFoundError(2, 'No such file or directory')`"

  function Repeat(text: string, n: nat): (r: seq<string>)
    ensures |r| == n && forall k :: 0 <= k < n ==> r[k] == text
  {
    if n == 0 then [] else [text] + Repeat(text, n - 1)
  }

  lemma RepeatSnoc(text: string, n: nat)
    ensures Repeat(text, n + 1) == Repeat(text, n) + [text]
  {
    assert |Repeat(text, n + 1)| == |Repeat(text, n) + [text]|;
  }

  /** The running state of `unsub`'s outer loop: the subscriptions kept so
      far, the files, the replies, and `user_unsubscribed`. */
  datatype Unsub = Unsub(kept: seq<SubState>, files: map<string, FileContent>,
                         replies: seq<string>, unsubscribed: bool)

  /** `unsub`'s loop body for the subscription at position `i` of the list
      it started from. Each removal rewrites the index of the list as it
      stands (the subscriptions kept so far and the ones not yet visited)
      and the subscription's record; a subscription left without users is
      dropped and its feed file deleted. */
  function UnsubOne(states: seq<SubState>, i: nat, tags: seq<string>, id: nat, st: Unsub): Unsub
    requires i < |states|
  {
    var s := states[i];
    if s.tags != tags then st.(kept := st.kept + [s])
    else
      var d := DropUser(s.users, 0, id);
      var left := s.(users := d.users);
      var flag := st.unsubscribed || d.removed > 0;
      var files := if d.removed > 0
        then WriteIndex(st.files, st.kept + states[i..])[StateFeedFile(s) := SubscriptionFile(ToRecord(left))]
        else st.files;
      var replies := st.replies + Repeat(UnsubscribedReply, d.removed) + (if flag then [] else [NotSubscribedReply]);
      if d.users == [] then
        if StateFeedFile(s) in files
        then Unsub(st.kept, files - {StateFeedFile(s)}, replies + [FullyRemovedReply], flag)
        else Unsub(st.kept, files, replies + [RemoveErrorReply], flag)
      else Unsub(st.kept + [left], files, replies, flag)
  }

  /** A visit of a subscription with the requested tags, by whether the
      author's removals leave it with users. */
  lemma UnsubOneMatched(states: seq<SubState>, i: nat, tags: seq<string>, id: nat, st: Unsub,
                        files: map<string, FileContent>, replies: seq<string>)
    requires i < |states| && states[i].tags == tags
    requires var s, d := states[i], DropUser(states[i].users, 0, id);
      && files == (if d.removed > 0
                   then WriteIndex(st.files, st.kept + states[i..])[StateFeedFile(s) := SubscriptionFile(ToRecord(s.(users := d.users)))]
                   else st.files)
      && replies == st.replies + Repeat(UnsubscribedReply, d.removed)
                    + (if st.unsubscribed || d.removed > 0 then [] else [NotSubscribedReply])
    ensures var s, d := states[i], DropUser(states[i].users, 0, id);
      var flag := st.unsubscribed || d.removed > 0;
      && (d.users != [] ==> UnsubOne(states, i, tags, id, st) == Unsub(st.kept + [s.(users := d.users)], files, replies, flag))
      && (d.users == [] && StateFeedFile(s) in files ==>
            UnsubOne(states, i, tags, id, st) == Unsub(st.kept, files - {StateFeedFile(s)}, replies + [FullyRemovedReply], flag))
      && (d.users == [] && StateFeedFile(s) !in files ==>
            UnsubOne(states, i, tags, id, st) == Unsub(st.kept, files, replies + [RemoveErrorReply], flag))
  {
  }

  /** `unsub`'s outer loop from position `i`, walking the list as it was
      when the command started. */
  function UnsubFrom(states: seq<SubState>, i: nat, tags: seq<string>, id: nat, st: Unsub): Unsub
    requires i <= |states|
    decreases |states| - i
  {
    if i == |states| then st else UnsubFrom(states, i + 1, tags, id, UnsubOne(states, i, tags, id, st))
  }

  /** `unsub`: the request's tags are sorted and compared with each
      subscription's. */
  function Unsubscribe(states: seq<SubState>, files: map<string, FileContent>, tags: string, id: nat): Unsub
  {
    UnsubFrom(states, 0, SortStrings(Split(tags, ' ')), id, Unsub([], files, [], false))
  }

  /** The states `unsub`'s outer loop passes through on its first `n`
      visits. */
  function UnsubTrace(states: seq<SubState>, tags: seq<string>, id: nat, st: Unsub, n: nat): (r: seq<Unsub>)
    requires n <= |states|
    ensures |r| == n + 1 && r[0] == st
    ensures forall k :: 0 <= k < n ==> r[k + 1] == UnsubOne(states, k, tags, id, r[k])
  {
    if n == 0 then [st]
    else
      var t := UnsubTrace(states, tags, id, st, n - 1);
      t + [UnsubOne(states, n - 1, tags, id, t[n - 1])]
  }

  /** The last state of the trace is the one the loop ends in. */
  lemma UnsubTraceEnds(states: seq<SubState>, tags: seq<string>, id: nat, st: Unsub)
    ensures UnsubTrace(states, tags, id, st, |states|)[|states|] == UnsubFrom(states, 0, tags, id, st)
  {
    var r := UnsubTrace(states, tags, id, st, |states|);
    var k := 0;
    while k < |states|
      invariant k <= |states|
      invariant UnsubFrom(states, k, tags, id, r[k]) == UnsubFrom(states, 0, tags, id, st)
    {
      k := k + 1;
    }
  }

  /** `unsub` as written walks the live list while removing from it, so
      the subscription after a dropped one is never examined. Only the
      subscriptions are followed here. */
  function UnsubscribeAsWritten(live: seq<SubState>, i: nat, tags: seq<string>, id: nat): seq<SubState>
    decreases |live| - i
  {
    if i >= |live| then live
    else if live[i].tags != tags then UnsubscribeAsWritten(live, i + 1, tags, id)
    else
      var d := DropUser(live[i].users, 0, id);
      if d.users == [] then UnsubscribeAsWritten(live[..i] + live[i + 1..], i + 1, tags, id)
      else UnsubscribeAsWritten(live[i := live[i].(users := d.users)], i + 1, tags, id)
  }

  /** A user with a private subscription to some tags, followed by a
      shared one to the same tags, stays in the shared one. */
  lemma UnsubscribeAsWrittenSkipsNext()
    ensures var tags := ["cat"];
      var u := User(1, "a", "<@1>");
      var v := User(2, "b", "<@2>");
      var own := SubState([u], tags, [], None, None, true, None, []);
      var shared := SubState([u, v], tags, [], Some(7), Some(8), false, None, []);
      && UnsubscribeAsWritten([own, shared], 0, tags, 1) == [shared]
      && Holds(shared, 1)
      && UnsubFrom([own, shared], 0, tags, 1, Unsub([], map[], [], false)).kept == [shared.(users := [v])]
  {
    var tags := ["cat"];
    var u := User(1, "a", "<@1>");
    var v := User(2, "b", "<@2>");
    var own := SubState([u], tags, [], None, None, true, None, []);
    var shared := SubState([u, v], tags, [], Some(7), Some(8), false, None, []);
    assert DropUser([u], 0, 1) == Dropped([], 1) by {
      assert RemoveFirst([u], u) == [];
    }
    assert [own, shared][..0] + [own, shared][1..] == [shared];
    assert shared in [shared];
    assert DropUser([u, v], 0, 1) == Dropped([v], 1) by {
      assert RemoveFirst([u, v], u) == [v];
      assert DropUser([v], 1, 1) == Dropped([v], 0);
    }
    var states := [own, shared];
    var st1 := UnsubOne(states, 0, tags, 1, Unsub([], map[], [], false));
    assert st1.kept == [] by {
      assert StateFeedFile(own) in WriteIndex(map[], states)[StateFeedFile(own) := SubscriptionFile(ToRecord(own.(users := [])))];
    }
    var st2 := UnsubOne(states, 1, tags, 1, st1);
    assert st2.kept == [shared.(users := [v])];
    assert UnsubFrom(states, 2, tags, 1, st2) == st2;
  }

  /** The reference outcome for one subscription: a matching one loses the
      account and goes once nobody is left; any other stays as it is. */
  function UnsubPiece(s: SubState, tags: seq<string>, id: nat): seq<SubState>
  {
    if s.tags != tags then [s]
    else if Without(s.users, id) == [] then []
    else [s.(users := Without(s.users, id))]
  }

  function UnsubKept(states: seq<SubState>, tags: seq<string>, id: nat): seq<SubState>
  {
    if states == [] then [] else UnsubPiece(states[0], tags, id) + UnsubKept(states[1..], tags, id)
  }

  /** The reference outcome: no subscription to the tags lists the account
      any more, every other subscription stays, and nothing new appears. */
  lemma {:induction false} UnsubKeptSpec(states: seq<SubState>, tags: seq<string>, id: nat)
    ensures forall s :: s in UnsubKept(states, tags, id) && s.tags == tags ==> !Holds(s, id)
    ensures forall s :: s in states && s.tags != tags ==> s in UnsubKept(states, tags, id)
    ensures |UnsubKept(states, tags, id)| <= |states|
  {
    if states != [] {
      UnsubKeptSpec(states[1..], tags, id);
      assert states == [states[0]] + states[1..];
    }
  }

  /** When no subscription lists an account twice, `unsub` keeps exactly
      the reference outcome. */
  lemma {:induction false} UnsubFromKept(states: seq<SubState>, i: nat, tags: seq<string>, id: nat, st: Unsub)
    requires i <= |states|
    requires forall k :: 0 <= k < |states| ==> DistinctIds(states[k].users)
    ensures UnsubFrom(states, i, tags, id, st).kept == st.kept + UnsubKept(states[i..], tags, id)
    decreases |states| - i
  {
    if i == |states| {
      assert states[i..] == [];
      assert st.kept + [] == st.kept;
    } else {
      var s := states[i];
      var next := UnsubOne(states, i, tags, id, st);
      UnsubOneKept(states, i, tags, id, st);
      UnsubFromKept(states, i + 1, tags, id, next);
      assert states[i..][0] == s && states[i..][1..] == states[i + 1..];
      calc {
        UnsubFrom(states, i, tags, id, st).kept;
        UnsubFrom(states, i + 1, tags, id, next).kept;
        next.kept + UnsubKept(states[i + 1..], tags, id);
        (st.kept + UnsubPiece(s, tags, id)) + UnsubKept(states[i + 1..], tags, id);
        st.kept + (UnsubPiece(s, tags, id) + UnsubKept(states[i + 1..], tags, id));
        st.kept + UnsubKept(states[i..], tags, id);
      }
    }
  }

  /** One turn of `unsub`'s loop keeps the reference piece. */
  lemma UnsubOneKept(states: seq<SubState>, i: nat, tags: seq<string>, id: nat, st: Unsub)
    requires i < |states| && DistinctIds(states[i].users)
    ensures UnsubOne(states, i, tags, id, st).kept == st.kept + UnsubPiece(states[i], tags, id)
  {
    DropUserDistinct(states[i].users, 0, id);
  }

  /** `unsub` leaves the account in no subscription to those tags. */
  lemma UnsubscribeRemovesEverywhere(states: seq<SubState>, files: map<string, FileContent>, tags: string, id: nat)
    requires forall k :: 0 <= k < |states| ==> DistinctIds(states[k].users)
    ensures var sorted := SortStrings(Split(tags, ' '));
      var kept := Unsubscribe(states, files, tags, id).kept;
      && kept == UnsubKept(states, sorted, id)
      && (forall s :: s in kept && s.tags == sorted ==> !Holds(s, id))
      && (forall s :: s in states && s.tags != sorted ==> s in kept)
  {
    var sorted := SortStrings(Split(tags, ' '));
    UnsubFromKept(states, 0, sorted, id, Unsub([], files, [], false));
    assert states[0..] == states;
    UnsubKeptSpec(states, sorted, id);
  }

  // ---------------------------------------------------------------------
  // Pausing

  function PauseOne(s: SubState, id: nat): SubState
  {
    if Holds(s, id) then s.(pausedUsers := s.pausedUsers + [id]) else s
  }

  /** `pause`: the account's id is appended to the paused ids of every
      subscription that lists it. */
  function PauseAll(states: seq<SubState>, id: nat): (r: seq<SubState>)
    ensures |r| == |states|
  {
    seq(|states|, k requires 0 <= k < |states| => PauseOne(states[k], id))
  }

  /** The subscriptions that list the account, in list order. */
  function Holding(states: seq<SubState>, id: nat): seq<SubState>
  {
    if states == [] then [] else (if Holds(states[0], id) then [states[0]] else []) + Holding(states[1..], id)
  }

  lemma {:induction false} HoldingSnoc(states: seq<SubState>, s: SubState, id: nat)
    ensures Holding(states + [s], id) == Holding(states, id) + (if Holds(s, id) then [s] else [])
  {
    var e := if Holds(s, id) then [s] else [];
    if states == [] {
      assert [s][1..] == [];
      assert Holding([s], id) == e + Holding([], id);
      assert e + [] == e;
    } else {
      var h := if Holds(states[0], id) then [states[0]] else [];
      assert (states + [s])[0] == states[0];
      assert (states + [s])[1..] == states[1..] + [s];
      HoldingSnoc(states[1..], s, id);
      calc {
        Holding(states + [s], id);
        h + Holding(states[1..] + [s], id);
        h + (Holding(states[1..], id) + e);
        (h + Holding(states[1..], id)) + e;
      }
    }
  }

  /** After `pause` the account is mentioned in none of its subscriptions,
      and its private ones are skipped by the tick; the users and tags of
      every subscription stay as they were. */
  lemma PauseSilences(states: seq<SubState>, id: nat)
    ensures var r := PauseAll(states, id);
      forall k :: 0 <= k < |states| ==>
        && id !in IdSet(Active(r[k].users, r[k].pausedUsers))
        && r[k].users == states[k].users && r[k].tags == states[k].tags
        && (Holds(states[k], id) && states[k].isPrivate ==> IsDormant(true, r[k].users, r[k].pausedUsers))
        && (!Holds(states[k], id) ==> r[k] == states[k])
  {
    var r := PauseAll(states, id);
    forall k | 0 <= k < |states|
      ensures id !in IdSet(Active(r[k].users, r[k].pausedUsers))
    {
      ActiveSpec(r[k].users, r[k].pausedUsers);
    }
  }

  /** The state `unpause` leaves; `failed` is the `ValueError` of a
      subscription that lists the account without its id paused, which
      ends the command there. */
  datatype Unpaused = Unpaused(states: seq<SubState>, files: map<string, FileContent>, failed: bool)

  /** `unpause` from position `k`: the first occurrence of the id goes
      from each subscription that lists the account, and its record is
      written. */
  function UnpauseFrom(states: seq<SubState>, files: map<string, FileContent>, id: nat, k: nat): Unpaused
    requires k <= |states|
    decreases |states| - k
  {
    if k == |states| then Unpaused(states, files, false)
    else if !Holds(states[k], id) then UnpauseFrom(states, files, id, k + 1)
    else if id !in states[k].pausedUsers then Unpaused(states, files, true)
    else
      var s := states[k].(pausedUsers := RemoveFirst(states[k].pausedUsers, id));
      UnpauseFrom(states[k := s], files[StateFeedFile(s) := SubscriptionFile(ToRecord(s))], id, k + 1)
  }

  function Unpause(states: seq<SubState>, files: map<string, FileContent>, id: nat): Unpaused
  {
    UnpauseFrom(states, files, id, 0)
  }

  /** `unpause` undoes `pause` for an account that had paused nowhere: it
      does not fail and every subscription is as before. */
  lemma UnpauseUndoesPause(states: seq<SubState>, files: map<string, FileContent>, id: nat)
    requires forall k :: 0 <= k < |states| ==> id !in states[k].pausedUsers
    ensures var r := Unpause(PauseAll(states, id), files, id);
      !r.failed && r.states == states
  {
    UnpauseFromPaused(states, PauseAll(states, id), files, id, 0);
  }

  /** Taking the id out again after `pause` put it last gives back the
      subscription. */
  lemma PauseOneUndone(s: SubState, id: nat)
    requires id !in s.pausedUsers && Holds(s, id)
    ensures id in PauseOne(s, id).pausedUsers
    ensures PauseOne(s, id).(pausedUsers := RemoveFirst(PauseOne(s, id).pausedUsers, id)) == s
  {
    RemoveFirstOfSnoc(s.pausedUsers, id);
  }

  lemma {:induction false} UnpauseFromPaused(states: seq<SubState>, cur: seq<SubState>,
                                             files: map<string, FileContent>, id: nat, k: nat)
    requires k <= |states| == |cur|
    requires forall j :: 0 <= j < |states| ==> id !in states[j].pausedUsers
    requires cur[..k] == states[..k]
    requires forall j :: k <= j < |states| ==> cur[j] == PauseOne(states[j], id)
    ensures var r := UnpauseFrom(cur, files, id, k); !r.failed && r.states == states
    decreases |states| - k
  {
    if k == |states| {
      assert cur == cur[..k] && states == states[..k];
    } else {
      assert cur[k] == PauseOne(states[k], id);
      if !Holds(states[k], id) {
        assert cur[..k + 1] == states[..k + 1] by {
          assert cur[..k + 1] == cur[..k] + [cur[k]] && states[..k + 1] == states[..k] + [states[k]];
        }
        UnpauseFromPaused(states, cur, files, id, k + 1);
      } else {
        PauseOneUndone(states[k], id);
        var s := states[k];
        var next := cur[k := s];
        assert next[..k + 1] == states[..k + 1] by {
          assert next[..k + 1] == cur[..k] + [s] && states[..k + 1] == states[..k] + [states[k]];
        }
        UnpauseFromPaused(states, next, files[StateFeedFile(s) := SubscriptionFile(ToRecord(s))], id, k + 1);
      }
    }
  }

  /** `unpause` by an account that never paused fails at its first
      subscription, and changes nothing before it. */
  lemma UnpauseWithoutPauseFails(states: seq<SubState>, files: map<string, FileContent>, id: nat)
    requires exists k :: 0 <= k < |states| && Holds(states[k], id)
    requires forall k :: 0 <= k < |states| ==> id !in states[k].pausedUsers
    ensures Unpause(states, files, id) == Unpaused(states, files, true)
  {
    UnpauseFromClean(states, files, id, 0);
  }

  lemma {:induction false} UnpauseFromClean(states: seq<SubState>, files: map<string, FileContent>, id: nat, k: nat)
    requires k <= |states|
    requires exists j :: k <= j < |states| && Holds(states[j], id)
    requires forall j :: 0 <= j < |states| ==> id !in states[j].pausedUsers
    ensures UnpauseFrom(states, files, id, k) == Unpaused(states, files, true)
    decreases |states| - k
  {
    if !Holds(states[k], id) {
      UnpauseFromClean(states, files, id, k + 1);
    }
  }
}
