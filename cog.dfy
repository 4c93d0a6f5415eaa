/** The danbooru cog: the commands users send, each proved against its
    value specification in `Commands`. The cog keeps the tag blacklist and
    the channel bindings, and works on the scheduler's live list of
    subscriptions. */
module Cog {
  import opened Wrappers
  import opened Strings
  import opened Sorting
  import opened DanTypes
  import opened Subscription
  import opened Persistence
  import opened Polling
  import opened Schedule
  import opened Commands

  /** The index written in the middle of `unsub` names the feed files of
      the subscriptions kept so far and of the ones not yet visited. */
  lemma LiveFeedFiles(kept: seq<Dansub>, rest: seq<Dansub>, restStates: seq<SubState>)
    requires forall o :: o in kept ==> o.Valid()
    requires |rest| == |restStates|
    requires forall j :: 0 <= j < |rest| ==> rest[j].feedFile == StateFeedFile(restStates[j])
    ensures FeedFileList(kept + rest) == FeedFiles(StatesOf(kept) + restStates)
  {
    var subs := kept + rest;
    var states := StatesOf(kept) + restStates;
    forall k | 0 <= k < |subs|
      ensures subs[k].feedFile == StateFeedFile(states[k])
    {
      if k < |kept| {
        assert subs[k] == kept[k] && kept[k] in kept;
      } else {
        assert subs[k] == rest[k - |kept|];
      }
    }
    FeedFileListIsFeedFiles(subs, states);
  }

  ghost predicate Distinct(subs: seq<Dansub>)
  {
    forall j, k :: 0 <= j < k < |subs| ==> subs[j] != subs[k]
  }

  lemma DistinctWithout(subs: seq<Dansub>, i: nat)
    requires Distinct(subs) && i < |subs|
    ensures Distinct(subs[..i] + subs[i + 1..])
  {
    var r := subs[..i] + subs[i + 1..];
    forall j, k | 0 <= j < k < |r| ensures r[j] != r[k] {
      var j' := if j < i then j else j + 1;
      var k' := if k < i then k else k + 1;
      assert r[j] == subs[j'] && r[k] == subs[k'];
    }
  }

  /** What `Dansub.Valid` demands of a state, apart from the feed file. */
  predicate Shaped(s: SubState)
  {
    && Sorted(s.tags)
    && (s.isPrivate ==> |s.users| == 1)
    && (!s.isPrivate ==> s.guild.Some? && s.channel.Some?)
  }

  /** A subscription that still has users after the author's entries
      went is valid: a private one lost nothing, since its one owner is
      the author or not, and a shared one's feed file ignores its users. */
  lemma LeftValid(sub: Dansub, s: SubState, d: Dropped)
    requires Shaped(s) && sub.feedFile == StateFeedFile(s) && sub.State() == s.(users := d.users)
    requires |d.users| + d.removed == |s.users| && (d.removed == 0 ==> d.users == s.users)
    ensures sub.users != [] ==> sub.Valid()
  {
  }

  /** Writing the same two files again leaves only the second writes. */
  lemma RewriteAgain<V>(f0: map<string, V>, a: string, x: V, b: string, y: V, z: V)
    ensures f0[a := x][b := y][a := x][b := z] == f0[a := x][b := z]
  {
  }

  /** `pause` saves, in list order, the subscriptions that list the
      account. */
  lemma PausedRecordsSnoc(files: map<string, FileContent>, states: seq<SubState>, goal: seq<SubState>, k: nat, id: nat)
    requires goal == PauseAll(states, id) && k < |states|
    ensures var before := WriteRecords(files, Holding(goal[..k], id));
      WriteRecords(files, Holding(goal[..k + 1], id)) ==
      if Holds(states[k], id) then before[StateFeedFile(goal[k]) := SubscriptionFile(ToRecord(goal[k]))] else before
  {
    var h := Holding(goal[..k], id);
    assert goal[..k + 1] == goal[..k] + [goal[k]];
    HoldingSnoc(goal[..k], goal[k], id);
    assert Holds(goal[k], id) == Holds(states[k], id);
    if Holds(goal[k], id) {
      var t := h + [goal[k]];
      assert t[..|t| - 1] == h && t[|t| - 1] == goal[k];
      assert WriteRecords(files, t) == WriteRecords(files, h)[StateFeedFile(goal[k]) := SubscriptionFile(ToRecord(goal[k]))];
    } else {
      assert h + [] == h;
    }
  }

  /** One more subscription of the list has gone through `pause`. */
  lemma PausedSplice(states: seq<SubState>, goal: seq<SubState>, k: nat, id: nat)
    requires goal == PauseAll(states, id) && k < |states|
    ensures (goal[..k] + states[k..])[k := PauseOne(states[k], id)] == goal[..k + 1] + states[k + 1..]
  {
    var a := (goal[..k] + states[k..])[k := PauseOne(states[k], id)];
    var b := goal[..k + 1] + states[k + 1..];
    assert |a| == |b|;
    forall j | 0 <= j < |a| ensures a[j] == b[j] {
      if j == k {
        assert b[j] == goal[k];
      } else if j > k {
        assert a[j] == states[j] && b[j] == states[j];
      }
    }
  }

  /** A point of `unsub`'s walk: the list it started from, the position
      visited, the subscriptions kept so far and the starting states. */
  datatype WalkPoint = WalkPoint(snapshot: seq<Dansub>, i: nat, kept: seq<Dansub>, states: seq<SubState>)

  class DanbooruCog {
    const scheduler: Scheduler
    const disk: Disk
    /** `tags_blacklist` */
    var blacklist: seq<string>
    /** `danbooru_channels` */
    var bindings: seq<Binding>

    ghost predicate Valid()
      reads this, scheduler, scheduler.subscriptions
    {
      scheduler.disk == disk && scheduler.Valid()
    }

    function States(): seq<SubState>
      reads this, scheduler, scheduler.subscriptions
    {
      scheduler.States()
    }

    /** The cog's start: the blacklist file is read (its absence raises,
        so it is required here) and the bindings file when it exists. */
    constructor (scheduler: Scheduler, disk: Disk)
      requires scheduler.disk == disk
      requires BlacklistPath in disk.files && disk.files[BlacklistPath].TagListFile?
      ensures this.scheduler == scheduler && this.disk == disk
      ensures blacklist == disk.files[BlacklistPath].tags && bindings == SavedBindings(disk.files)
    {
      this.scheduler := scheduler;
      this.disk := disk;
      blacklist := disk.files[BlacklistPath].tags;
      bindings := SavedBindings(disk.files);
    }

    /** `cog_unload`: nothing is written when no subscription is listed;
        otherwise the index and then every record, the same writes as
        `_write_subs_information_to_file`. */
    method Unload()
      requires Valid()
      modifies disk
      ensures disk.files == if States() == [] then old(disk.files) else FlushAll(old(disk.files), States())
    {
      if scheduler.subscriptions == [] {
        return;
      }
      scheduler.WriteSubsInformationToFile();
    }

    // -------------------------------------------------------------------
    // The blacklist

    /** `blacklist_tags` and `blacklist_list` */
    function BlacklistListing(): string
      reads this
    {
      BlacklistText(blacklist)
    }

    /** `blacklist_add`: the tag is appended and the list saved. */
    method BlacklistAdd(tag: string) returns (reply: string)
      modifies this`blacklist, disk
      ensures blacklist == old(blacklist) + [tag]
      ensures disk.files == old(disk.files)[BlacklistPath := TagListFile(blacklist)]
      ensures reply == AddedReply(tag)
    {
      blacklist := blacklist + [tag];
      disk.files := disk.files[BlacklistPath := TagListFile(blacklist)];
      reply := AddedReply(tag);
    }

    /** `blacklist_remove`, proved against `RemoveTag`. */
    method BlacklistRemove(tag: string) returns (reply: string)
      modifies this`blacklist, disk
      ensures var r := RemoveTag(old(blacklist), tag);
        && blacklist == r.list && reply == r.reply
        && disk.files == if r.written then old(disk.files)[BlacklistPath := TagListFile(r.list)] else old(disk.files)
    {
      if tag !in blacklist {
        reply := NotInBlacklist;
        return;
      }
      blacklist := RemoveFirst(blacklist, tag);
      disk.files := disk.files[BlacklistPath := TagListFile(blacklist)];
      reply := RemovedReply(tag);
    }

    // -------------------------------------------------------------------
    // Channel bindings

    /** `setup_dan`, proved against `Commands.SetupDan`; the bindings are
        saved only when one is added. */
    method SetupDan(origin: Origin) returns (reply: Result<string, string>)
      modifies this`bindings, disk
      ensures var r := Commands.SetupDan(old(bindings), origin);
        && bindings == r.bindings && reply == r.reply
        && disk.files == if r.bindings == old(bindings) then old(disk.files)
                         else old(disk.files)[DanbooruChannelPath := BindingListFile(r.bindings)]
    {
      if origin.channel in ChannelIds(bindings) {
        reply := Ok("channel already setup");
        return;
      }
      if origin.DirectChannel? {
        reply := Err("AttributeError: 'NoneType' object has no attribute 'id'");
        return;
      }
      bindings := bindings + [Binding(origin.channel, origin.server)];
      disk.files := disk.files[DanbooruChannelPath := BindingListFile(bindings)];
      reply := Ok("channel setup for danbooru commands");
    }

    // -------------------------------------------------------------------
    // sub

    /** `sub`, proved against `Commands.Subscribe`: `newest` is the first
        post of the one-post lookup and `lookupPool` the pool lookup. Every
        candidate is checked for the author before a new subscription is
        made. */
    method Subscribe(q: Request, newest: Option<Post>, lookupPool: string -> Option<string>)
      returns (replies: seq<string>)
      requires Valid()
      modifies scheduler, scheduler.subscriptions, disk
      ensures Valid()
      ensures var r := Commands.Subscribe(old(States()), old(disk.files), q, newest, lookupPool);
        States() == r.states && disk.files == r.files && replies == r.replies
    {
      if newest.None? {
        replies := [LookupErrorReply];
      } else {
        var tagsList := Split(q.tags, ' ');
        var pools := CollectPools(tagsList, lookupPool);
        replies := SubscribeFound(q, tagsList, pools, newest.value, lookupPool);
      }
    }

    /** `sub` once the tag lookup found a post. */
    method SubscribeFound(q: Request, tagsList: seq<string>, pools: seq<Pool>, newest: Post,
                          ghost lookupPool: string -> Option<string>) returns (replies: seq<string>)
      requires Valid()
      requires tagsList == Split(q.tags, ' ') && pools == RequestPools(tagsList, lookupPool)
      modifies scheduler, scheduler.subscriptions, disk
      ensures Valid()
      ensures var r := Commands.Subscribe(old(States()), old(disk.files), q, Some(newest), lookupPool);
        States() == r.states && disk.files == r.files && replies == r.replies
    {
      var c, a := FindCandidates(tagsList, q.origin.DirectChannel?, q.author.id);
      if a.Some? {
        SubscribeHeld(old(States()), old(disk.files), q, newest, lookupPool);
        replies := [q.author.mention + AlreadyReply];
      } else {
        replies := JoinOrCreate(q, tagsList, pools, c, newest, lookupPool);
      }
    }

    /** `sub` once no candidate lists the author: it joins the first
        candidate if that one and the request are shared, and is given a
        subscription of its own otherwise. */
    method JoinOrCreate(q: Request, tagsList: seq<string>, pools: seq<Pool>, c: Option<nat>, newest: Post,
                        ghost lookupPool: string -> Option<string>) returns (replies: seq<string>)
      requires Valid()
      requires tagsList == Split(q.tags, ' ') && pools == RequestPools(tagsList, lookupPool)
      requires c == FirstCandidate(States(), SortStrings(tagsList), q.origin.DirectChannel?, 0)
      requires FirstHolding(States(), SortStrings(tagsList), q.origin.DirectChannel?, q.author.id, 0).None?
      modifies scheduler, scheduler.subscriptions, disk
      ensures Valid()
      ensures var r := Commands.Subscribe(old(States()), old(disk.files), q, Some(newest), lookupPool);
        States() == r.states && disk.files == r.files && replies == r.replies
    {
      SubscribeNotHeld(States(), disk.files, q, newest, lookupPool);
      var shared := c.Some? && !scheduler.subscriptions[c.value].isPrivate;
      assert c.Some? ==> scheduler.subscriptions[c.value].State() == States()[c.value];
      if shared && !q.origin.DirectChannel? {
        replies := JoinSub(c.value, q.author);
      } else {
        replies := CreateSub(q, tagsList, pools, newest, lookupPool);
      }
    }

    /** The pool loop of `sub`. */
    method CollectPools(tags: seq<string>, lookupPool: string -> Option<string>) returns (pools: seq<Pool>)
      ensures pools == RequestPools(tags, lookupPool)
    {
      pools := [];
      for k := 0 to |tags|
        invariant pools == RequestPools(tags[..k], lookupPool)
      {
        assert tags[..k + 1] == tags[..k] + [tags[k]];
        RequestPoolsSnoc(tags[..k], tags[k], lookupPool);
        if Contains(tags[k], "pool:") {
          var id := PoolId(tags[k]);
          pools := pools + [Pool(tags[k], lookupPool(id), id)];
        }
      }
      assert tags[..|tags|] == tags;
    }

    /** `sub`'s walk over the subscriptions: the first candidate, and the
        first candidate that already lists the author. */
    method FindCandidates(tagsList: seq<string>, isPrivate: bool, id: nat) returns (c: Option<nat>, a: Option<nat>)
      requires Valid()
      ensures c == FirstCandidate(old(States()), SortStrings(tagsList), isPrivate, 0)
      ensures a == FirstHolding(old(States()), SortStrings(tagsList), isPrivate, id, 0)
      ensures c.Some? ==> c.value < |scheduler.subscriptions|
    {
      c, a := None, None;
      ghost var states := States();
      ghost var sorted := SortStrings(tagsList);
      for k := 0 to |scheduler.subscriptions|
        invariant (if c.Some? then c else FirstCandidate(states, sorted, isPrivate, k))
                  == FirstCandidate(states, sorted, isPrivate, 0)
        invariant (if a.Some? then a else FirstHolding(states, sorted, isPrivate, id, k))
                  == FirstHolding(states, sorted, isPrivate, id, 0)
      {
        var candidate := IsCandidate(k, tagsList, isPrivate);
        if candidate && c.None? {
          c := Some(k);
        }
        if candidate && a.None? && Holds(scheduler.subscriptions[k].State(), id) {
          a := Some(k);
        }
      }
    }

    /** The test of `sub`'s loop on the subscription at `k`. */
    method IsCandidate(k: nat, tagsList: seq<string>, isPrivate: bool) returns (candidate: bool)
      requires Valid() && k < |scheduler.subscriptions|
      ensures candidate == Candidate(States()[k], SortStrings(tagsList), isPrivate)
    {
      var sub := scheduler.subscriptions[k];
      assert sub.Valid() && sub.State() == States()[k];
      var same, _ := sub.CompareTags(tagsList);
      SortedEqualIffPermutation(tagsList, sub.tags);
      candidate := same && (!sub.isPrivate || isPrivate);
    }

    /** The author joins the shared subscription at `j`, which is saved. */
    method JoinSub(j: nat, author: User) returns (replies: seq<string>)
      requires Valid() && j < |scheduler.subscriptions| && !scheduler.subscriptions[j].isPrivate
      modifies scheduler.subscriptions[j], disk
      ensures Valid()
      ensures var r := Joining(old(States()), old(disk.files), author, j);
        States() == r.states && disk.files == r.files && replies == r.replies
    {
      var text := scheduler.subscriptions[j].TagsToMessage();
      AddMember(j, author);
      replies := [author.mention + JoinedReply + text + "`"];
    }

    /** The author joins the users of the subscription at `j`, which is
        saved. */
    method AddMember(j: nat, author: User)
      requires Valid() && j < |scheduler.subscriptions| && !scheduler.subscriptions[j].isPrivate
      modifies scheduler.subscriptions[j], disk
      ensures Valid()
      ensures var s := old(States())[j].(users := old(States())[j].users + [author]);
        States() == old(States())[j := s] && disk.files == old(disk.files)[StateFeedFile(s) := SubscriptionFile(ToRecord(s))]
    {
      var sub := scheduler.subscriptions[j];
      ghost var s := States()[j].(users := States()[j].users + [author]);
      sub.users := sub.users + [author];
      assert sub.State() == s && sub.Valid();
      sub.WriteSubToFile(disk);
      scheduler.OneChanged(j);
    }

    /** A new subscription for the author: the override file's channel or
        the request's, the watermark at the newest post; it is listed and
        saved. */
    method CreateSub(q: Request, tagsList: seq<string>, pools: seq<Pool>, newest: Post,
                     ghost lookupPool: string -> Option<string>) returns (replies: seq<string>)
      requires Valid()
      requires tagsList == Split(q.tags, ' ') && pools == RequestPools(tagsList, lookupPool)
      modifies scheduler, disk
      ensures Valid()
      ensures var r := Creating(old(States()), old(disk.files), q, newest, lookupPool);
        States() == r.states && disk.files == r.files && replies == r.replies
    {
      var sub := MakeSub(q, tagsList, pools, newest, lookupPool);
      var text := sub.TagsToMessage();
      ListAndSave(sub);
      replies := [CreatedReply + text + "`", NewestReply + newest.fileUrl];
    }

    /** A new subscription goes at the end of the list and is saved. */
    method ListAndSave(sub: Dansub)
      requires Valid() && sub.Valid() && sub !in scheduler.subscriptions
      modifies scheduler, disk
      ensures Valid() && States() == old(States()) + [sub.State()]
      ensures disk.files == old(disk.files)[StateFeedFile(sub.State()) := SubscriptionFile(ToRecord(sub.State()))]
    {
      scheduler.Append(sub);
      label listed:
      sub.WriteSubToFile(disk);
      scheduler.Kept@listed();
    }

    /** The `Dansub` that `sub` builds, before it is listed. */
    method MakeSub(q: Request, tagsList: seq<string>, pools: seq<Pool>, newest: Post,
                   ghost lookupPool: string -> Option<string>) returns (sub: Dansub)
      requires tagsList == Split(q.tags, ' ') && pools == RequestPools(tagsList, lookupPool)
      ensures fresh(sub) && sub.Valid() && sub.State() == NewSub(q, disk.files, newest, lookupPool)
    {
      ghost var s := NewSub(q, disk.files, newest, lookupPool);
      var isPrivate := q.origin.DirectChannel?;
      var ids := SubChannelOverride(disk.files);
      var server: Option<nat>, channel: Option<nat>;
      if ids.Some? {
        server, channel := Some(ids.value.0), Some(ids.value.1);
      } else if isPrivate {
        server, channel := None, None;
      } else {
        server, channel := Some(q.origin.server), Some(q.origin.channel);
      }
      sub := new Dansub([q.author], tagsList, pools, server, channel, isPrivate, []);
      sub.oldTimestamp := Some(newest.created);
      assert sub.State() == s;
    }

    // -------------------------------------------------------------------
    // unsub

    /** What `unsub`'s walk keeps true of the list it started from: the
        subscriptions kept so far come from the visited part, the ones not
        yet visited from `i` on are as they were, and each feed file is the
        one its starting state names. */
    ghost predicate Walk(snapshot: seq<Dansub>, i: nat, kept: seq<Dansub>, states: seq<SubState>)
      requires i <= |snapshot|
      reads kept, snapshot[i..]
    {
      && |snapshot| == |states|
      && Distinct(snapshot)
      && (forall o :: o in kept ==> o in snapshot[..i] && o.Valid())
      && (forall j :: i <= j < |snapshot| ==> snapshot[j].Valid() && snapshot[j].State() == states[j])
      && (forall j :: 0 <= j < |snapshot| ==> snapshot[j].feedFile == StateFeedFile(states[j]))
    }

    /** Between visits the live list is the subscriptions kept so far
        followed by the ones not yet visited. */
    ghost predicate Live(snapshot: seq<Dansub>, i: nat, kept: seq<Dansub>, states: seq<SubState>)
      reads this, scheduler, kept, snapshot
    {
      i <= |snapshot| && scheduler.subscriptions == kept + snapshot[i..] && Walk(snapshot, i, kept, states)
    }

    /** During the visit of position `i`: the subscription there may have
        lost users but is still listed. */
    ghost predicate Visiting(snapshot: seq<Dansub>, i: nat, kept: seq<Dansub>, states: seq<SubState>)
      reads this, scheduler, kept, snapshot
    {
      && i < |snapshot| && scheduler.disk == disk
      && scheduler.subscriptions == kept + snapshot[i..] && Distinct(scheduler.subscriptions)
      && Walk(snapshot, i + 1, kept, states)
    }

    /** `unsub`, proved against `Commands.Unsubscribe`: the walk goes over
        the list as it was when the command started, so dropping a
        subscription does not hide the next one. */
    method Unsubscribe(author: User, tags: string) returns (replies: seq<string>)
      requires Valid()
      modifies scheduler, scheduler.subscriptions, disk
      ensures Valid()
      ensures var r := Commands.Unsubscribe(old(States()), old(disk.files), tags, author.id);
        States() == r.kept && disk.files == r.files && replies == r.replies
    {
      var tagsList := Split(tags, ' ');
      ghost var kept;
      kept, replies := UnsubWalk(tagsList, author.id);
    }

    /** `unsub`'s outer loop, over the list as it was when it started. */
    method UnsubWalk(tagsList: seq<string>, id: nat) returns (ghost kept: seq<Dansub>, replies: seq<string>)
      requires Valid()
      modifies scheduler, scheduler.subscriptions, disk
      ensures Valid() && scheduler.subscriptions == kept
      ensures var r := UnsubFrom(old(States()), 0, SortStrings(tagsList), id, Unsub([], old(disk.files), [], false));
        StatesOf(kept) == r.kept && disk.files == r.files && replies == r.replies
    {
      var snapshot := scheduler.subscriptions;
      ghost var states := States();
      ghost var init := Unsub([], disk.files, [], false);
      ghost var trace := UnsubTrace(states, SortStrings(tagsList), id, init, |states|);
      kept := [];
      var unsubscribed := false;
      replies := [];
      BeginWalk(snapshot, states);
      for i := 0 to |snapshot|
        invariant Valid() && Live(snapshot, i, kept, states)
        invariant Unsub(StatesOf(kept), disk.files, replies, unsubscribed) == trace[i]
      {
        kept, unsubscribed, replies := UnsubStep(snapshot, i, kept, states, tagsList, id, unsubscribed, replies);
      }
      assert snapshot[|snapshot|..] == [];
      UnsubTraceEnds(states, SortStrings(tagsList), id, init);
    }

    /** The walk starts with the whole list not yet visited. */
    lemma BeginWalk(snapshot: seq<Dansub>, states: seq<SubState>)
      requires Valid() && snapshot == scheduler.subscriptions && states == States()
      ensures Live(snapshot, 0, [], states) && StatesOf([]) == []
    {
      assert snapshot[0..] == snapshot;
      assert Walk(snapshot, 0, [], states);
    }

    /** `unsub`'s loop body for the subscription at position `i`, proved
        against `UnsubOne`. */
    method UnsubStep(snapshot: seq<Dansub>, i: nat, ghost kept: seq<Dansub>, ghost states: seq<SubState>,
                     tagsList: seq<string>, id: nat, unsubscribed: bool, replies: seq<string>)
      returns (ghost kept': seq<Dansub>, unsubscribed': bool, replies': seq<string>)
      requires Valid() && Live(snapshot, i, kept, states) && i < |snapshot|
      modifies scheduler, snapshot[i], disk
      ensures Valid() && Live(snapshot, i + 1, kept', states)
      ensures var st := UnsubOne(states, i, SortStrings(tagsList), id,
                                 Unsub(old(StatesOf(kept)), old(disk.files), replies, unsubscribed));
        && StatesOf(kept') == st.kept && disk.files == st.files
        && replies' == st.replies && unsubscribed' == st.unsubscribed
    {
      var sub := snapshot[i];
      assert snapshot[i..][0] == sub;
      var same, _ := sub.CompareTags(tagsList);
      SortedEqualIffPermutation(tagsList, sub.tags);
      if !same {
        KeepStep(snapshot, i, kept, states);
        kept' := kept + [sub];
        unsubscribed', replies' := unsubscribed, replies;
        return;
      }
      kept', unsubscribed', replies' := UnsubMatched(snapshot, i, kept, states, SortStrings(tagsList), id, unsubscribed, replies);
    }

    /** A subscription that is not dropped joins the kept ones. */
    lemma KeepStep(snapshot: seq<Dansub>, i: nat, kept: seq<Dansub>, states: seq<SubState>)
      requires Valid() && Live(snapshot, i, kept, states) && i < |snapshot|
      ensures Live(snapshot, i + 1, kept + [snapshot[i]], states)
      ensures StatesOf(kept + [snapshot[i]]) == StatesOf(kept) + [states[i]]
    {
      var kept' := kept + [snapshot[i]];
      assert kept + snapshot[i..] == kept' + snapshot[i + 1..];
      assert snapshot[..i + 1] == snapshot[..i] + [snapshot[i]];
      assert Walk(snapshot, i + 1, kept', states);
    }

    /** A subscription left with users after the visit joins the kept ones. */
    /** The live list of a walk is a valid scheduler. */
    lemma LiveIsValid(snapshot: seq<Dansub>, i: nat, kept: seq<Dansub>, states: seq<SubState>)
      requires i <= |snapshot| && scheduler.disk == disk
      requires scheduler.subscriptions == kept + snapshot[i..] && Distinct(scheduler.subscriptions)
      requires Walk(snapshot, i, kept, states)
      ensures Valid() && Live(snapshot, i, kept, states)
    {
      forall j | 0 <= j < |scheduler.subscriptions|
        ensures scheduler.subscriptions[j].Valid()
      {
        if j < |kept| {
          assert scheduler.subscriptions[j] == kept[j] && kept[j] in kept;
        } else {
          assert scheduler.subscriptions[j] == snapshot[i + (j - |kept|)];
        }
      }
    }

    lemma KeepLeft(snapshot: seq<Dansub>, i: nat, kept: seq<Dansub>, states: seq<SubState>)
      requires Visiting(snapshot, i, kept, states) && snapshot[i].Valid()
      ensures Valid() && Live(snapshot, i + 1, kept + [snapshot[i]], states)
      ensures StatesOf(kept + [snapshot[i]]) == StatesOf(kept) + [snapshot[i].State()]
    {
      var kept' := kept + [snapshot[i]];
      assert kept + snapshot[i..] == kept' + snapshot[i + 1..];
      WalkKeeps(snapshot, i, kept, states);
      LiveIsValid(snapshot, i + 1, kept', states);
      StatesOfSnoc(kept, snapshot[i]);
    }

    /** Keeping the visited subscription extends the walk. */
    lemma WalkKeeps(snapshot: seq<Dansub>, i: nat, kept: seq<Dansub>, states: seq<SubState>)
      requires i < |snapshot| && Walk(snapshot, i + 1, kept, states) && snapshot[i].Valid()
      ensures Walk(snapshot, i + 1, kept + [snapshot[i]], states)
    {
      forall o | o in kept + [snapshot[i]]
        ensures o in snapshot[..i + 1] && o.Valid()
      {
        if o !in kept {
          assert snapshot[..i + 1][i] == o;
        }
      }
    }

    /** A subscription left without users leaves the live list and its
        feed file is deleted. */
    method RemoveEmpty(snapshot: seq<Dansub>, i: nat, ghost kept: seq<Dansub>, ghost states: seq<SubState>)
      returns (found: bool)
      requires Visiting(snapshot, i, kept, states)
      modifies scheduler, disk
      ensures Valid() && Live(snapshot, i + 1, kept, states) && StatesOf(kept) == old(StatesOf(kept))
      ensures found == (snapshot[i].feedFile in old(disk.files))
      ensures disk.files == old(disk.files) - {snapshot[i].feedFile}
    {
      var sub := snapshot[i];
      ghost var live := kept + snapshot[i..];
      assert live[|kept|] == sub;
      RemoveFirstAt(live, |kept|);
      assert live[..|kept|] == kept;
      assert live[|kept| + 1..] == snapshot[i + 1..];
      scheduler.Remove(sub);
      found := disk.Delete(sub.feedFile);
      DistinctWithout(live, |kept|);
      LiveIsValid(snapshot, i + 1, kept, states);
      StatesKept(kept);
    }

    /** A subscription with the requested tags: the author's entries go,
        and a subscription left without users is dropped from the list
        and its feed file deleted. */
    method UnsubMatched(snapshot: seq<Dansub>, i: nat, ghost kept: seq<Dansub>, ghost states: seq<SubState>,
                        ghost tags: seq<string>, id: nat, unsubscribed: bool, replies: seq<string>)
      returns (ghost kept': seq<Dansub>, unsubscribed': bool, replies': seq<string>)
      requires Valid() && Live(snapshot, i, kept, states) && i < |snapshot| && states[i].tags == tags
      modifies scheduler, snapshot[i], disk
      ensures Valid() && Live(snapshot, i + 1, kept', states)
      ensures var st := UnsubOne(states, i, tags, id, Unsub(old(StatesOf(kept)), old(disk.files), replies, unsubscribed));
        && StatesOf(kept') == st.kept && disk.files == st.files
        && replies' == st.replies && unsubscribed' == st.unsubscribed
    {
      var sub := snapshot[i];
      ghost var s := states[i];
      ghost var d := DropUser(s.users, 0, id);
      ghost var keptStates := StatesOf(kept);
      ghost var F0 := disk.files;
      ghost var goal := UnsubOne(states, i, tags, id, Unsub(keptStates, F0, replies, unsubscribed));
      assert Shaped(s) by {
        assert snapshot[i..][0] == sub;
      }
      var removed, said := VisitDrop(snapshot, i, kept, states, id);
      ghost var left := s.(users := d.users);
      ghost var files := if d.removed > 0
        then WriteIndex(F0, keptStates + states[i..])[StateFeedFile(s) := SubscriptionFile(ToRecord(left))]
        else F0;
      unsubscribed' := unsubscribed || removed > 0;
      replies' := replies + said;
      if !unsubscribed' {
        replies' := replies' + [NotSubscribedReply];
      }
      UnsubOneMatched(states, i, tags, id, Unsub(keptStates, F0, replies, unsubscribed), files, replies');
      LeftValid(sub, s, d);
      var emptied, found;
      kept', emptied, found := Settle(snapshot, i, kept, states, left);
      if emptied {
        replies' := replies' + [if found then FullyRemovedReply else RemoveErrorReply];
        if !found {
          assert files - {StateFeedFile(s)} == files;
        }
      }
    }

    /** The end of a visit: a subscription left without users leaves the
        list and its feed file is deleted; one with users is kept. */
    method Settle(snapshot: seq<Dansub>, i: nat, ghost kept: seq<Dansub>, ghost states: seq<SubState>, ghost left: SubState)
      returns (ghost kept': seq<Dansub>, emptied: bool, found: bool)
      requires Visiting(snapshot, i, kept, states) && snapshot[i].State() == left
      requires snapshot[i].feedFile == StateFeedFile(states[i]) && (left.users != [] ==> snapshot[i].Valid())
      modifies scheduler, disk
      ensures Valid() && Live(snapshot, i + 1, kept', states) && emptied == (left.users == [])
      ensures emptied ==> && kept' == kept && StatesOf(kept) == old(StatesOf(kept))
                          && found == (StateFeedFile(states[i]) in old(disk.files))
                          && disk.files == old(disk.files) - {StateFeedFile(states[i])}
      ensures !emptied ==> StatesOf(kept') == old(StatesOf(kept)) + [left] && disk.files == old(disk.files)
    {
      var sub := snapshot[i];
      emptied, found := sub.users == [], false;
      if emptied {
        found := RemoveEmpty(snapshot, i, kept, states);
        kept' := kept;
      } else {
        KeepLeft(snapshot, i, kept, states);
        kept' := kept + [sub];
      }
    }

    /** The author's entries go from the subscription at `i`; each
        removal rewrites the index and the subscription's record. */
    method VisitDrop(snapshot: seq<Dansub>, i: nat, ghost kept: seq<Dansub>, ghost states: seq<SubState>, id: nat)
      returns (removed: nat, said: seq<string>)
      requires Valid() && Live(snapshot, i, kept, states) && i < |snapshot|
      modifies snapshot[i], disk
      ensures Visiting(snapshot, i, kept, states)
      ensures var s := states[i];
        var d := DropUser(s.users, 0, id);
        && snapshot[i].State() == s.(users := d.users) && snapshot[i].feedFile == StateFeedFile(s)
        && removed == d.removed && said == Repeat(UnsubscribedReply, removed)
        && StatesOf(kept) == old(StatesOf(kept))
        && disk.files == if d.removed > 0
           then WriteIndex(old(disk.files), old(StatesOf(kept)) + states[i..])[StateFeedFile(s) := SubscriptionFile(ToRecord(s.(users := d.users)))]
           else old(disk.files)
    {
      StartVisit(snapshot, i, kept, states);
      var sub := snapshot[i];
      assert sub.State() == states[i] && sub.feedFile == StateFeedFile(states[i]) by {
        assert snapshot[i..][0] == sub;
      }
      assert WriteIndex(disk.files, StatesOf(kept) + states[i..])
          == disk.files[SubsFile := IndexFile(IndexText(FeedFileList(scheduler.subscriptions)))];
      removed, said := DropUserFrom(sub, id);
      VisitFramed(WalkPoint(snapshot, i, kept, states));
    }

    /** A visit changes only the subscription it visits, so the walk
        still holds of the kept ones and of the ones not yet visited. */
    twostate lemma VisitFramed(w: WalkPoint)
      requires old(Visiting(w.snapshot, w.i, w.kept, w.states))
      requires unchanged(this, scheduler) && unchanged(w.kept) && unchanged(w.snapshot[w.i + 1..])
      ensures Visiting(w.snapshot, w.i, w.kept, w.states) && StatesOf(w.kept) == old(StatesOf(w.kept))
    {
    }

    /** At the start of a visit: the subscription there is none of the
        kept ones, and the index written during the visit names the feed
        files of the kept ones and of the ones not yet visited. */
    lemma StartVisit(snapshot: seq<Dansub>, i: nat, kept: seq<Dansub>, states: seq<SubState>)
      requires Valid() && Live(snapshot, i, kept, states) && i < |snapshot|
      ensures Visiting(snapshot, i, kept, states) && snapshot[i] !in kept
      ensures FeedFileList(scheduler.subscriptions) == FeedFiles(StatesOf(kept) + states[i..])
    {
      assert scheduler.subscriptions[|kept|] == snapshot[i];
      assert Walk(snapshot, i + 1, kept, states);
      forall o | o in kept ensures o != snapshot[i] {
        var m :| 0 <= m < i && snapshot[m] == o;
      }
      LiveFeedFiles(kept, snapshot[i..], states[i..]);
    }

    /** `unsub`'s inner loop over `sub.users`, removing from the list it
        walks; each removal rewrites the index and the record. */
    method DropUserFrom(sub: Dansub, id: nat) returns (removed: nat, said: seq<string>)
      requires scheduler.disk == disk
      modifies sub`users, disk
      ensures var d := DropUser(old(sub.users), 0, id);
        && sub.users == d.users && removed == d.removed && said == Repeat(UnsubscribedReply, removed)
        && disk.files == if removed > 0
           then old(disk.files)[SubsFile := IndexFile(IndexText(FeedFileList(scheduler.subscriptions)))]
                               [sub.feedFile := SubscriptionFile(ToRecord(sub.State()))]
           else old(disk.files)
    {
      ghost var goal := DropUser(sub.users, 0, id);
      ghost var live := scheduler.subscriptions;
      ghost var index := IndexFile(IndexText(FeedFileList(live)));
      removed, said := 0, [];
      var i := 0;
      while i < |sub.users|
        invariant scheduler.subscriptions == live
        invariant DropUser(sub.users, i, id).users == goal.users
        invariant DropUser(sub.users, i, id).removed + removed == goal.removed
        invariant said == Repeat(UnsubscribedReply, removed)
        invariant removed == 0 ==> disk.files == old(disk.files)
        invariant removed > 0 ==> disk.files == old(disk.files)[SubsFile := index][sub.feedFile := SubscriptionFile(ToRecord(sub.State()))]
        decreases |sub.users| - i
      {
        var user := sub.users[i];
        i := i + 1;
        if user.id == id {
          ghost var before := disk.files;
          DropOne(sub, user, index);
          if removed > 0 {
            RewriteAgain(old(disk.files), SubsFile, index, sub.feedFile, before[sub.feedFile],
                         SubscriptionFile(ToRecord(sub.State())));
          }
          RepeatSnoc(UnsubscribedReply, removed);
          said := said + [UnsubscribedReply];
          removed := removed + 1;
        }
      }
    }

    /** One removal of `unsub`'s inner loop: the entry goes, then the
        index and the subscription's record are written. */
    method DropOne(sub: Dansub, user: User, ghost index: FileContent)
      requires scheduler.disk == disk && index == IndexFile(IndexText(FeedFileList(scheduler.subscriptions)))
      modifies sub`users, disk
      ensures sub.users == RemoveFirst(old(sub.users), user)
      ensures disk.files == old(disk.files)[SubsFile := index][sub.feedFile := SubscriptionFile(ToRecord(sub.State()))]
    {
      sub.users := RemoveFirst(sub.users, user);
      scheduler.WriteToFile();
      sub.WriteSubToFile(disk);
    }

    // -------------------------------------------------------------------
    // pause and unpause

    /** `pause`: the author's id is appended to the paused ids of each
        subscription that lists the author, and each is saved. */
    method Pause(author: User) returns (reply: string)
      requires Valid()
      modifies scheduler.subscriptions, disk
      ensures Valid()
      ensures States() == PauseAll(old(States()), author.id)
      ensures disk.files == WriteRecords(old(disk.files), Holding(PauseAll(old(States()), author.id), author.id))
      ensures reply == "paused all of your subscriptions"
    {
      ghost var states := States();
      ghost var goal := PauseAll(states, author.id);
      assert states[0..] == states && goal[..0] == [];
      for k := 0 to |scheduler.subscriptions|
        invariant Pausing(k, author.id, states, old(disk.files))
      {
        PauseStep(k, author.id, states, old(disk.files));
      }
      assert goal[..|states|] == goal && states[|states|..] == [];
      reply := "paused all of your subscriptions";
    }

    /** What `pause`'s loop keeps true: the subscriptions before `k` are
        paused and saved, the others as they were. */
    ghost predicate Pausing(k: nat, id: nat, states: seq<SubState>, files: map<string, FileContent>)
      reads this, scheduler, scheduler.subscriptions, disk
    {
      && Valid() && k <= |states| == |scheduler.subscriptions|
      && States() == PauseAll(states, id)[..k] + states[k..]
      && disk.files == WriteRecords(files, Holding(PauseAll(states, id)[..k], id))
    }

    /** One turn of `pause`'s loop. */
    method PauseStep(k: nat, id: nat, ghost states: seq<SubState>, ghost files: map<string, FileContent>)
      requires Pausing(k, id, states, files) && k < |states|
      modifies scheduler.subscriptions[k], disk
      ensures Pausing(k + 1, id, states, files)
    {
      ghost var goal := PauseAll(states, id);
      PausedRecordsSnoc(files, states, goal, k, id);
      PausedSplice(states, goal, k, id);
      assert States()[k] == states[k];
      PauseAt(k, id);
    }

    /** `pause` on the subscription at `k`. */
    method PauseAt(k: nat, id: nat)
      requires Valid() && k < |scheduler.subscriptions|
      modifies scheduler.subscriptions[k], disk
      ensures Valid()
      ensures var s := PauseOne(old(States())[k], id);
        && States() == old(States())[k := s]
        && disk.files == if Holds(old(States())[k], id)
             then old(disk.files)[StateFeedFile(s) := SubscriptionFile(ToRecord(s))]
             else old(disk.files)
    {
      var sub := scheduler.subscriptions[k];
      ghost var states := States();
      if !Holds(sub.State(), id) {
        assert states[k := states[k]] == states;
        return;
      }
      ghost var s := PauseOne(states[k], id);
      sub.pausedUsers := sub.pausedUsers + [id];
      assert sub.State() == s;
      sub.WriteSubToFile(disk);
      scheduler.OneChanged(k);
    }

    /** `unpause`, proved against `Commands.Unpause`: the first
        subscription that lists the author without its id paused raises
        `ValueError`, and no reply is sent. */
    method Unpause(author: User) returns (reply: Result<string, string>)
      requires Valid()
      modifies scheduler.subscriptions, disk
      ensures Valid()
      ensures var r := Commands.Unpause(old(States()), old(disk.files), author.id);
        && States() == r.states && disk.files == r.files
        && reply == if r.failed then Err("ValueError: list.remove(x): x not in list")
                    else Ok("unpaused all of your subscriptions")
    {
      var failed := UnpauseWalk(author.id);
      reply := if failed then Err("ValueError: list.remove(x): x not in list")
               else Ok("unpaused all of your subscriptions");
    }

    /** `unpause`'s loop; it stops at the first failure. */
    method UnpauseWalk(id: nat) returns (failed: bool)
      requires Valid()
      modifies scheduler.subscriptions, disk
      ensures Valid()
      ensures Unpaused(States(), disk.files, failed) == Commands.Unpause(old(States()), old(disk.files), id)
    {
      ghost var goal := Commands.Unpause(States(), disk.files, id);
      failed := false;
      for k := 0 to |scheduler.subscriptions|
        invariant Unpausing(k, id, goal)
      {
        failed := UnpauseStep(k, id, goal);
        if failed {
          return;
        }
      }
    }

    /** What `unpause`'s loop keeps true: what is left to do from `k` on
        ends where the whole command ends. */
    ghost predicate Unpausing(k: nat, id: nat, goal: Unpaused)
      reads this, scheduler, scheduler.subscriptions, disk
    {
      Valid() && k <= |scheduler.subscriptions| && UnpauseFrom(States(), disk.files, id, k) == goal
    }

    /** `unpause` on the subscription at `k`. */
    method UnpauseStep(k: nat, id: nat, ghost goal: Unpaused) returns (failed: bool)
      requires Unpausing(k, id, goal) && k < |scheduler.subscriptions|
      modifies scheduler.subscriptions[k], disk
      ensures failed ==> Valid() && Unpaused(States(), disk.files, true) == goal
      ensures !failed ==> Unpausing(k + 1, id, goal)
    {
      var sub := scheduler.subscriptions[k];
      failed := false;
      if !Holds(sub.State(), id) {
        return;
      }
      if id !in sub.pausedUsers {
        failed := true;
        return;
      }
      UnpauseAt(k, id);
    }

    /** The first occurrence of the id goes from the paused ids of the
        subscription at `k`, which is saved. */
    method UnpauseAt(k: nat, id: nat)
      requires Valid() && k < |scheduler.subscriptions|
      modifies scheduler.subscriptions[k], disk
      ensures Valid()
      ensures var s := old(States())[k].(pausedUsers := RemoveFirst(old(States())[k].pausedUsers, id));
        && States() == old(States())[k := s]
        && disk.files == old(disk.files)[StateFeedFile(s) := SubscriptionFile(ToRecord(s))]
    {
      var sub := scheduler.subscriptions[k];
      ghost var states := States();
      var rest := RemoveFirst(sub.pausedUsers, id);
      ghost var s := states[k].(pausedUsers := rest);
      sub.pausedUsers := rest;
      assert sub.State() == s;
      sub.WriteSubToFile(disk);
      scheduler.OneChanged(k);
    }
  }
}
