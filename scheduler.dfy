/** The scheduler of tag subscriptions: the live list of `Dansub`
    objects, the minute tick that polls each one, the files that tick
    writes, and the reload of every subscription from the index at start
    up. Each method is proved against the value specification in
    `Polling` and `Persistence`. */
module Schedule {
  import opened Wrappers
  import opened Strings
  import opened Sorting
  import opened DanTypes
  import opened Subscription
  import opened Chunking
  import opened Persistence
  import opened Polling

  /** The states of a list of live subscriptions, in list order. */
  function StatesOf(subs: seq<Dansub>): (r: seq<SubState>)
    reads subs
    ensures |r| == |subs| && forall k :: 0 <= k < |subs| ==> r[k] == subs[k].State()
  {
    if subs == [] then [] else [subs[0].State()] + StatesOf(subs[1..])
  }

  /** The feed files of a list of live subscriptions, in list order. */
  lemma StatesOfSnoc(subs: seq<Dansub>, s: Dansub)
    ensures StatesOf(subs + [s]) == StatesOf(subs) + [s.State()]
  {
    var a, b := StatesOf(subs + [s]), StatesOf(subs) + [s.State()];
    forall k | 0 <= k < |a|
      ensures a[k] == b[k]
    {
      if k < |subs| {
        assert (subs + [s])[k] == subs[k];
      }
    }
  }

  /** A step that leaves the subscriptions of a list alone keeps their
      states. */
  twostate lemma StatesKept(subs: seq<Dansub>)
    requires unchanged(subs)
    ensures StatesOf(subs) == old(StatesOf(subs))
  {
  }

  function FeedFileList(subs: seq<Dansub>): (r: seq<string>)
    ensures |r| == |subs| && forall k :: 0 <= k < |subs| ==> r[k] == subs[k].feedFile
  {
    if subs == [] then [] else [subs[0].feedFile] + FeedFileList(subs[1..])
  }

  /** The feed file each subscription holds is the one its state names. */
  lemma FeedFileListIsFeedFiles(subs: seq<Dansub>, states: seq<SubState>)
    requires |subs| == |states| && forall k :: 0 <= k < |subs| ==> subs[k].feedFile == StateFeedFile(states[k])
    ensures FeedFileList(subs) == FeedFiles(states)
  {
    forall k | 0 <= k < |subs|
      ensures FeedFileList(subs)[k] == FeedFiles(states)[k]
    {
      FeedFilesAt(states, k);
    }
  }

  /** `find_matching_subs`: the user lists of the subscriptions whose
      joined tags occur in a post's tag string, in list order. */
  function MatchingUsers(states: seq<SubState>, tagString: string): seq<seq<User>>
  {
    if states == [] then []
    else (if Contains(tagString, Join(" ", states[0].tags)) then [states[0].users] else [])
         + MatchingUsers(states[1..], tagString)
  }

  /** A user list is reported exactly when some subscription with those
      users matches, and no more lists than subscriptions are reported. */
  lemma {:induction false} MatchingUsersSpec(states: seq<SubState>, tagString: string)
    ensures |MatchingUsers(states, tagString)| <= |states|
    ensures forall us :: us in MatchingUsers(states, tagString) <==>
              exists s :: s in states && s.users == us && Contains(tagString, Join(" ", s.tags))
  {
    if states != [] {
      MatchingUsersSpec(states[1..], tagString);
      assert states == [states[0]] + states[1..];
    }
  }

  lemma {:induction false} MatchingUsersAppend(a: seq<SubState>, b: seq<SubState>, tagString: string)
    ensures MatchingUsers(a + b, tagString) == MatchingUsers(a, tagString) + MatchingUsers(b, tagString)
  {
    if a != [] {
      assert (a + b)[0] == a[0] && (a + b)[1..] == a[1..] + b;
      MatchingUsersAppend(a[1..], b, tagString);
    } else {
      assert a + b == b;
    }
  }

  /** The outcome of loading the remaining paths, with `done` loaded before them. */
  function Prefixed(done: seq<SubState>, r: Result<seq<SubState>, string>): Result<seq<SubState>, string>
  {
    if r.Ok? then Ok(done + r.value) else r
  }

  lemma PrefixedEmpty(r: Result<seq<SubState>, string>)
    ensures Prefixed([], r) == r
  {
    if r.Ok? {
      assert [] + r.value == r.value;
    }
  }

  /** One more path of the index loaded: a raise ends the load with its
      reason, a loaded record joins the ones before it, a skipped one is
      passed over. */
  lemma PrefixedStep(done: seq<SubState>, dir: Directory, files: map<string, FileContent>, paths: seq<string>, k: nat)
    requires k < |paths|
    ensures var first := LoadFile(dir, files, paths[k]);
      && (first.Crashed? ==> Prefixed(done, LoadAll(dir, files, paths[k..])) == Err(first.reason))
      && (first.Loaded? ==> Prefixed(done, LoadAll(dir, files, paths[k..])) ==
                            Prefixed(done + [first.sub], LoadAll(dir, files, paths[k + 1..])))
      && (first.Skipped? ==> Prefixed(done, LoadAll(dir, files, paths[k..])) ==
                             Prefixed(done, LoadAll(dir, files, paths[k + 1..])))
  {
    assert paths[k..][0] == paths[k] && paths[k..][1..] == paths[k + 1..];
    var rest := LoadAll(dir, files, paths[k + 1..]);
    if rest.Ok? {
      var first := LoadFile(dir, files, paths[k]);
      if first.Loaded? {
        assert done + ([first.sub] + rest.value) == done + [first.sub] + rest.value;
      }
    }
  }

  lemma StepIsHandle(states: seq<SubState>, i: nat, files: map<string, FileContent>,
                     deliveries: seq<Delivery>, fetch: string -> Fetch)
    requires i < |states|
    ensures Step(states, i, files, deliveries, fetch) ==
            Handle(states, i, Poll(states[i], fetch(Join(" ", states[i].tags))), Join(" ", states[i].tags), files, deliveries)
  {
  }

  /** One more subscription handled: a cancellation ends the tick, and
      otherwise the rest of the tick goes on from the next one. */
  lemma TickAdvance(states: seq<SubState>, i: nat, files: map<string, FileContent>,
                    sent: seq<Delivery>, fetch: string -> Fetch, st: TickResult)
    requires i < |states|
    requires st == Handle(states, i, Poll(states[i], fetch(Join(" ", states[i].tags))), Join(" ", states[i].tags), files, sent)
    ensures st.cancelled ==> TickFrom(states, i, files, sent, fetch) == st
    ensures !st.cancelled ==> TickFrom(states, i, files, sent, fetch) == TickFrom(st.subs, i + 1, st.files, st.deliveries, fetch)
  {
    StepIsHandle(states, i, files, sent, fetch);
  }

  /** `sort_tags(image)`: the tag string split on spaces, sorted, and
      joined again. */
  function SortTagString(tagString: string): (r: string)
  {
    Join(" ", SortStrings(Split(tagString, ' ')))
  }

  /** Splitting the sorted tag string gives back the sorted tags, since
      no tag holds a space. */
  lemma SortTagStringSplit(tagString: string)
    ensures Split(SortTagString(tagString), ' ') == SortStrings(Split(tagString, ' '))
  {
    var parts := Split(tagString, ' ');
    var sorted := SortStrings(parts);
    SplitFieldsHaveNoSeparator(tagString, ' ');
    SortPermutes(parts);
    assert |sorted| >= 1 by {
      assert |multiset(sorted)| == |multiset(parts)|;
    }
    forall i | 0 <= i < |sorted|
      ensures ' ' !in sorted[i]
    {
      assert sorted[i] in multiset(parts);
    }
    SplitJoin(sorted, ' ');
  }

  /** Sorting a tag string keeps its tags, duplicates counted, and doing
      it twice is the same as doing it once. */
  lemma SortTagStringSpec(tagString: string)
    ensures multiset(Split(SortTagString(tagString), ' ')) == multiset(Split(tagString, ' '))
    ensures SortTagString(SortTagString(tagString)) == SortTagString(tagString)
  {
    var parts := Split(tagString, ' ');
    SortTagStringSplit(tagString);
    SortPermutes(parts);
    SortSorts(parts);
    SortIdempotent(SortStrings(parts));
  }

  /** Writing a file again overrides what an earlier write there left. */
  lemma MapOverride<V>(f0: map<string, V>, path: string, u: V, v: V)
    ensures f0[path := u][path := v] == f0[path := v]
  {
  }

  /** The sending loop of `send_new_posts`: every chunk, in order, to
      the one target. */
  method SendAll(target: Target, chunks: seq<string>) returns (ds: seq<Delivery>)
    ensures ds == Deliveries(target, chunks)
  {
    ds := [];
    for k := 0 to |chunks|
      invariant |ds| == k && forall j :: 0 <= j < k ==> ds[j] == Delivery(target, chunks[j])
    {
      ds := ds + [Delivery(target, chunks[k])];
    }
  }

  class Scheduler {
    var subscriptions: seq<Dansub>
    const disk: Disk
    /** The users and guilds the bot can see. */
    const bot: Directory

    /** Every live subscription is valid and appears once. */
    ghost predicate Valid()
      reads this, subscriptions
    {
      && (forall i, j :: 0 <= i < j < |subscriptions| ==> subscriptions[i] != subscriptions[j])
      && (forall i :: 0 <= i < |subscriptions| ==> subscriptions[i].Valid())
    }

    function States(): seq<SubState>
      reads this, subscriptions
    {
      StatesOf(subscriptions)
    }

    /** The scheduler starts with no subscriptions; `RetrieveSubs` fills
        the list from the index. */
    constructor (bot: Directory, disk: Disk)
      ensures Valid() && subscriptions == []
      ensures this.bot == bot && this.disk == disk
    {
      this.bot := bot;
      this.disk := disk;
      subscriptions := [];
    }

    /** `write_to_file`: the index is the feed files of the live
        subscriptions, one per line. */
    method WriteToFile()
      modifies disk
      ensures disk.files == old(disk.files)[SubsFile := IndexFile(IndexText(FeedFileList(subscriptions)))]
    {
      var paths: seq<string> := [];
      for k := 0 to |subscriptions|
        invariant |paths| == k && forall j :: 0 <= j < k ==> paths[j] == subscriptions[j].feedFile
      {
        paths := paths + [subscriptions[k].feedFile];
      }
      assert paths == FeedFileList(subscriptions);
      disk.files := disk.files[SubsFile := IndexFile(Join("\n", paths))];
    }

    /** `self.subscriptions.remove(sub)` */
    method Remove(sub: Dansub)
      modifies this
      ensures subscriptions == RemoveFirst(old(subscriptions), sub)
    {
      subscriptions := RemoveFirst(subscriptions, sub);
    }

    /** `_write_subs_information_to_file`: the index, then every
        subscription's record in list order. */
    method WriteSubsInformationToFile()
      requires Valid()
      modifies disk
      ensures disk.files == FlushAll(old(disk.files), States())
    {
      WriteToFile();
      Kept();
      FeedFileListIsFeedFiles(subscriptions, States());
      assert disk.files == WriteIndex(old(disk.files), States());
      WriteRecordsInOrder();
    }

    /** The loop of `_write_subs_information_to_file`: each record in list
        order. */
    method WriteRecordsInOrder()
      requires Valid()
      modifies disk
      ensures disk.files == WriteRecords(old(disk.files), States())
    {
      ghost var states := States();
      for k := 0 to |subscriptions|
        invariant disk.files == WriteRecords(old(disk.files), states[..k])
      {
        var sub := subscriptions[k];
        assert sub.State() == states[k];
        WriteRecordsSnoc(old(disk.files), states, k);
        sub.WriteSubToFile(disk);
      }
      assert states[..|subscriptions|] == states;
    }

    /** `send_new_posts(sub, urls)`: each chunk of the groups-of-four
        split goes to the owner of a private subscription or to the
        channel of a shared one. */
    method SendNewPosts(sub: Dansub, urls: seq<string>) returns (ds: seq<Delivery>)
      requires sub.Valid()
      ensures ds == Batch(old(sub.State()), urls)
    {
      ghost var state := sub.State();
      var target := if sub.isPrivate then DirectMessage(sub.users[0].id) else ChannelMessage(sub.channel.value);
      assert target == TargetOf(state);
      var mention := sub.UsersToMention();
      var tagMessage := sub.TagsToMessage();
      assert tagMessage == TagText(state);
      var chunks := SplitInGroupsOfFour(Header(mention, tagMessage), Tail(tagMessage), urls);
      ds := SendAll(target, chunks);
      BatchUnfold(state, urls);
    }

    /** The first branch of `_find_all_new_posts`' loop: an unset
        watermark is set from the post, the post is sent on its own and
        the subscription is saved. */
    method SetFirstWatermark(sub: Dansub, post: Post) returns (ds: seq<Delivery>)
      requires sub.Valid()
      modifies sub`oldTimestamp, disk
      ensures sub.Valid() && sub.State() == old(sub.State()).(oldTimestamp := Some(post.created))
      ensures ds == Batch(old(sub.State()), [post.fileUrl])
      ensures disk.files == old(disk.files)[sub.feedFile := SubscriptionFile(ToRecord(sub.State()))]
    {
      sub.oldTimestamp := Some(post.created);
      ds := SendNewPosts(sub, [post.fileUrl]);
      BatchIgnoresWatermark(old(sub.State()), Some(post.created), [post.fileUrl]);
      sub.WriteSubToFile(disk);
    }

    /** `_find_all_new_posts(images, sub)`: an unset watermark is set from
        the first post, which is sent on its own and saved; then every
        post newer than the watermark is collected with its time. */
    method FindAllNewPosts(sub: Dansub, posts: seq<Post>)
      returns (urls: seq<string>, stamps: seq<nat>, ds: seq<Delivery>)
      requires sub.Valid() && posts != []
      modifies sub`oldTimestamp, disk
      ensures sub.Valid()
      ensures var scan := ScanPosts(posts, old(sub.oldTimestamp));
        && urls == Urls(scan.newer) && stamps == Stamps(scan.newer)
        && sub.oldTimestamp == (if scan.bootstrap.Some? then Some(posts[0].created) else old(sub.oldTimestamp))
        && ds == (if scan.bootstrap.Some? then Batch(old(sub.State()), [posts[0].fileUrl]) else [])
        && disk.files == (if scan.bootstrap.Some?
                          then old(disk.files)[sub.feedFile := SubscriptionFile(ToRecord(sub.State()))]
                          else old(disk.files))
    {
      urls, stamps, ds := [], [], [];
      ghost var s0 := sub.State();
      ghost var w0 := sub.oldTimestamp;
      ghost var w := ScanThreshold(posts, w0);
      ghost var newer: seq<Post> := [];
      ghost var bootDs := if w0.None? then Batch(s0, [posts[0].fileUrl]) else [];
      ghost var bootFiles := if w0.None?
        then old(disk.files)[sub.feedFile := SubscriptionFile(ToRecord(s0.(oldTimestamp := Some(w))))]
        else old(disk.files);
      for i := 0 to |posts|
        invariant sub.Valid()
        invariant sub.State() == s0.(oldTimestamp := sub.oldTimestamp)
        invariant i == 0 ==> sub.oldTimestamp == w0 && ds == [] && disk.files == old(disk.files)
        invariant i > 0 ==> sub.oldTimestamp == Some(w) && ds == bootDs && disk.files == bootFiles
        invariant newer == NewPosts(posts[..i], w)
        invariant urls == Urls(newer) && stamps == Stamps(newer)
      {
        var post := posts[i];
        if sub.oldTimestamp.None? {
          var boot := SetFirstWatermark(sub, post);
          ds := ds + boot;
        }
        NewPostsSnoc(posts, i, w);
        if post.created > sub.oldTimestamp.value {
          UrlsStampsSnoc(newer, post);
          urls := urls + [post.fileUrl];
          stamps := stamps + [post.created];
          newer := newer + [post];
        }
      }
      assert posts[..|posts|] == posts;
    }

    /** The tick's loop body for one subscription, up to its exception
        handlers, proved against `Poll`. */
    method PollOne(sub: Dansub, fetch: string -> Fetch) returns (ds: seq<Delivery>, failure: Option<Failure>)
      requires sub.Valid()
      modifies sub`oldTimestamp, sub`tags, disk
      ensures sub.Valid()
      ensures var p := Poll(old(sub.State()), fetch(Join(" ", old(sub.tags))));
        && sub.State() == p.sub && ds == p.deliveries && failure == p.failure
        && disk.files == (if p.written then old(disk.files)[sub.feedFile := SubscriptionFile(ToRecord(p.sub))]
                          else old(disk.files))
    {
      ds, failure := [], None;
      if IsDormant(sub.isPrivate, sub.users, sub.pausedUsers) {
        return;
      }
      var query := sub.TagsToString();
      var answer := fetch(query);
      match answer {
        case NoAnswer =>
        case Transient => failure := Some(TransientFailure);
        case Cancelled => failure := Some(CancelledFailure);
        case Unexpected(d) => failure := Some(UnexpectedFailure(d));
        case Found(posts) =>
          if posts != [] {
            ds := AnnounceNewPosts(sub, posts);
          }
      }
    }

    /** The tick's handling of a non-empty answer: the new posts found are
        sent, the watermark moves to the newest of them and the
        subscription is saved. */
    method AnnounceNewPosts(sub: Dansub, posts: seq<Post>) returns (ds: seq<Delivery>)
      requires sub.Valid() && posts != []
      modifies sub`oldTimestamp, disk
      ensures sub.Valid()
      ensures var p := Announce(old(sub.State()), posts);
        && sub.State() == p.sub && ds == p.deliveries
        && disk.files == (if p.written then old(disk.files)[sub.feedFile := SubscriptionFile(ToRecord(p.sub))]
                          else old(disk.files))
    {
      ghost var s0 := sub.State();
      ghost var f0 := disk.files;
      AnnounceSteps(s0, posts);
      var urls, stamps, boot := FindAllNewPosts(sub, posts);
      ds := boot;
      if urls != [] {
        ghost var f1 := disk.files;
        var sent := PublishNewer(sub, urls, stamps);
        ds := ds + sent;
        ghost var v := SubscriptionFile(ToRecord(sub.State()));
        if f1 != f0 {
          MapOverride(f0, sub.feedFile, f1[sub.feedFile], v);
        }
      }
    }

    /** The collected posts are sent, the watermark moves to the newest of
        them, and the subscription is saved. */
    method PublishNewer(sub: Dansub, urls: seq<string>, stamps: seq<nat>) returns (sent: seq<Delivery>)
      requires sub.Valid() && stamps != []
      modifies sub`oldTimestamp, disk
      ensures sub.Valid() && sent == Batch(old(sub.State()), urls)
      ensures sub.State() == old(sub.State()).(oldTimestamp := Some(Max(stamps)))
      ensures disk.files == old(disk.files)[sub.feedFile := SubscriptionFile(ToRecord(sub.State()))]
    {
      sent := SendNewPosts(sub, urls);
      sub.oldTimestamp := Some(Max(stamps));
      sub.WriteSubToFile(disk);
    }

    /** `schedule_task`: every subscription of a snapshot of the list is
        polled in turn (the list does not change during a tick, so the
        test whether a subscription is still listed always passes and is
        not repeated here); a failure flushes every file, an
        unexpected one also alerts the owner, a cancellation stops the
        tick; at the end the index is rewritten. */
    method Tick(fetch: string -> Fetch) returns (deliveries: seq<Delivery>, cancelled: bool)
      requires Valid()
      modifies disk, subscriptions
      ensures Valid()
      ensures TickResult(States(), disk.files, deliveries, cancelled) == Polling.Tick(old(States()), old(disk.files), fetch)
    {
      var snapshot := subscriptions;
      deliveries, cancelled := [], false;
      ghost var goal := Polling.Tick(States(), disk.files, fetch);
      for i := 0 to |snapshot|
        invariant Ticking(snapshot, i, deliveries, fetch, goal)
      {
        var stop;
        deliveries, stop := Advance(i, fetch, deliveries, goal);
        if stop {
          cancelled := true;
          return;
        }
      }
      Finish(deliveries, fetch, goal);
    }

    /** The end of the tick: the index is rewritten. */
    method Finish(ghost deliveries: seq<Delivery>, ghost fetch: string -> Fetch, ghost goal: TickResult)
      requires Ticking(subscriptions, |subscriptions|, deliveries, fetch, goal)
      modifies disk
      ensures Valid() && goal == TickResult(States(), disk.files, deliveries, false)
    {
      WriteToFile();
      Kept();
      FeedFileListIsFeedFiles(subscriptions, States());
    }

    /** What the tick's loop keeps: the rest of the tick from `i` on ends
        where the whole tick does. */
    ghost predicate Ticking(snapshot: seq<Dansub>, i: nat, deliveries: seq<Delivery>, fetch: string -> Fetch, goal: TickResult)
      reads this, subscriptions, disk
    {
      && Valid() && subscriptions == snapshot && i <= |snapshot|
      && TickFrom(States(), i, disk.files, deliveries, fetch) == goal
    }

    /** One turn of the tick's loop. */
    method Advance(i: nat, fetch: string -> Fetch, sent: seq<Delivery>, ghost goal: TickResult)
      returns (deliveries: seq<Delivery>, stop: bool)
      requires Ticking(subscriptions, i, sent, fetch, goal) && i < |subscriptions|
      modifies disk, subscriptions
      ensures subscriptions == old(subscriptions)
      ensures stop ==> Valid() && goal == TickResult(States(), disk.files, deliveries, true)
      ensures !stop ==> Ticking(subscriptions, i + 1, deliveries, fetch, goal)
    {
      ghost var before, files := States(), disk.files;
      deliveries, stop := TickStep(i, fetch, sent);
      TickAdvance(before, i, files, sent, fetch, TickResult(States(), disk.files, deliveries, stop));
    }

    /** The tick's loop body for subscription `i` with its exception
        handlers, proved against `Step`. */
    method TickStep(i: nat, fetch: string -> Fetch, sent: seq<Delivery>) returns (deliveries: seq<Delivery>, stop: bool)
      requires Valid() && i < |subscriptions|
      modifies disk, subscriptions
      ensures Valid() && subscriptions == old(subscriptions)
      ensures var query := Join(" ", old(States())[i].tags);
        var st := Handle(old(States()), i, Poll(old(States())[i], fetch(query)), query, old(disk.files), sent);
        && States() == st.subs && disk.files == st.files && deliveries == st.deliveries && stop == st.cancelled
    {
      ghost var before := States();
      ghost var files := disk.files;
      var tagString := Join(" ", subscriptions[i].tags);
      ghost var p := Poll(before[i], fetch(tagString));
      var ds, failure := PollAt(i, fetch);
      deliveries := Recover(failure, tagString, sent + ds);
      stop := failure == Some(CancelledFailure);
      assert Handle(before, i, p, tagString, files, sent).subs == States();
      assert Handle(before, i, p, tagString, files, sent).deliveries == deliveries;
      assert Handle(before, i, p, tagString, files, sent).cancelled == stop;
      assert Handle(before, i, p, tagString, files, sent).files == disk.files;
    }

    /** A step that leaves the scheduler and its subscriptions alone keeps
        the list's states and its validity. */
    twostate lemma Kept()
      requires unchanged(this) && unchanged(subscriptions)
      ensures States() == old(States()) && (old(Valid()) ==> Valid())
    {
    }

    /** A step that changes only the subscription at `i` changes only its
        entry of the states. */
    twostate lemma OneChanged(i: int)
      requires unchanged(this) && 0 <= i < |subscriptions| && unchanged(subscriptions[..i]) && unchanged(subscriptions[i + 1..])
      ensures States() == old(States())[i := subscriptions[i].State()]
      ensures old(Valid()) && subscriptions[i].Valid() ==> Valid()
    {
      assert |States()| == |old(States())|;
      forall k | 0 <= k < |subscriptions|
        ensures States()[k] == old(States())[i := subscriptions[i].State()][k]
      {
        if k < i {
          assert subscriptions[..i][k] == subscriptions[k];
        } else if k > i {
          assert subscriptions[i + 1..][k - i - 1] == subscriptions[k];
        }
      }
    }

    /** `PollOne` on the subscription at index `i`: only that entry of the
        states changes. */
    method PollAt(i: nat, fetch: string -> Fetch) returns (ds: seq<Delivery>, failure: Option<Failure>)
      requires Valid() && i < |subscriptions|
      modifies disk, subscriptions[i]
      ensures Valid()
      ensures var p := Poll(old(States())[i], fetch(Join(" ", old(States())[i].tags)));
        && States() == old(States())[i := p.sub] && ds == p.deliveries && failure == p.failure
        && disk.files == (if p.written
                          then old(disk.files)[StateFeedFile(old(States())[i]) := SubscriptionFile(ToRecord(p.sub))]
                          else old(disk.files))
    {
      var sub := subscriptions[i];
      ds, failure := PollOne(sub, fetch);
      OneChanged(i);
    }

    /** The tick's `except` clauses: after any failure every file is
        flushed, and after an unexpected one the owner gets an alert. */
    method Recover(failure: Option<Failure>, tagString: string, sent: seq<Delivery>) returns (deliveries: seq<Delivery>)
      requires Valid()
      modifies disk
      ensures disk.files == if failure.None? then old(disk.files) else FlushAll(old(disk.files), States())
      ensures deliveries == if failure.Some? && failure.value.UnexpectedFailure?
                            then sent + [Delivery(DirectMessage(OwnerId), AlertText(failure.value.description, tagString))]
                            else sent
    {
      deliveries := sent;
      if failure.Some? {
        WriteSubsInformationToFile();
        if failure.value.UnexpectedFailure? {
          deliveries := deliveries + [Delivery(DirectMessage(OwnerId), AlertText(failure.value.description, tagString))];
        }
      }
    }

    /** `find_matching_subs(tags, subs, image)`. Its in-place sort of each
        subscription's tags changes nothing on a valid subscription
        (`Dansub.TagsToString`), so the joined tags are read directly. */
    method FindMatchingSubs(subs: seq<Dansub>, tagString: string) returns (matched: seq<seq<User>>)
      ensures matched == MatchingUsers(StatesOf(subs), tagString)
    {
      ghost var states := StatesOf(subs);
      matched := [];
      for k := 0 to |subs|
        invariant matched == MatchingUsers(states[..k], tagString)
      {
        assert states[..k + 1] == states[..k] + [states[k]];
        MatchingUsersAppend(states[..k], [states[k]], tagString);
        if Contains(tagString, Join(" ", subs[k].tags)) {
          matched := matched + [subs[k].users];
        }
      }
      assert states[..|subs|] == states;
    }

    /** `create_sub_from_file(path)`, proved against `LoadFile`; a loaded
        subscription is a new valid object in the loaded state. */
    method CreateSubFromFile(path: string) returns (result: LoadResult, sub: Dansub?)
      ensures result == LoadFile(bot, old(disk.files), path)
      ensures result.Loaded? ==> sub != null && fresh(sub) && sub.Valid() && sub.State() == result.sub
    {
      sub := null;
      if path !in disk.files || !disk.files[path].SubscriptionFile? {
        result := if path !in disk.files then Crashed("FileNotFoundError") else Crashed("not a subscription record");
        return;
      }
      var data := disk.files[path].record;
      var timestamp := ParseTimestamp(data.oldTimestamp);
      var pools := if data.pools.Some? then data.pools.value else [];
      var paused := if data.pausedUsers.Some? then data.pausedUsers.value else [];
      if data.isPrivate == Some(true) {
        if data.users == [] {
          result := Crashed("KeyError: '0'");
          return;
        }
        if data.users[0].id !in bot.accounts {
          result := Skipped;
          return;
        }
        if timestamp.Err? {
          result := Crashed(timestamp.error);
          return;
        }
        var owner := bot.accounts[data.users[0].id];
        sub := new Dansub([owner], data.tags, pools, None, None, true, paused);
      } else {
        var ids := SubChannelOverride(disk.files);
        if ids.None? {
          if data.server.None? || data.channel.None? {
            result := Crashed("KeyError: 'server'");
            return;
          }
          ids := Some((data.server.value, data.channel.value));
        }
        var (server, channel) := ids.value;
        if server !in bot.guilds {
          result := Crashed("AttributeError: get_member on None");
          return;
        }
        var members := ResolveMembers(data.users, bot.guilds[server]);
        if timestamp.Err? {
          result := Crashed(timestamp.error);
          return;
        }
        sub := new Dansub(members, data.tags, pools, Some(server), Some(channel), false, paused);
      }
      sub.oldTimestamp := timestamp.value;
      result := Loaded(sub.State());
    }

    /** `self.subscriptions.append(sub)` for a subscription not yet listed. */
    method Append(sub: Dansub)
      requires Valid() && sub.Valid() && sub !in subscriptions
      modifies this
      ensures Valid() && subscriptions == old(subscriptions) + [sub]
      ensures States() == old(States()) + [sub.State()]
    {
      ghost var before := States();
      subscriptions := subscriptions + [sub];
      assert States() == before + [sub.State()] by {
        forall j | 0 <= j < |before|
          ensures States()[j] == before[j]
        {
        }
      }
    }

    /** `retrieve_subs`: an empty index is created when there is none,
        then the paths it lists are loaded. */
    method RetrieveSubs() returns (error: Option<string>)
      requires Valid()
      modifies this, disk
      ensures Valid()
      ensures SubsFile in disk.files
      ensures disk.files == (if SubsFile in old(disk.files) then old(disk.files)
                             else old(disk.files)[SubsFile := IndexFile("")])
      ensures disk.files[SubsFile].IndexFile? ==>
        var loaded := LoadAll(bot, disk.files, IndexLines(disk.files[SubsFile].text));
        && (loaded.Ok? ==> error.None? && States() == old(States()) + loaded.value)
        && (loaded.Err? ==> error == Some(loaded.error))
      ensures !disk.files[SubsFile].IndexFile? ==> error.Some? && subscriptions == old(subscriptions)
    {
      if SubsFile !in disk.files {
        disk.files := disk.files[SubsFile := IndexFile("")];
      }
      if !disk.files[SubsFile].IndexFile? {
        error := Some("index is not text");
        return;
      }
      var lines := IndexLines(disk.files[SubsFile].text);
      error := LoadPaths(lines);
    }

    /** The loop of `retrieve_subs`: each path is loaded in turn and
        appended, a skipped one is passed over, and the first raise ends
        the reload (the subscriptions loaded so far stay). */
    method LoadPaths(lines: seq<string>) returns (error: Option<string>)
      requires Valid()
      modifies this
      ensures Valid()
      ensures var loaded := LoadAll(bot, disk.files, lines);
        && (loaded.Ok? ==> error.None? && States() == old(States()) + loaded.value)
        && (loaded.Err? ==> error == Some(loaded.error))
    {
      error := None;
      ghost var files := disk.files;
      ghost var start := States();
      ghost var added: seq<SubState> := [];
      assert lines[0..] == lines;
      PrefixedEmpty(LoadAll(bot, files, lines));
      assert start + added == start;
      for k := 0 to |lines|
        invariant error.None? && Loading(lines, k, files, start, added)
      {
        error, added := LoadStep(lines, k, files, start, added);
        if error.Some? {
          return;
        }
      }
      assert lines[|lines|..] == [];
      assert added + [] == added;
    }

    /** What `retrieve_subs`'s loop keeps once `k` paths are done: the
        records `added` so far follow the ones there before, and the load of
        the rest completes the load of the whole index. */
    ghost predicate Loading(lines: seq<string>, k: nat, files: map<string, FileContent>,
                            start: seq<SubState>, added: seq<SubState>)
      reads this, subscriptions, disk
    {
      && Valid() && k <= |lines| && disk.files == files
      && States() == start + added
      && LoadAll(bot, files, lines) == Prefixed(added, LoadAll(bot, files, lines[k..]))
    }

    /** One path of the index: a raise stops the load, a loaded record is
        appended. */
    method LoadStep(lines: seq<string>, k: nat, ghost files: map<string, FileContent>,
                    ghost start: seq<SubState>, ghost added: seq<SubState>)
      returns (error: Option<string>, ghost added': seq<SubState>)
      requires Loading(lines, k, files, start, added) && k < |lines|
      modifies this
      ensures error.Some? ==> Valid() && LoadAll(bot, files, lines).Err?
                              && error == Some(LoadAll(bot, files, lines).error)
      ensures error.None? ==> Loading(lines, k + 1, files, start, added')
    {
      PrefixedStep(added, bot, files, lines, k);
      var result, sub := CreateSubFromFile(lines[k]);
      Kept();
      error, added' := None, added;
      if result.Crashed? {
        error := Some(result.reason);
        return;
      }
      if result.Loaded? {
        Append(sub);
        AppendSnoc(start, added, result.sub);
        added' := added + [result.sub];
      }
    }
  }
}
