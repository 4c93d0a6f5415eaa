/** One poll of one subscription, as values: which posts of a search
    answer are new against the watermark, where the watermark moves, what
    gets sent, and one whole tick of the scheduler over every
    subscription. The scheduler's class is proved against these. */
module Polling {
  import opened Wrappers
  import opened Strings
  import opened DanTypes
  import opened Subscription
  import opened Chunking
  import opened Persistence

  // ---------------------------------------------------------------------
  // New posts against the watermark

  /** The posts strictly newer than the watermark, in fetch order. */
  function NewPosts(posts: seq<Post>, w: nat): seq<Post>
  {
    if posts == [] then []
    else (if posts[0].created > w then [posts[0]] else []) + NewPosts(posts[1..], w)
  }

  /** A post is collected exactly when it was fetched and is newer than
      the watermark. */
  lemma {:induction false} NewPostsMembers(posts: seq<Post>, w: nat)
    ensures forall p :: p in NewPosts(posts, w) <==> p in posts && p.created > w
    ensures |NewPosts(posts, w)| <= |posts|
  {
    if posts != [] {
      NewPostsMembers(posts[1..], w);
      assert posts == [posts[0]] + posts[1..];
    }
  }

  /** Collecting keeps fetch order: it distributes over concatenation. */
  lemma {:induction false} NewPostsAppend(a: seq<Post>, b: seq<Post>, w: nat)
    ensures NewPosts(a + b, w) == NewPosts(a, w) + NewPosts(b, w)
  {
    if a != [] {
      assert (a + b)[0] == a[0] && (a + b)[1..] == a[1..] + b;
      NewPostsAppend(a[1..], b, w);
    } else {
      assert a + b == b;
    }
  }

  lemma NewPostsSnoc(posts: seq<Post>, i: nat, w: nat)
    requires i < |posts|
    ensures NewPosts(posts[..i + 1], w) ==
            NewPosts(posts[..i], w) + (if posts[i].created > w then [posts[i]] else [])
  {
    assert posts[..i + 1] == posts[..i] + [posts[i]];
    NewPostsAppend(posts[..i], [posts[i]], w);
    assert NewPosts([posts[i]], w) == (if posts[i].created > w then [posts[i]] else []) + NewPosts([], w);
  }

  /** What `_find_all_new_posts` found: the post that set an unset
      watermark (sent on its own), and the newer posts collected. */
  datatype Scan = Scan(bootstrap: Option<Post>, newer: seq<Post>)

  /** `_find_all_new_posts(images, sub)`: with no watermark the first post
      sets it; every post newer than the watermark is collected. */
  function ScanPosts(posts: seq<Post>, w: Option<nat>): Scan
  {
    if posts == [] then Scan(None, [])
    else if w.None? then Scan(Some(posts[0]), NewPosts(posts, posts[0].created))
    else Scan(None, NewPosts(posts, w.value))
  }

  /** The watermark the scan compared against. */
  function ScanThreshold(posts: seq<Post>, w: Option<nat>): nat
    requires posts != []
  {
    if w.None? then posts[0].created else w.value
  }

  /** The collected posts are exactly the fetched posts newer than the
      watermark in force; the bootstrap post is never among them. */
  lemma ScanSpec(posts: seq<Post>, w: Option<nat>)
    requires posts != []
    ensures var scan := ScanPosts(posts, w);
      && (scan.bootstrap.Some? <==> w.None?)
      && (scan.bootstrap.Some? ==> scan.bootstrap.value == posts[0] && posts[0] !in scan.newer)
      && forall p :: p in scan.newer <==> p in posts && p.created > ScanThreshold(posts, w)
  {
    NewPostsMembers(posts, ScanThreshold(posts, w));
  }

  function Urls(posts: seq<Post>): (r: seq<string>)
    ensures |r| == |posts| && forall i :: 0 <= i < |posts| ==> r[i] == posts[i].fileUrl
  {
    if posts == [] then [] else [posts[0].fileUrl] + Urls(posts[1..])
  }

  function Stamps(posts: seq<Post>): (r: seq<nat>)
    ensures |r| == |posts| && forall i :: 0 <= i < |posts| ==> r[i] == posts[i].created
  {
    if posts == [] then [] else [posts[0].created] + Stamps(posts[1..])
  }

  /** Collecting one more post appends its URL and its time. */
  lemma UrlsStampsSnoc(posts: seq<Post>, p: Post)
    ensures Urls(posts + [p]) == Urls(posts) + [p.fileUrl]
    ensures Stamps(posts + [p]) == Stamps(posts) + [p.created]
  {
    var r := Urls(posts + [p]);
    var t := Stamps(posts + [p]);
    assert forall i :: 0 <= i < |r| ==> r[i] == (Urls(posts) + [p.fileUrl])[i];
    assert forall i :: 0 <= i < |t| ==> t[i] == (Stamps(posts) + [p.created])[i];
  }

  /** `max(timestamp_posted)` */
  function Max(s: seq<nat>): (m: nat)
    requires s != []
    ensures m in s && forall x :: x in s ==> x <= m
  {
    if |s| == 1 then s[0]
    else
      var rest := Max(s[1..]);
      assert forall x :: x in s ==> x == s[0] || x in s[1..];
      if s[0] >= rest then s[0] else rest
  }

  /** Where the watermark stands after the poll: the bootstrap post sets
      it, and the newest collected post moves it. */
  function NextWatermark(w: Option<nat>, scan: Scan): Option<nat>
  {
    if scan.newer != [] then Some(Max(Stamps(scan.newer)))
    else if scan.bootstrap.Some? then Some(scan.bootstrap.value.created)
    else w
  }

  /** A set watermark never moves back, moves strictly forward whenever
      posts were collected, and stays put when none were; an unset one is
      set by any non-empty answer. */
  lemma WatermarkAdvances(posts: seq<Post>, w: Option<nat>)
    ensures var next := NextWatermark(w, ScanPosts(posts, w));
      && (w.Some? ==> next.Some? && next.value >= w.value)
      && (w.Some? && ScanPosts(posts, w).newer != [] ==> next.value > w.value)
      && (ScanPosts(posts, w).newer == [] && ScanPosts(posts, w).bootstrap.None? ==> next == w)
      && (posts != [] ==> next.Some?)
  {
    var scan := ScanPosts(posts, w);
    if posts != [] && scan.newer != [] {
      NewPostsMembers(posts, ScanThreshold(posts, w));
      var m := Max(Stamps(scan.newer));
      var k :| 0 <= k < |scan.newer| && Stamps(scan.newer)[k] == m;
      assert scan.newer[k] in scan.newer;
    }
  }

  lemma NewPostsNone(posts: seq<Post>, w: nat)
    requires forall p :: p in posts ==> p.created <= w
    ensures NewPosts(posts, w) == []
  {
    NewPostsMembers(posts, w);
  }

  /** No fetched post is newer than the watermark after the poll. */
  lemma NextWatermarkBoundsPosts(posts: seq<Post>, w: Option<nat>)
    requires posts != []
    ensures var next := NextWatermark(w, ScanPosts(posts, w));
      next.Some? && forall p :: p in posts ==> p.created <= next.value
  {
    var scan := ScanPosts(posts, w);
    var next := NextWatermark(w, scan);
    var t := ScanThreshold(posts, w);
    NewPostsMembers(posts, t);
    assert scan.newer == NewPosts(posts, t);
    forall p | p in posts
      ensures p.created <= next.value
    {
      if p.created > t {
        assert p in scan.newer;
        var k :| 0 <= k < |scan.newer| && scan.newer[k] == p;
        assert Stamps(scan.newer)[k] == p.created;
        assert p.created in Stamps(scan.newer);
      } else if scan.newer != [] {
        var q := scan.newer[0];
        assert q in scan.newer;
        assert Stamps(scan.newer)[0] == q.created;
      }
    }
  }

  /** Every collected post is no newer than the new watermark, so asking
      again with the same answer collects nothing and sends no bootstrap:
      no post is announced twice. */
  lemma RescanFindsNothing(posts: seq<Post>, w: Option<nat>)
    requires posts != []
    ensures ScanPosts(posts, NextWatermark(w, ScanPosts(posts, w))) == Scan(None, [])
  {
    NextWatermarkBoundsPosts(posts, w);
    NewPostsNone(posts, NextWatermark(w, ScanPosts(posts, w)).value);
  }

  // ---------------------------------------------------------------------
  // What one subscription sends

  /** The tag line shown in messages, `tags_to_message()`. */
  function TagText(s: SubState): string
  {
    Join(" ", MessageTags(s.tags, s.pools))
  }

  /** A private subscription writes to its owner, a shared one to its
      channel. */
  function TargetOf(s: SubState): Target
  {
    if s.isPrivate then DirectMessage(OwnerOf(s.users))
    else ChannelMessage(if s.channel.Some? then s.channel.value else 0)
  }

  function Deliveries(target: Target, texts: seq<string>): (r: seq<Delivery>)
    ensures |r| == |texts| && forall i :: 0 <= i < |r| ==> r[i] == Delivery(target, texts[i])
  {
    if texts == [] then [] else [Delivery(target, texts[0])] + Deliveries(target, texts[1..])
  }

  /** `send_new_posts(sub, urls)`: the URLs in groups of four, opened by
      the active users' mentions and the tag line, closed by the tag line. */
  function Batch(s: SubState, urls: seq<string>): seq<Delivery>
  {
    var tagText := TagText(s);
    Deliveries(TargetOf(s),
      GroupChunks(Header(MentionText(s.users, s.pausedUsers), tagText), Tail(tagText), urls, |urls|))
  }

  /** `Batch` spelled out, for the scheduler's proof of `send_new_posts`. */
  lemma BatchUnfold(s: SubState, urls: seq<string>)
    ensures Batch(s, urls) == Deliveries(TargetOf(s),
      GroupChunks(Header(MentionText(s.users, s.pausedUsers), TagText(s)), Tail(TagText(s)), urls, |urls|))
  {
  }

  /** What is sent does not depend on the watermark. */
  lemma BatchIgnoresWatermark(s: SubState, t: Option<nat>, urls: seq<string>)
    ensures Batch(s.(oldTimestamp := t), urls) == Batch(s, urls)
  {
    BatchUnfold(s, urls);
    BatchUnfold(s.(oldTimestamp := t), urls);
  }

  function Texts(ds: seq<Delivery>): string
  {
    if ds == [] then "" else ds[0].text + Texts(ds[1..])
  }

  /** A batch goes to the subscription's target and, read in order, is the
      header, one line per URL, and the tag line. */
  lemma BatchSpec(s: SubState, urls: seq<string>)
    ensures forall d :: d in Batch(s, urls) ==> d.target == TargetOf(s)
    ensures Texts(Batch(s, urls)) ==
      Header(MentionText(s.users, s.pausedUsers), TagText(s)) + Lines(urls) + Tail(TagText(s))
  {
    var tagText := TagText(s);
    var chunks := GroupChunks(Header(MentionText(s.users, s.pausedUsers), tagText), Tail(tagText), urls, |urls|);
    TextsOfDeliveries(TargetOf(s), chunks);
    SplitInGroupsOfFourKeepsAll(Header(MentionText(s.users, s.pausedUsers), tagText), Tail(tagText), urls);
  }

  lemma {:induction false} TextsOfDeliveries(target: Target, texts: seq<string>)
    ensures Texts(Deliveries(target, texts)) == Concat(texts)
  {
    if texts != [] {
      TextsOfDeliveries(target, texts[1..]);
      assert Deliveries(target, texts)[1..] == Deliveries(target, texts[1..]);
    }
  }

  // ---------------------------------------------------------------------
  // One poll of one subscription

  /** The failures the tick's `except` clauses handle. */
  datatype Failure = TransientFailure | CancelledFailure | UnexpectedFailure(description: string)

  /** The new state, the messages sent, whether the feed file was
      written, and the failure the poll ended with, if any. */
  datatype PollResult = PollResult(sub: SubState, deliveries: seq<Delivery>, written: bool, failure: Option<Failure>)

  /** The body of the tick's loop for one subscription, up to its
      exception handlers: a dormant subscription is skipped, an empty or
      failed answer changes nothing, otherwise the bootstrap post and then
      the collected posts are sent and the watermark is moved. */
  function Poll(s: SubState, answer: Fetch): PollResult
  {
    if IsDormant(s.isPrivate, s.users, s.pausedUsers) then PollResult(s, [], false, None)
    else match answer
      case NoAnswer => PollResult(s, [], false, None)
      case Transient => PollResult(s, [], false, Some(TransientFailure))
      case Cancelled => PollResult(s, [], false, Some(CancelledFailure))
      case Unexpected(d) => PollResult(s, [], false, Some(UnexpectedFailure(d)))
      case Found(posts) => if posts == [] then PollResult(s, [], false, None) else Announce(s, posts)
  }

  /** A non-empty answer: the bootstrap post and then the collected posts
      are sent, the watermark is moved, and the feed file is written when
      anything was sent. */
  function Announce(s: SubState, posts: seq<Post>): PollResult
  {
    var scan := ScanPosts(posts, s.oldTimestamp);
    var boot := if scan.bootstrap.Some? then Batch(s, [scan.bootstrap.value.fileUrl]) else [];
    var sent := if scan.newer != [] then Batch(s, Urls(scan.newer)) else [];
    PollResult(s.(oldTimestamp := NextWatermark(s.oldTimestamp, scan)), boot + sent,
               scan.bootstrap.Some? || scan.newer != [], None)
  }

  /** `Announce` step by step: the bootstrap post first (with the
      watermark set from it), then the collected posts, after which the
      watermark moves to the newest of them. */
  lemma AnnounceSteps(s: SubState, posts: seq<Post>)
    ensures var scan := ScanPosts(posts, s.oldTimestamp);
      var s1 := s.(oldTimestamp := if scan.bootstrap.Some? then Some(posts[0].created) else s.oldTimestamp);
      var boot := if scan.bootstrap.Some? then Batch(s, [posts[0].fileUrl]) else [];
      var urls := Urls(scan.newer);
      var p := Announce(s, posts);
      && (urls != [] ==> p.sub == s1.(oldTimestamp := Some(Max(Stamps(scan.newer))))
                         && p.deliveries == boot + Batch(s1, urls) && p.written)
      && (urls == [] ==> p.sub == s1 && p.deliveries == boot && p.written == scan.bootstrap.Some?)
  {
    var scan := ScanPosts(posts, s.oldTimestamp);
    var s1 := s.(oldTimestamp := if scan.bootstrap.Some? then Some(posts[0].created) else s.oldTimestamp);
    BatchIgnoresWatermark(s, s1.oldTimestamp, Urls(scan.newer));
    if scan.newer == [] {
      assert Urls(scan.newer) == [];
    } else {
      assert Urls(scan.newer) != [];
    }
  }

  /** A poll changes nothing but the watermark, which never moves back;
      a failure only comes from a failed answer, and leaves the
      subscription as it was. */
  lemma PollChangesOnlyWatermark(s: SubState, answer: Fetch)
    ensures var r := Poll(s, answer);
      && r.sub == s.(oldTimestamp := r.sub.oldTimestamp)
      && (s.oldTimestamp.Some? ==> r.sub.oldTimestamp.Some? && r.sub.oldTimestamp.value >= s.oldTimestamp.value)
      && (r.failure.Some? ==> r.sub == s && r.deliveries == [] && !r.written)
      && (r.failure.Some? <==>
            !IsDormant(s.isPrivate, s.users, s.pausedUsers) &&
            (answer.Transient? || answer.Cancelled? || answer.Unexpected?))
  {
    if answer.Found? && answer.posts != [] {
      WatermarkAdvances(answer.posts, s.oldTimestamp);
    }
  }

  /** A dormant subscription sends nothing and is not touched. */
  lemma DormantPollIsSilent(s: SubState, answer: Fetch)
    requires IsDormant(s.isPrivate, s.users, s.pausedUsers)
    ensures Poll(s, answer) == PollResult(s, [], false, None)
  {
  }

  /** The messages of a poll announce the bootstrap post and the posts
      newer than the old watermark, every one of them, in fetch order. */
  lemma PollAnnouncesNewPosts(s: SubState, posts: seq<Post>)
    requires !IsDormant(s.isPrivate, s.users, s.pausedUsers) && posts != []
    ensures var scan := ScanPosts(posts, s.oldTimestamp);
      var h := Header(MentionText(s.users, s.pausedUsers), TagText(s));
      var t := Tail(TagText(s));
      Texts(Poll(s, Found(posts)).deliveries) ==
        (if scan.bootstrap.Some? then h + Lines([posts[0].fileUrl]) + t else "") +
        (if scan.newer != [] then h + Lines(Urls(scan.newer)) + t else "")
    ensures forall d :: d in Poll(s, Found(posts)).deliveries ==> d.target == TargetOf(s)
  {
    var scan := ScanPosts(posts, s.oldTimestamp);
    var boot := if scan.bootstrap.Some? then Batch(s, [scan.bootstrap.value.fileUrl]) else [];
    var sent := if scan.newer != [] then Batch(s, Urls(scan.newer)) else [];
    TextsAppend(boot, sent);
    if scan.bootstrap.Some? {
      BatchSpec(s, [scan.bootstrap.value.fileUrl]);
    }
    if scan.newer != [] {
      BatchSpec(s, Urls(scan.newer));
    }
  }

  lemma {:induction false} TextsAppend(a: seq<Delivery>, b: seq<Delivery>)
    ensures Texts(a + b) == Texts(a) + Texts(b)
  {
    if a != [] {
      assert (a + b)[0] == a[0] && (a + b)[1..] == a[1..] + b;
      TextsAppend(a[1..], b);
    } else {
      assert a + b == b;
    }
  }

  /** Polling again with the same answer sends nothing. */
  lemma RepollSendsNothing(s: SubState, answer: Fetch)
    ensures Poll(Poll(s, answer).sub, answer).deliveries == []
  {
    if answer.Found? && answer.posts != [] && !IsDormant(s.isPrivate, s.users, s.pausedUsers) {
      RescanFindsNothing(answer.posts, s.oldTimestamp);
    }
  }

  // ---------------------------------------------------------------------
  // Files the tick writes

  function FeedFiles(states: seq<SubState>): (r: seq<string>)
    ensures |r| == |states|
  {
    if states == [] then [] else [StateFeedFile(states[0])] + FeedFiles(states[1..])
  }

  lemma {:induction false} FeedFilesAt(states: seq<SubState>, k: nat)
    requires k < |states|
    ensures FeedFiles(states)[k] == StateFeedFile(states[k])
  {
    if k > 0 {
      FeedFilesAt(states[1..], k - 1);
    }
  }

  lemma {:induction false} FeedFilesAppend(a: seq<SubState>, b: seq<SubState>)
    ensures FeedFiles(a + b) == FeedFiles(a) + FeedFiles(b)
  {
    if a != [] {
      assert (a + b)[0] == a[0] && (a + b)[1..] == a[1..] + b;
      FeedFilesAppend(a[1..], b);
      var h := [StateFeedFile(a[0])];
      calc {
        FeedFiles(a + b);
        h + FeedFiles(a[1..] + b);
        h + (FeedFiles(a[1..]) + FeedFiles(b));
        (h + FeedFiles(a[1..])) + FeedFiles(b);
      }
    } else {
      assert a + b == b;
      assert [] + FeedFiles(b) == FeedFiles(b);
    }
  }

  lemma FeedFilesSnoc(states: seq<SubState>)
    requires states != []
    ensures FeedFiles(states) == FeedFiles(states[..|states| - 1]) + [StateFeedFile(states[|states| - 1])]
  {
    var init := states[..|states| - 1];
    var last := states[|states| - 1];
    assert states == init + [last];
    FeedFilesAppend(init, [last]);
    assert [last][1..] == [];
    assert FeedFiles([last]) == [StateFeedFile(last)] + [] == [StateFeedFile(last)];
  }

  /** `write_to_file`: the index lists every subscription's feed file. */
  function WriteIndex(files: map<string, FileContent>, states: seq<SubState>): map<string, FileContent>
  {
    files[SubsFile := IndexFile(IndexText(FeedFiles(states)))]
  }

  /** `write_sub_to_file` for each subscription in list order; a later
      subscription whose key collides overwrites an earlier one. */
  function WriteRecords(files: map<string, FileContent>, states: seq<SubState>): map<string, FileContent>
  {
    if states == [] then files
    else WriteRecords(files, states[..|states| - 1])[
           StateFeedFile(states[|states| - 1]) := SubscriptionFile(ToRecord(states[|states| - 1]))]
  }

  /** One more record written, after the ones before it. */
  lemma WriteRecordsSnoc(files: map<string, FileContent>, states: seq<SubState>, k: nat)
    requires k < |states|
    ensures WriteRecords(files, states[..k + 1]) ==
            WriteRecords(files, states[..k])[StateFeedFile(states[k]) := SubscriptionFile(ToRecord(states[k]))]
  {
    assert states[..k + 1][..k] == states[..k];
  }

  /** `_write_subs_information_to_file` */
  function FlushAll(files: map<string, FileContent>, states: seq<SubState>): map<string, FileContent>
  {
    WriteRecords(WriteIndex(files, states), states)
  }

  /** Writing the records leaves the index alone. */
  lemma {:induction false} WriteRecordsKeepsIndex(files: map<string, FileContent>, states: seq<SubState>)
    requires SubsFile in files
    ensures SubsFile in WriteRecords(files, states)
    ensures WriteRecords(files, states)[SubsFile] == files[SubsFile]
  {
    if states != [] {
      var last := states[|states| - 1];
      WriteRecordsKeepsIndex(files, states[..|states| - 1]);
      FeedPathIsNotIndex(Key(last.tags, last.isPrivate, OwnerOf(last.users)));
    }
  }

  /** Every subscription gets a record of its own state, unless a later
      one with the same feed file overwrote it. */
  lemma {:induction false} WriteRecordsWritesEach(files: map<string, FileContent>, states: seq<SubState>, i: nat)
    requires i < |states|
    requires forall j :: i < j < |states| ==> StateFeedFile(states[j]) != StateFeedFile(states[i])
    ensures StateFeedFile(states[i]) in WriteRecords(files, states)
    ensures WriteRecords(files, states)[StateFeedFile(states[i])] == SubscriptionFile(ToRecord(states[i]))
  {
    if i < |states| - 1 {
      var init := states[..|states| - 1];
      assert init[i] == states[i];
      WriteRecordsWritesEach(files, init, i);
      assert StateFeedFile(states[|states| - 1]) != StateFeedFile(states[i]);
    }
  }

  /** Files that are no subscription's feed file are left alone. */
  lemma {:induction false} WriteRecordsKeepsOthers(files: map<string, FileContent>, states: seq<SubState>, p: string)
    requires p in files && p !in FeedFiles(states)
    ensures p in WriteRecords(files, states) && WriteRecords(files, states)[p] == files[p]
  {
    if states != [] {
      var init := states[..|states| - 1];
      FeedFilesSnoc(states);
      WriteRecordsKeepsOthers(files, init, p);
    }
  }

  /** After a flush the index lists every feed file. */
  lemma FlushWritesIndex(files: map<string, FileContent>, states: seq<SubState>)
    ensures SubsFile in FlushAll(files, states)
    ensures FlushAll(files, states)[SubsFile] == IndexFile(IndexText(FeedFiles(states)))
  {
    WriteRecordsKeepsIndex(WriteIndex(files, states), states);
  }

  // ---------------------------------------------------------------------
  // One tick

  /** The message the owner gets for an unexpected failure; the traceback
      slot holds what `traceback.print_exc()` returns, `None`. */
  function AlertText(description: string, tagString: string): string
  {
    "Error during update Task: `" + description + "`\nduring Sub: `" + tagString + "`\n```\nNone\n```"
  }

  datatype TickResult = TickResult(subs: seq<SubState>, files: map<string, FileContent>,
                                   deliveries: seq<Delivery>, cancelled: bool)

  /** The tick's exception handlers once subscription `i` was polled with
      result `p`: after a transient or unexpected failure everything is
      flushed (and the owner alerted for the latter); a cancellation
      flushes and stops. */
  function Handle(states: seq<SubState>, i: nat, p: PollResult, tagString: string,
                  files: map<string, FileContent>, deliveries: seq<Delivery>): TickResult
    requires i < |states|
  {
    TickResult(states[i := p.sub], HandleFiles(states, i, p, files), HandleDeliveries(p, tagString, deliveries),
               p.failure == Some(CancelledFailure))
  }

  /** The feed file written by the poll, and a full flush after a failure. */
  function HandleFiles(states: seq<SubState>, i: nat, p: PollResult, files: map<string, FileContent>): map<string, FileContent>
    requires i < |states|
  {
    var written := if p.written then files[StateFeedFile(states[i]) := SubscriptionFile(ToRecord(p.sub))] else files;
    if p.failure.None? then written else FlushAll(written, states[i := p.sub])
  }

  /** The poll's messages, and the owner's alert after an unexpected failure. */
  function HandleDeliveries(p: PollResult, tagString: string, deliveries: seq<Delivery>): seq<Delivery>
  {
    var sent := deliveries + p.deliveries;
    if p.failure.Some? && p.failure.value.UnexpectedFailure?
    then sent + [Delivery(DirectMessage(OwnerId), AlertText(p.failure.value.description, tagString))]
    else sent
  }

  /** The tick's loop body for subscription `i`. */
  function Step(states: seq<SubState>, i: nat, files: map<string, FileContent>,
                deliveries: seq<Delivery>, fetch: string -> Fetch): TickResult
    requires i < |states|
  {
    var tagString := Join(" ", states[i].tags);
    Handle(states, i, Poll(states[i], fetch(tagString)), tagString, files, deliveries)
  }

  /** `schedule_task` from subscription `i` on, each one asked with
      `fetch` on its joined tags; at the end the index is written. */
  function TickFrom(states: seq<SubState>, i: nat, files: map<string, FileContent>,
                    deliveries: seq<Delivery>, fetch: string -> Fetch): (r: TickResult)
    decreases |states| - i
  {
    if i >= |states| then TickResult(states, WriteIndex(files, states), deliveries, false)
    else
      var st := Step(states, i, files, deliveries, fetch);
      if st.cancelled then st else TickFrom(st.subs, i + 1, st.files, st.deliveries, fetch)
  }

  function Tick(states: seq<SubState>, files: map<string, FileContent>, fetch: string -> Fetch): TickResult
  {
    TickFrom(states, 0, files, [], fetch)
  }

  /** Moving a watermark does not move a feed file. */
  lemma FeedFilesOfUpdate(states: seq<SubState>, i: nat, s: SubState)
    requires i < |states|
    requires s == states[i].(oldTimestamp := s.oldTimestamp)
    ensures FeedFiles(states[i := s]) == FeedFiles(states)
  {
    var a := FeedFiles(states[i := s]);
    var b := FeedFiles(states);
    forall k | 0 <= k < |states|
      ensures a[k] == b[k]
    {
      FeedFilesAt(states[i := s], k);
      FeedFilesAt(states, k);
    }
  }

  /** Handling a poll result that changed only the watermark keeps the
      other subscriptions and the feed files, keeps the messages sent so
      far in front, and writes the index if it stops. */
  lemma HandleSpec(states: seq<SubState>, i: nat, p: PollResult, tagString: string,
                   files: map<string, FileContent>, deliveries: seq<Delivery>)
    requires i < |states|
    requires p.sub == states[i].(oldTimestamp := p.sub.oldTimestamp)
    ensures var st := Handle(states, i, p, tagString, files, deliveries);
      && st.subs == states[i := p.sub]
      && FeedFiles(st.subs) == FeedFiles(states)
      && |st.deliveries| >= |deliveries| && st.deliveries[..|deliveries|] == deliveries
      && (st.cancelled ==> SubsFile in st.files && st.files[SubsFile] == IndexFile(IndexText(FeedFiles(states))))
  {
    var after := states[i := p.sub];
    FeedFilesOfUpdate(states, i, p.sub);
    var written := if p.written then files[StateFeedFile(states[i]) := SubscriptionFile(ToRecord(p.sub))] else files;
    if p.failure.Some? {
      FlushWritesIndex(written, after);
    }
    var sent := deliveries + p.deliveries;
    assert sent[..|deliveries|] == deliveries;
    if p.failure.Some? && p.failure.value.UnexpectedFailure? {
      var alert := Delivery(DirectMessage(OwnerId), AlertText(p.failure.value.description, tagString));
      assert (sent + [alert])[..|deliveries|] == deliveries;
    }
  }

  /** One step changes only the watermark of subscription `i`, never
      backwards, keeps the messages sent so far in front, and writes the
      index if it stops. */
  lemma StepSpec(states: seq<SubState>, i: nat, files: map<string, FileContent>,
                 deliveries: seq<Delivery>, fetch: string -> Fetch)
    requires i < |states|
    ensures var st := Step(states, i, files, deliveries, fetch);
      && |st.subs| == |states|
      && st.subs == states[i := st.subs[i]]
      && st.subs[i] == states[i].(oldTimestamp := st.subs[i].oldTimestamp)
      && (states[i].oldTimestamp.Some? ==>
            st.subs[i].oldTimestamp.Some? && st.subs[i].oldTimestamp.value >= states[i].oldTimestamp.value)
      && FeedFiles(st.subs) == FeedFiles(states)
      && |st.deliveries| >= |deliveries| && st.deliveries[..|deliveries|] == deliveries
      && (st.cancelled ==> SubsFile in st.files && st.files[SubsFile] == IndexFile(IndexText(FeedFiles(states))))
  {
    var tagString := Join(" ", states[i].tags);
    var p := Poll(states[i], fetch(tagString));
    PollChangesOnlyWatermark(states[i], fetch(tagString));
    HandleSpec(states, i, p, tagString, files, deliveries);
  }

  /** `b` is subscription `a` with at most its watermark moved forward. */
  predicate Advanced(a: SubState, b: SubState)
  {
    && b == a.(oldTimestamp := b.oldTimestamp)
    && (a.oldTimestamp.Some? ==> b.oldTimestamp.Some? && b.oldTimestamp.value >= a.oldTimestamp.value)
  }

  lemma AdvancedTransitive(a: SubState, b: SubState, c: SubState)
    requires Advanced(a, b) && Advanced(b, c)
    ensures Advanced(a, c)
  {
  }

  /** Same subscriptions in the same order, each with only its watermark
      moved, never backwards; the ones before `i` are not visited. */
  lemma {:induction false} TickKeepsSubscriptions(states: seq<SubState>, i: nat, files: map<string, FileContent>,
                                                  deliveries: seq<Delivery>, fetch: string -> Fetch)
    decreases |states| - i
    ensures var r := TickFrom(states, i, files, deliveries, fetch);
      && |r.subs| == |states|
      && (forall k :: 0 <= k < |states| ==> Advanced(states[k], r.subs[k]))
      && (forall k :: 0 <= k < i && k < |states| ==> r.subs[k] == states[k])
  {
    if i < |states| {
      var st := Step(states, i, files, deliveries, fetch);
      StepAdvances(states, i, files, deliveries, fetch);
      if !st.cancelled {
        TickKeepsSubscriptions(st.subs, i + 1, st.files, st.deliveries, fetch);
        var r := TickFrom(st.subs, i + 1, st.files, st.deliveries, fetch);
        forall k | 0 <= k < |states|
          ensures Advanced(states[k], r.subs[k])
        {
          AdvancedTransitive(states[k], st.subs[k], r.subs[k]);
        }
      }
    } else {
      forall k | 0 <= k < |states|
        ensures Advanced(states[k], states[k])
      {
      }
    }
  }

  /** One step moves the watermark of the subscription it visits and of
      no other. */
  lemma StepAdvances(states: seq<SubState>, i: nat, files: map<string, FileContent>,
                     deliveries: seq<Delivery>, fetch: string -> Fetch)
    requires i < |states|
    ensures var st := Step(states, i, files, deliveries, fetch);
      && |st.subs| == |states|
      && (forall k :: 0 <= k < |states| ==> Advanced(states[k], st.subs[k]))
      && (forall k :: 0 <= k < |states| && k != i ==> st.subs[k] == states[k])
  {
    var st := Step(states, i, files, deliveries, fetch);
    StepSpec(states, i, files, deliveries, fetch);
    forall k | 0 <= k < |states|
      ensures Advanced(states[k], st.subs[k])
    {
      if k != i {
        assert st.subs[k] == states[k];
      }
    }
  }

  /** Messages only accumulate: what was sent before stays in front. */
  lemma {:induction false} TickKeepsEarlierMessages(states: seq<SubState>, i: nat, files: map<string, FileContent>,
                                                    deliveries: seq<Delivery>, fetch: string -> Fetch)
    decreases |states| - i
    ensures var r := TickFrom(states, i, files, deliveries, fetch);
      |r.deliveries| >= |deliveries| && r.deliveries[..|deliveries|] == deliveries
  {
    if i < |states| {
      var st := Step(states, i, files, deliveries, fetch);
      StepSpec(states, i, files, deliveries, fetch);
      if !st.cancelled {
        TickKeepsEarlierMessages(st.subs, i + 1, st.files, st.deliveries, fetch);
        var r := TickFrom(st.subs, i + 1, st.files, st.deliveries, fetch);
        assert r.deliveries[..|deliveries|] == r.deliveries[..|st.deliveries|][..|deliveries|];
      }
    }
  }

  /** The index always ends up listing every feed file, cancelled or not. */
  lemma {:induction false} TickWritesIndex(states: seq<SubState>, i: nat, files: map<string, FileContent>,
                                           deliveries: seq<Delivery>, fetch: string -> Fetch)
    decreases |states| - i
    ensures var r := TickFrom(states, i, files, deliveries, fetch);
      SubsFile in r.files && r.files[SubsFile] == IndexFile(IndexText(FeedFiles(states)))
  {
    if i < |states| {
      var st := Step(states, i, files, deliveries, fetch);
      StepSpec(states, i, files, deliveries, fetch);
      if !st.cancelled {
        TickWritesIndex(st.subs, i + 1, st.files, st.deliveries, fetch);
      }
    }
  }
}
