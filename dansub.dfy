/** One tag subscription (`Dansub`): its identity (sorted tags, the file it
    is stored in), who is mentioned, when it is skipped, and how its tags are
    shown with pool names. */
module Subscription {
  import opened Wrappers
  import opened Strings
  import opened Sorting
  import opened DanTypes
  import opened Persistence

  // ---------------------------------------------------------------------
  // Identity: the file name derived from the sorted tags

  /** A word character of the `\w` class, over ASCII. */
  predicate IsWordChar(c: char)
  {
    ('a' <= c <= 'z') || ('A' <= c <= 'Z') || ('0' <= c <= '9') || c == '_'
  }

  /** The characters `re.sub('[^\w\-_\.]', '_', s)` leaves alone. */
  predicate KeptChar(c: char)
  {
    IsWordChar(c) || c == '-' || c == '.'
  }

  /** `re.sub('[^\w\-_\.]', '_', s)` */
  function Sanitize(s: string): string
  {
    if s == [] then "" else [if KeptChar(s[0]) then s[0] else '_'] + Sanitize(s[1..])
  }

  /** Sanitising keeps the length, keeps every allowed character where it
      is, and puts `_` exactly where a character outside the class was. */
  lemma {:induction false} SanitizeSpec(s: string)
    ensures |Sanitize(s)| == |s|
    ensures forall i :: 0 <= i < |s| ==>
      Sanitize(s)[i] == (if KeptChar(s[i]) then s[i] else '_')
  {
    if s != [] {
      SanitizeSpec(s[1..]);
      var r := Sanitize(s);
      assert forall i :: 1 <= i < |s| ==> r[i] == Sanitize(s[1..])[i - 1];
    }
  }

  lemma SanitizedIsSafe(s: string)
    ensures forall i :: 0 <= i < |Sanitize(s)| ==> KeptChar(Sanitize(s)[i])
  {
    SanitizeSpec(s);
  }

  /** `tags_to_filename`: the sanitised, space-joined tags, followed for a
      private subscription by the owner's id. */
  function Key(tags: seq<string>, isPrivate: bool, ownerId: nat): string
  {
    Sanitize(Join(" ", tags)) + (if isPrivate then ShowNat(ownerId) else "")
  }

  /** `feed_file`: where the subscription's record is stored. */
  function FeedPath(key: string): string
  {
    FeedDirectory + key + ".json"
  }

  /** The owner id `tags_to_filename` reads, `users[0].id`. */
  function OwnerOf(users: seq<User>): nat
  {
    if |users| > 0 then users[0].id else 0
  }

  /** The feed file of a subscription in a given state. */
  function StateFeedFile(s: SubState): string
  {
    FeedPath(Key(s.tags, s.isPrivate, OwnerOf(s.users)))
  }

  /** No feed file is the index file: the feed directory and the index
      part ways right after `data/danbooru/subs`. */
  lemma FeedPathIsNotIndex(key: string)
    ensures FeedPath(key) != SubsFile
  {
    var p := FeedPath(key);
    assert p[18] == '/';
    assert SubsFile[18] == '.';
  }

  /** Every feed file lies directly in the feed directory: the key holds
      only word characters, `-`, `.` and digits, so no `/`, no newline and
      no quote; it is never empty. */
  lemma FeedPathSafe(tags: seq<string>, isPrivate: bool, ownerId: nat)
    ensures var p := FeedPath(Key(tags, isPrivate, ownerId));
      && StartsWith(p, FeedDirectory) && EndsWith(p, ".json")
      && forall i :: |FeedDirectory| <= i < |p| - 5 ==> KeptChar(p[i])
  {
    var j := Sanitize(Join(" ", tags));
    SanitizeSpec(Join(" ", tags));
    var tail := if isPrivate then ShowNat(ownerId) else "";
    if isPrivate {
      ShowNatDigits(ownerId);
    }
    var p := FeedPath(Key(tags, isPrivate, ownerId));
    assert p == FeedDirectory + (j + tail) + ".json";
    forall i | |FeedDirectory| <= i < |p| - 5 ensures KeptChar(p[i]) {
      var k := i - |FeedDirectory|;
      if k < |j| {
        assert p[i] == j[k];
      } else {
        assert p[i] == tail[k - |j|];
      }
    }
  }

  lemma FeedPathHasNoLineBreakOrQuote(tags: seq<string>, isPrivate: bool, ownerId: nat)
    ensures |FeedPath(Key(tags, isPrivate, ownerId))| > 0
    ensures '\n' !in FeedPath(Key(tags, isPrivate, ownerId))
    ensures '\'' !in FeedPath(Key(tags, isPrivate, ownerId))
  {
    FeedPathSafe(tags, isPrivate, ownerId);
    var p := FeedPath(Key(tags, isPrivate, ownerId));
    forall i | 0 <= i < |p| ensures p[i] != '\n' && p[i] != '\'' {
      if i < |FeedDirectory| {
        assert p[i] == FeedDirectory[i];
      } else if i >= |p| - 5 {
        assert p[i] == ".json"[i - (|p| - 5)];
      }
    }
  }

  /** The key does not tell subscriptions apart in general: the owner id is
      appended without a separator, so private subscriptions to `a` by
      account 12 and to `a1` by account 2 share one file. */
  lemma PrivateKeysCanCollide()
    ensures Key(["a"], true, 12) == Key(["a1"], true, 2)
  {
    assert ShowNat(12) == ShowNat(1) + [DigitChar(2)];
    assert Sanitize("a") == "a";
    assert Sanitize("a1") == "a1";
  }

  // ---------------------------------------------------------------------
  // Mentions and dormancy

  /** The users that are not paused, in their original order. */
  function Active(users: seq<User>, paused: seq<nat>): seq<User>
  {
    if users == [] then []
    else if users[0].id in paused then Active(users[1..], paused)
    else [users[0]] + Active(users[1..], paused)
  }

  /** A user is active exactly when it subscribed and its id is not paused;
      nothing is reordered, so with nobody paused all users are active. */
  lemma {:induction false} ActiveSpec(users: seq<User>, paused: seq<nat>)
    ensures forall u :: u in Active(users, paused) <==> u in users && u.id !in paused
    ensures |Active(users, paused)| <= |users|
    ensures (forall u :: u in users ==> u.id !in paused) ==> Active(users, paused) == users
  {
    if users != [] {
      ActiveSpec(users[1..], paused);
      assert users == [users[0]] + users[1..];
    }
  }

  function Mentions(users: seq<User>): seq<string>
  {
    if users == [] then [] else [users[0].mention] + Mentions(users[1..])
  }

  /** `users_to_mention`: the comma-joined mentions of the active users. */
  function MentionText(users: seq<User>, paused: seq<nat>): string
  {
    Join(",", Mentions(Active(users, paused)))
  }

  /** The skip rule as the scheduler writes it:
      `is_private and len(paused) > 0 or len(paused) == len(users)`. */
  predicate DormantAsWritten(isPrivate: bool, users: seq<User>, paused: seq<nat>)
  {
    (isPrivate && |paused| > 0) || |paused| == |users|
  }

  /** The skip rule as intended: a private subscription whose owner paused,
      or a subscription all of whose users paused. */
  predicate IsDormant(isPrivate: bool, users: seq<User>, paused: seq<nat>)
  {
    (isPrivate && |paused| > 0) || (forall u :: u in users ==> u.id in paused)
  }

  /** A shared subscription is skipped exactly when nobody would be
      mentioned in its messages. */
  lemma DormantIffNobodyActive(users: seq<User>, paused: seq<nat>)
    ensures IsDormant(false, users, paused) <==> Active(users, paused) == []
  {
    ActiveSpec(users, paused);
    if !IsDormant(false, users, paused) {
      var u :| u in users && u.id !in paused;
      assert u in Active(users, paused);
    }
  }

  /** Counting paused ids goes wrong once an id is paused twice: a shared
      subscription of users 1 and 2 where user 1 paused twice is skipped by
      the rule as written although user 2 is still active. */
  lemma DormantAsWrittenSilencesActiveUser()
    ensures var users := [User(1, "a", "<@1>"), User(2, "b", "<@2>")];
      && DormantAsWritten(false, users, [1, 1])
      && !IsDormant(false, users, [1, 1])
      && Active(users, [1, 1]) == [User(2, "b", "<@2>")]
  {
    var users := [User(1, "a", "<@1>"), User(2, "b", "<@2>")];
    assert users[1] in users && users[1].id !in [1, 1];
    assert Active(users[1..], [1, 1]) == [users[1]] + Active(users[2..], [1, 1]);
  }

  /** The same happens when a paused user unsubscribes: the stale id keeps
      counting. */
  lemma DormantAsWrittenCountsStaleIds()
    ensures var users := [User(2, "b", "<@2>")];
      && DormantAsWritten(false, users, [1])
      && !IsDormant(false, users, [1])
  {
    var users := [User(2, "b", "<@2>")];
    assert users[0] in users && users[0].id !in [1];
  }

  function IdSet(users: seq<User>): set<nat>
  {
    set u | u in users :: u.id
  }

  function ElementSet(s: seq<nat>): set<nat>
  {
    set x | x in s
  }

  /** When the paused ids are distinct ids of the subscription's own users
      (and users have distinct ids), the counting rule agrees with the
      intended one. */
  lemma DormantRulesAgreeWhenPausedIdsAreClean(isPrivate: bool, users: seq<User>, paused: seq<nat>)
    requires forall i, j :: 0 <= i < j < |users| ==> users[i].id != users[j].id
    requires forall i, j :: 0 <= i < j < |paused| ==> paused[i] != paused[j]
    requires forall x :: x in paused ==> x in IdSet(users)
    ensures DormantAsWritten(isPrivate, users, paused) <==> IsDormant(isPrivate, users, paused)
  {
    var ids := IdSet(users);
    var ps := ElementSet(paused);
    DistinctCard(paused);
    UserIdsCard(users);
    assert ps <= ids;
    if |paused| == |users| {
      SubsetSameCard(ps, ids);
      forall u | u in users ensures u.id in paused {
        assert u.id in ids;
      }
    }
    if forall u :: u in users ==> u.id in paused {
      assert ids <= ps;
      assert ps == ids;
    }
  }

  lemma {:induction false} DistinctCard(s: seq<nat>)
    requires forall i, j :: 0 <= i < j < |s| ==> s[i] != s[j]
    ensures |ElementSet(s)| == |s|
  {
    if s != [] {
      DistinctCard(s[1..]);
      var t := ElementSet(s[1..]);
      assert s == [s[0]] + s[1..];
      assert ElementSet(s) == t + {s[0]};
      assert s[0] !in t;
    }
  }

  lemma {:induction false} UserIdsCard(users: seq<User>)
    requires forall i, j :: 0 <= i < j < |users| ==> users[i].id != users[j].id
    ensures |IdSet(users)| == |users|
  {
    if users != [] {
      UserIdsCard(users[1..]);
      var t := IdSet(users[1..]);
      assert users == [users[0]] + users[1..];
      assert IdSet(users) == t + {users[0].id};
      assert users[0].id !in t;
    }
  }

  lemma SubsetSameCard(a: set<nat>, b: set<nat>)
    requires a <= b && |a| == |b|
    ensures a == b
  {
    var d := b - a;
    assert b == a + d && a * d == {};
  }

  // ---------------------------------------------------------------------
  // The tag line with pool names

  function NameText(name: Option<string>): string
  {
    match name
    case Some(n) => n
    case None => "None"
  }

  /** `'{0[name]}({0[tag]})'.format(pool)` */
  function PoolLabel(p: Pool): string
  {
    NameText(p.name) + "(" + p.tag + ")"
  }

  /** The inner loop of `tags_to_message` for one tag: each pool whose tag
      equals the current text replaces it (first occurrence removed, lbl
      appended) and the lbl becomes the current text. */
  function PoolPass(list: seq<string>, tag: string, pools: seq<Pool>): seq<string>
    decreases |pools|
  {
    if pools == [] then list
    else if pools[0].tag == tag then
      PoolPass(RemoveFirst(list, tag) + [PoolLabel(pools[0])], PoolLabel(pools[0]), pools[1..])
    else PoolPass(list, tag, pools[1..])
  }

  function RewriteTag(list: seq<string>, tag: string, pools: seq<Pool>): seq<string>
  {
    if Contains(tag, "pool:") then PoolPass(list, tag, pools) else list
  }

  /** The outer loop of `tags_to_message` over the first `|ts|` tags. */
  function RewriteTags(list: seq<string>, ts: seq<string>, pools: seq<Pool>): seq<string>
  {
    if ts == [] then list
    else RewriteTag(RewriteTags(list, ts[..|ts| - 1], pools), ts[|ts| - 1], pools)
  }

  /** One turn of `tags_to_message`'s loop, at tag `i`. */
  lemma RewriteStep(tags: seq<string>, list: seq<string>, i: nat, pools: seq<Pool>)
    requires i < |tags| && list == RewriteTags(tags, tags[..i], pools) && multiset(tags[i..]) <= multiset(list)
    ensures multiset(tags[i + 1..]) + multiset{tags[i]} <= multiset(list)
    ensures RewriteTag(list, tags[i], pools) == RewriteTags(tags, tags[..i + 1], pools)
    ensures multiset(tags[i + 1..]) <= multiset(RewriteTag(list, tags[i], pools))
  {
    assert tags[i..] == [tags[i]] + tags[i + 1..];
    assert tags[..i + 1][..i] == tags[..i];
    PoolPassKeeps(list, tags[i], pools, multiset(tags[i + 1..]));
  }

  /** The tags as `tags_to_message` lists them before joining. */
  function MessageTags(tags: seq<string>, pools: seq<Pool>): seq<string>
  {
    RewriteTags(tags, tags, pools)
  }

  lemma {:induction false} PoolPassKeeps(list: seq<string>, tag: string, pools: seq<Pool>, rest: multiset<string>)
    requires rest + multiset{tag} <= multiset(list)
    ensures |PoolPass(list, tag, pools)| == |list|
    ensures rest <= multiset(PoolPass(list, tag, pools))
    decreases |pools|
  {
    if pools != [] {
      if pools[0].tag == tag {
        var l := PoolPass(list, tag, pools);
        var next := RemoveFirst(list, tag) + [PoolLabel(pools[0])];
        assert tag in multiset(list);
        RemoveFirstCount(list, tag);
        assert multiset(next) == multiset(list) - multiset{tag} + multiset{PoolLabel(pools[0])};
        PoolPassKeeps(next, PoolLabel(pools[0]), pools[1..], rest);
      } else {
        PoolPassKeeps(list, tag, pools[1..], rest);
      }
    }
  }

  lemma {:induction false} RewriteTagsKeeps(list: seq<string>, ts: seq<string>, pools: seq<Pool>, rest: multiset<string>)
    requires multiset(ts) + rest <= multiset(list)
    ensures |RewriteTags(list, ts, pools)| == |list|
    ensures rest <= multiset(RewriteTags(list, ts, pools))
    decreases |ts|
  {
    if ts != [] {
      var init := ts[..|ts| - 1];
      var t := ts[|ts| - 1];
      assert ts == init + [t];
      RewriteTagsKeeps(list, init, pools, multiset{t} + rest);
      if Contains(t, "pool:") {
        PoolPassKeeps(RewriteTags(list, init, pools), t, pools, rest);
      }
    }
  }

  /** Pool rewriting replaces tags one for one, so the tag line lists as
      many entries as the subscription has tags. */
  lemma MessageTagsLength(tags: seq<string>, pools: seq<Pool>)
    ensures |MessageTags(tags, pools)| == |tags|
  {
    RewriteTagsKeeps(tags, tags, pools, multiset{});
  }

  lemma {:induction false} PoolPassNoMatch(list: seq<string>, tag: string, pools: seq<Pool>)
    requires forall p :: p in pools ==> p.tag != tag
    ensures PoolPass(list, tag, pools) == list
    decreases |pools|
  {
    if pools != [] {
      PoolPassNoMatch(list, tag, pools[1..]);
    }
  }

  lemma {:induction false} RewriteTagsNoMatch(list: seq<string>, ts: seq<string>, pools: seq<Pool>)
    requires forall p, t :: p in pools && t in ts ==> p.tag != t
    ensures RewriteTags(list, ts, pools) == list
    decreases |ts|
  {
    if ts != [] {
      var init := ts[..|ts| - 1];
      assert forall t :: t in init ==> t in ts;
      RewriteTagsNoMatch(list, init, pools);
      assert ts[|ts| - 1] in ts;
      if Contains(ts[|ts| - 1], "pool:") {
        PoolPassNoMatch(list, ts[|ts| - 1], pools);
      }
    }
  }

  /** Tags no pool annotation names are shown exactly as they are. */
  lemma MessageTagsWithoutPools(tags: seq<string>, pools: seq<Pool>)
    requires forall p, t :: p in pools && t in tags ==> p.tag != t
    ensures MessageTags(tags, pools) == tags
  {
    RewriteTagsNoMatch(tags, tags, pools);
  }

  /** A pool tag is moved to the end of the line under its pool's name. */
  lemma MessageTagsExample()
    ensures MessageTags(["artist:x", "pool:7"], [Pool("pool:7", Some("Best"), "7")])
         == ["artist:x", "Best(pool:7)"]
  {
    var tags := ["artist:x", "pool:7"];
    var pools := [Pool("pool:7", Some("Best"), "7")];
    var lbl := PoolLabel(pools[0]);
    assert lbl == "Best(pool:7)";
    assert 'p' !in "artist:x";
    NotContainsWithoutFirstChar("artist:x", "pool:");
    assert StartsWith("pool:7", "pool:");
    assert tags[..1] == ["artist:x"] && tags[..1][..0] == [];
    assert tags[..|tags| - 1] == tags[..1];
    assert RewriteTags(tags, tags[..1], pools) == tags;
    assert RemoveFirst(tags[1..], "pool:7") == [];
    assert RemoveFirst(tags, "pool:7") == ["artist:x"];
    assert PoolPass(tags, "pool:7", pools) == PoolPass(["artist:x", lbl], lbl, []);
  }

  /** The first pool annotation whose tag is `tag`, if any. */
  function MatchingPool(tag: string, pools: seq<Pool>): (r: Option<Pool>)
    ensures r.Some? ==> r.value in pools && r.value.tag == tag
    ensures r.None? ==> forall p :: p in pools ==> p.tag != tag
    decreases |pools|
  {
    if pools == [] then None
    else if pools[0].tag == tag then Some(pools[0])
    else MatchingPool(tag, pools[1..])
  }

  /** A tag the tag line shows under a pool's name. */
  predicate Named(tag: string, pools: seq<Pool>)
  {
    Contains(tag, "pool:") && MatchingPool(tag, pools).Some?
  }

  /** The tags no pool annotation names, in their order. */
  function UnnamedTags(ts: seq<string>, pools: seq<Pool>): seq<string>
  {
    if ts == [] then []
    else UnnamedTags(ts[..|ts| - 1], pools)
         + (if Named(ts[|ts| - 1], pools) then [] else [ts[|ts| - 1]])
  }

  /** The pool labels of the named tags, in the order they are visited. */
  function NamedLabels(ts: seq<string>, pools: seq<Pool>): seq<string>
  {
    if ts == [] then []
    else NamedLabels(ts[..|ts| - 1], pools)
         + (if Named(ts[|ts| - 1], pools)
            then [PoolLabel(MatchingPool(ts[|ts| - 1], pools).value)] else [])
  }

  /** No pool's label is itself the tag of a pool. */
  predicate LabelsAreNotPoolTags(pools: seq<Pool>)
  {
    forall p, q :: p in pools && q in pools ==> PoolLabel(q) != p.tag
  }

  /** Every tag shown under a pool's name occurs once among the tags. */
  predicate NamedTagsOccurOnce(tags: seq<string>, pools: seq<Pool>)
  {
    forall i, j :: 0 <= i < |tags| && 0 <= j < |tags| && i != j && Named(tags[i], pools)
      ==> tags[i] != tags[j]
  }

  lemma {:induction false} UnnamedTagsFrom(ts: seq<string>, pools: seq<Pool>)
    ensures forall x :: x in UnnamedTags(ts, pools) ==> x in ts
    decreases |ts|
  {
    if ts != [] {
      var init := ts[..|ts| - 1];
      UnnamedTagsFrom(init, pools);
      assert forall x :: x in init ==> x in ts;
      assert ts[|ts| - 1] in ts;
    }
  }

  /** With labels that name no pool, the inner loop rewrites a tag at most
      once: by the first pool annotation with that tag. */
  lemma {:induction false} PoolPassOnce(list: seq<string>, tag: string, pools: seq<Pool>)
    requires LabelsAreNotPoolTags(pools)
    ensures PoolPass(list, tag, pools)
         == match MatchingPool(tag, pools)
            case None => list
            case Some(p) => RemoveFirst(list, tag) + [PoolLabel(p)]
    decreases |pools|
  {
    if pools != [] {
      assert forall p :: p in pools[1..] ==> p in pools;
      if pools[0].tag == tag {
        assert pools[0] in pools;
        PoolPassNoMatch(RemoveFirst(list, tag) + [PoolLabel(pools[0])], PoolLabel(pools[0]), pools[1..]);
      } else {
        PoolPassOnce(list, tag, pools[1..]);
      }
    }
  }

  /** A named tag is taken out of the working list and its label appended. */
  lemma NamedTagStep(kept: seq<string>, t: string, rest: seq<string>, pools: seq<Pool>)
    requires LabelsAreNotPoolTags(pools) && Named(t, pools) && t !in kept
    ensures RewriteTag(kept + [t] + rest, t, pools)
         == kept + rest + [PoolLabel(MatchingPool(t, pools).value)]
  {
    PoolPassOnce(kept + [t] + rest, t, pools);
    RemoveFirstOfMiddle(kept, t, rest);
  }

  /** A tag no pool annotation names leaves the working list as it is. */
  lemma UnnamedTagStep(list: seq<string>, t: string, pools: seq<Pool>)
    requires LabelsAreNotPoolTags(pools) && !Named(t, pools)
    ensures RewriteTag(list, t, pools) == list
  {
    if Contains(t, "pool:") {
      PoolPassOnce(list, t, pools);
    }
  }

  /** The tag at `m` is not among the unnamed tags before it when it is named. */
  lemma NamedTagNotBefore(tags: seq<string>, pools: seq<Pool>, m: nat)
    requires m < |tags| && NamedTagsOccurOnce(tags, pools) && Named(tags[m], pools)
    ensures tags[m] !in UnnamedTags(tags[..m], pools)
  {
    UnnamedTagsFrom(tags[..m], pools);
    forall i | 0 <= i < m ensures tags[..m][i] != tags[m] {
      assert tags[i] != tags[m];
    }
  }

  /** After the first `n` tags, the working list is the unnamed tags seen
      so far, the tags not yet visited, then the labels added so far. */
  lemma {:induction false} RewriteTagsPrefix(tags: seq<string>, pools: seq<Pool>, n: nat)
    requires n <= |tags| && LabelsAreNotPoolTags(pools) && NamedTagsOccurOnce(tags, pools)
    ensures RewriteTags(tags, tags[..n], pools)
         == UnnamedTags(tags[..n], pools) + tags[n..] + NamedLabels(tags[..n], pools)
    decreases n
  {
    if n == 0 {
      assert tags[..0] == [];
    } else {
      var m := n - 1;
      var pre := tags[..m];
      var t := tags[m];
      RewriteTagsPrefix(tags, pools, m);
      var kept := UnnamedTags(pre, pools);
      var lbls := NamedLabels(pre, pools);
      var rest := tags[n..] + lbls;
      assert tags[..n][..m] == pre && tags[..n][m] == t;
      assert RewriteTags(tags, pre, pools) == kept + [t] + rest by {
        assert tags[m..] == [t] + tags[n..];
      }
      if Named(t, pools) {
        NamedTagNotBefore(tags, pools, m);
        NamedTagStep(kept, t, rest, pools);
      } else {
        UnnamedTagStep(kept + [t] + rest, t, pools);
      }
    }
  }

  /** The tag line lists the tags no pool annotation names, in order, and
      then, for each named tag in turn, its pool's `name(tag)` label. */
  lemma MessageTagsMovesPoolTagsToEnd(tags: seq<string>, pools: seq<Pool>)
    requires LabelsAreNotPoolTags(pools) && NamedTagsOccurOnce(tags, pools)
    ensures MessageTags(tags, pools) == UnnamedTags(tags, pools) + NamedLabels(tags, pools)
  {
    RewriteTagsPrefix(tags, pools, |tags|);
    assert tags[..|tags|] == tags && tags[|tags|..] == [];
  }

  // ---------------------------------------------------------------------
  // The subscription object

  class Dansub {
    var users: seq<User>
    var tags: seq<string>
    const pools: seq<Pool>
    const guild: Option<nat>
    const channel: Option<nat>
    const isPrivate: bool
    var oldTimestamp: Option<nat>
    var pausedUsers: seq<nat>
    const feedFile: string

    /** The owner whose id is part of a private subscription's key. */
    function OwnerId(): nat
      reads this
    {
      OwnerOf(users)
    }

    /** Tags stay sorted; a private subscription has its one owner; a shared
        one has a channel; the feed file is derived from the tags. */
    ghost predicate Valid()
      reads this
    {
      && Sorted(tags)
      && (isPrivate ==> |users| == 1)
      && (!isPrivate ==> guild.Some? && channel.Some?)
      && feedFile == StateFeedFile(State())
    }

    function State(): SubState
      reads this
    {
      SubState(users, tags, pools, guild, channel, isPrivate, oldTimestamp, pausedUsers)
    }

    /** `Dansub(users, tags, pools, server, channel, is_private,
        paused_users)`: the tags are sorted in place on the way in, the
        watermark starts unset. A private subscription needs its owner,
        since the key reads `users[0]`. */
    constructor (users: seq<User>, tags: seq<string>, pools: seq<Pool>,
                 server: Option<nat>, channel: Option<nat>, isPrivate: bool,
                 pausedUsers: seq<nat>)
      requires isPrivate ==> |users| >= 1
      ensures this.users == users && this.tags == SortStrings(tags)
      ensures this.pools == pools && this.isPrivate == isPrivate
      ensures this.guild == (if isPrivate then None else server)
      ensures this.channel == (if isPrivate then None else channel)
      ensures this.oldTimestamp == None && this.pausedUsers == pausedUsers
      ensures feedFile == FeedPath(Key(SortStrings(tags), isPrivate, OwnerOf(users)))
      ensures (isPrivate ==> |users| == 1) && (!isPrivate ==> server.Some? && channel.Some?) ==> Valid()
    {
      this.users := users;
      this.tags := SortStrings(tags);
      this.pools := pools;
      this.guild := if isPrivate then None else server;
      this.channel := if isPrivate then None else channel;
      this.isPrivate := isPrivate;
      this.oldTimestamp := None;
      this.pausedUsers := pausedUsers;
      this.feedFile := FeedPath(Key(SortStrings(tags), isPrivate, OwnerOf(users)));
      SortSorts(tags);
    }

    /** `users_to_mention` */
    function UsersToMention(): string
      reads this
    {
      MentionText(users, pausedUsers)
    }

    /** `tags_to_string`: sorts the tags in place and joins them; on a valid
        subscription the sort changes nothing. */
    method TagsToString() returns (s: string)
      requires Valid()
      modifies this`tags
      ensures Valid() && tags == old(tags)
      ensures s == Join(" ", tags)
    {
      SortIdempotent(tags);
      tags := SortStrings(tags);
      s := Join(" ", tags);
    }

    /** `compare_tags(t)`: sorts `t` (handed back, since Python sorts the
        caller's list) and compares it with the stored tags. The answer is
        true exactly when `t` holds the same tags, duplicates counted, in
        any order. */
    method CompareTags(t: seq<string>) returns (same: bool, sortedT: seq<string>)
      requires Valid()
      ensures sortedT == SortStrings(t)
      ensures same <==> multiset(t) == multiset(tags)
    {
      sortedT := SortStrings(t);
      same := sortedT == tags;
      SortedEqualIffPermutation(t, tags);
    }

    /** `tags_to_filename` */
    function TagsToFilename(): string
      reads this
    {
      Key(tags, isPrivate, OwnerId())
    }

    /** `write_sub_to_file`: the record replaces whatever the feed file held. */
    method WriteSubToFile(disk: Disk)
      modifies disk
      ensures disk.files == old(disk.files)[feedFile := SubscriptionFile(ToRecord(State()))]
    {
      disk.files := disk.files[feedFile := SubscriptionFile(ToRecord(State()))];
    }

    /** `tags_to_message`: pool tags are rewritten on a copy of the tags and
        the copy is joined. */
    method TagsToMessage() returns (r: string)
      ensures r == Join(" ", MessageTags(old(tags), pools))
    {
      var list := tags;
      var i := 0;
      while i < |tags|
        invariant 0 <= i <= |tags|
        invariant list == RewriteTags(tags, tags[..i], pools)
        invariant multiset(tags[i..]) <= multiset(list)
      {
        RewriteStep(tags, list, i, pools);
        if Contains(tags[i], "pool:") {
          list := ReplacePoolTag(list, tags[i], multiset(tags[i + 1..]));
        }
        i := i + 1;
      }
      assert tags[..i] == tags;
      r := Join(" ", list);
    }

    /** The pool loop of `tags_to_message` for one tag. Each `remove` finds
        the text it removes, so the source's `ValueError` cannot occur. */
    method ReplacePoolTag(list0: seq<string>, tag0: string, ghost rest: multiset<string>)
      returns (list: seq<string>)
      requires rest + multiset{tag0} <= multiset(list0)
      ensures list == PoolPass(list0, tag0, pools)
    {
      list := list0;
      var tag := tag0;
      var j := 0;
      while j < |pools|
        invariant 0 <= j <= |pools|
        invariant PoolPass(list0, tag0, pools) == PoolPass(list, tag, pools[j..])
        invariant rest + multiset{tag} <= multiset(list)
      {
        if pools[j].tag == tag {
          assert tag in multiset(list);
          RemoveFirstCount(list, tag);
          list := RemoveFirst(list, tag) + [PoolLabel(pools[j])];
          tag := PoolLabel(pools[j]);
        }
        assert pools[j..][1..] == pools[j + 1..];
        j := j + 1;
      }
    }
  }
}
