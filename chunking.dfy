/** The two ways the scheduler cuts a batch of new post URLs into Discord
    messages: `_split_message_in_groups_of_four` (the one `send_new_posts`
    uses) and `_reduce_message_spam` (a 2000-character budget). */
module Chunking {
  import opened Strings

  /** The opening of a batch: the mention line and the back-quoted tag line. */
  function Header(mention: string, tagMessage: string): string
  {
    mention + "\n`" + tagMessage + "`\n"
  }

  /** The closing of a batch: the back-quoted tag line again. */
  function Tail(tagMessage: string): string
  {
    "`" + tagMessage + "`"
  }

  const MessageBudget: nat := 2000

  // ---------------------------------------------------------------------
  // Groups of four

  /** Index (0-based) of the first post of chunk `j`: chunk 0 takes the
      posts numbered 1..3 (1-based), every later chunk starts at a 1-based
      index divisible by 4. */
  function ChunkStart(j: nat): nat
  {
    if j == 0 then 0 else 4 * j - 1
  }

  /** How many of `n` posts the loop as written emits: when `n` is a
      positive multiple of 4, the last post meets the `break`. */
  function KeptAsWritten(n: nat): (k: nat)
    ensures k <= n
  {
    if n > 0 && n % 4 == 0 then n - 1 else n
  }

  function Opening(header: string, j: nat): string
  {
    if j == 0 then header else ""
  }

  /** Chunk `j` when it is complete: its posts run up to where chunk
      `j + 1` starts. */
  function FullChunk(header: string, posts: seq<string>, j: nat): string
    requires ChunkStart(j + 1) <= |posts|
  {
    Opening(header, j) + Lines(posts[ChunkStart(j)..ChunkStart(j + 1)])
  }

  /** Chunk `j` of the first `k` posts; the last chunk (`j == k / 4`) runs
      to post `k` and carries the tail. */
  function Chunk(header: string, tail: string, posts: seq<string>, k: nat, j: nat): string
    requires k <= |posts| && j <= k / 4
  {
    if j < k / 4 then FullChunk(header, posts, j)
    else Opening(header, j) + Lines(posts[ChunkStart(j)..k]) + tail
  }

  /** The message list for the first `k` posts. */
  function GroupChunks(header: string, tail: string, posts: seq<string>, k: nat): (r: seq<string>)
    requires k <= |posts|
    ensures |r| == k / 4 + 1
  {
    seq(k / 4 + 1, j requires 0 <= j < k / 4 + 1 => Chunk(header, tail, posts, k, j))
  }

  /** While `f` chunks have been flushed and `i` posts placed, post `i`
      (1-based `i + 1`) opens a new chunk exactly when `i` is where chunk
      `f + 1` starts. */
  lemma FlushPoint(f: nat, i: nat)
    requires ChunkStart(f) <= i <= ChunkStart(f + 1)
    requires f > 0 ==> ChunkStart(f) < i
    ensures (i + 1) % 4 == 0 <==> i == ChunkStart(f + 1)
  {
  }

  /** Once all `k` posts are placed with `f` chunks flushed, the open
      chunk is the last one. */
  lemma FlushCount(f: nat, k: nat)
    requires ChunkStart(f) <= k <= ChunkStart(f + 1)
    requires f > 0 ==> ChunkStart(f) < k
    ensures f == k / 4
  {
  }

  /** The flushed chunks and the open one make the message list. */
  lemma CloseChunks(header: string, tail: string, posts: seq<string>, k: nat, chunks: seq<string>, message: string)
    requires k <= |posts|
    requires ChunkStart(k / 4) <= k
    requires |chunks| == k / 4
    requires forall j :: 0 <= j < k / 4 ==> chunks[j] == FullChunk(header, posts, j)
    requires message == Opening(header, k / 4) + Lines(posts[ChunkStart(k / 4)..k])
    ensures chunks + [message + tail] == GroupChunks(header, tail, posts, k)
  {
    var r := GroupChunks(header, tail, posts, k);
    forall j | 0 <= j < |r|
      ensures (chunks + [message + tail])[j] == r[j]
    {
      if j < k / 4 {
        assert r[j] == Chunk(header, tail, posts, k, j);
      }
    }
  }

  /** What the chunking loop keeps true once `i` posts are placed and `f`
      chunks flushed. */
  ghost predicate Placing(header: string, posts: seq<string>, chunks: seq<string>, message: string, i: nat, f: nat)
  {
    && i <= |posts|
    && ChunkStart(f) <= i <= ChunkStart(f + 1)
    && (f > 0 ==> ChunkStart(f) < i)
    && |chunks| == f
    && (forall j :: 0 <= j < f ==> chunks[j] == FullChunk(header, posts, j))
    && message == Opening(header, f) + Lines(posts[ChunkStart(f)..i])
  }

  /** Flushing the open chunk where chunk `f + 1` starts, and opening the
      next one with post `i`. */
  lemma FlushStep(header: string, posts: seq<string>, chunks: seq<string>, message: string, i: nat, f: nat)
    requires Placing(header, posts, chunks, message, i, f) && i == ChunkStart(f + 1) && i < |posts|
    ensures Placing(header, posts, chunks + [message], "" + posts[i] + "\n", i + 1, f + 1)
  {
    assert message == FullChunk(header, posts, f);
    var c := chunks + [message];
    forall j | 0 <= j < f + 1
      ensures c[j] == FullChunk(header, posts, j)
    {
      if j < f {
        assert c[j] == chunks[j];
      }
    }
    assert Lines(posts[i..i]) == "";
    LinesSnoc(posts, i, i);
  }

  /** Placing post `i` in the open chunk. */
  lemma PlaceStep(header: string, posts: seq<string>, chunks: seq<string>, message: string, i: nat, f: nat)
    requires Placing(header, posts, chunks, message, i, f) && i < ChunkStart(f + 1) && i < |posts|
    ensures Placing(header, posts, chunks, message + posts[i] + "\n", i + 1, f)
  {
    LinesSnoc(posts, ChunkStart(f), i);
  }

  /** `_split_message_in_groups_of_four` as written: the `post is
      new_posts[-1]` test fires when the 1-based index is `|posts|` (the
      URLs are distinct string objects, so identity is position). */
  method SplitInGroupsOfFourAsWritten(header: string, tail: string, posts: seq<string>)
    returns (chunks: seq<string>)
    ensures chunks == GroupChunks(header, tail, posts, KeptAsWritten(|posts|))
  {
    var k := KeptAsWritten(|posts|);
    chunks := [];
    var message := header;
    var i := 0;
    ghost var f := 0;
    while i < |posts|
      invariant i <= k
      invariant Placing(header, posts, chunks, message, i, f)
    {
      FlushPoint(f, i);
      var index := i + 1;
      if index % 4 == 0 {
        if index == |posts| {
          break;
        }
        FlushStep(header, posts, chunks, message, i, f);
        chunks := chunks + [message];
        f := f + 1;
        message := "";
      } else {
        PlaceStep(header, posts, chunks, message, i, f);
      }
      message := message + posts[i] + "\n";
      i := i + 1;
    }
    assert i == k;
    FlushCount(f, k);
    CloseChunks(header, tail, posts, k, chunks, message);
    chunks := chunks + [message + tail];
  }

  /** The same loop without the `break`: every post is emitted. */
  method SplitInGroupsOfFour(header: string, tail: string, posts: seq<string>)
    returns (chunks: seq<string>)
    ensures chunks == GroupChunks(header, tail, posts, |posts|)
  {
    chunks := [];
    var message := header;
    var i := 0;
    ghost var f := 0;
    while i < |posts|
      invariant Placing(header, posts, chunks, message, i, f)
    {
      FlushPoint(f, i);
      var index := i + 1;
      if index % 4 == 0 {
        FlushStep(header, posts, chunks, message, i, f);
        chunks := chunks + [message];
        f := f + 1;
        message := "";
      } else {
        PlaceStep(header, posts, chunks, message, i, f);
      }
      message := message + posts[i] + "\n";
      i := i + 1;
    }
    FlushCount(f, |posts|);
    CloseChunks(header, tail, posts, |posts|, chunks, message);
    chunks := chunks + [message + tail];
  }

  lemma {:induction false} GroupPrefixConcat(header: string, tail: string, posts: seq<string>, k: nat, m: nat)
    requires k <= |posts| && m <= k / 4
    ensures Concat(GroupChunks(header, tail, posts, k)[..m]) ==
            (if m == 0 then "" else header + Lines(posts[..ChunkStart(m)]))
  {
    var r := GroupChunks(header, tail, posts, k);
    if m > 0 {
      GroupPrefixConcat(header, tail, posts, k, m - 1);
      assert r[..m] == r[..m - 1] + [r[m - 1]];
      ConcatSnoc(r[..m - 1], r[m - 1]);
      if m - 1 == 0 {
        assert r[..0] == [];
        assert posts[..ChunkStart(1)] == posts[0..ChunkStart(1)];
      } else {
        LinesSplit(posts, 0, ChunkStart(m - 1), ChunkStart(m));
        assert posts[..ChunkStart(m)] == posts[0..ChunkStart(m)];
        assert posts[..ChunkStart(m - 1)] == posts[0..ChunkStart(m - 1)];
      }
    }
  }

  /** Read one after another, the chunks are the header, one line per
      emitted post in order, and the tail. */
  lemma GroupChunksConcat(header: string, tail: string, posts: seq<string>, k: nat)
    requires k <= |posts|
    ensures Concat(GroupChunks(header, tail, posts, k)) == header + Lines(posts[..k]) + tail
  {
    var r := GroupChunks(header, tail, posts, k);
    var m := k / 4;
    GroupPrefixConcat(header, tail, posts, k, m);
    assert r == r[..m] + [r[m]];
    ConcatSnoc(r[..m], r[m]);
    if m == 0 {
      assert r[..0] == [];
    } else {
      LinesSplit(posts, 0, ChunkStart(m), k);
      assert posts[..ChunkStart(m)] == posts[0..ChunkStart(m)];
    }
    assert posts[..k] == posts[0..k];
  }

  /** The first chunk opens with the header, the last closes with the tail,
      and no chunk holds more than four posts (the first at most three). */
  lemma GroupChunksShape(header: string, tail: string, posts: seq<string>, k: nat)
    requires k <= |posts|
    ensures var r := GroupChunks(header, tail, posts, k);
      && StartsWith(r[0], header)
      && EndsWith(r[|r| - 1], tail)
      && (forall j :: 0 < j < k / 4 ==> ChunkStart(j + 1) - ChunkStart(j) == 4)
      && (0 < k / 4 ==> ChunkStart(1) == 3)
      && ChunkStart(k / 4) <= k && k - ChunkStart(k / 4) <= 4
  {
    var r := GroupChunks(header, tail, posts, k);
    assert r[0] == header + (r[0][|header|..]);
  }

  /** The corrected chunker emits every post. */
  lemma SplitInGroupsOfFourKeepsAll(header: string, tail: string, posts: seq<string>)
    ensures Concat(GroupChunks(header, tail, posts, |posts|)) == header + Lines(posts) + tail
  {
    GroupChunksConcat(header, tail, posts, |posts|);
    assert posts[..|posts|] == posts;
  }

  /** The loop as written emits all posts except that, for a positive
      multiple of four, the last one is missing from every chunk. */
  lemma AsWrittenDropsLastOfMultipleOfFour(header: string, tail: string, posts: seq<string>)
    ensures var n := |posts|;
      Concat(GroupChunks(header, tail, posts, KeptAsWritten(n))) ==
      header + Lines(if n > 0 && n % 4 == 0 then posts[..n - 1] else posts) + tail
  {
    GroupChunksConcat(header, tail, posts, KeptAsWritten(|posts|));
    assert posts[..|posts|] == posts;
  }

  /** Four new posts: as written, one message goes out and the fourth URL
      is in none; without the `break` it opens a second message. */
  lemma FourPostsExample()
    ensures GroupChunks("H\n", "T", ["a", "b", "c", "d"], KeptAsWritten(4)) == ["H\na\nb\nc\nT"]
    ensures GroupChunks("H\n", "T", ["a", "b", "c", "d"], 4) == ["H\na\nb\nc\n", "d\nT"]
  {
    var posts := ["a", "b", "c", "d"];
    assert KeptAsWritten(4) == 3;
    assert posts[0..3] == ["a", "b", "c"];
    assert posts[3..4] == ["d"];
    assert Lines(["c"]) == "c\n";
    assert Lines(["b", "c"]) == "b\n" + Lines(["c"]);
    assert Lines(["a", "b", "c"]) == "a\n" + Lines(["b", "c"]);
    assert Lines(["d"]) == "d\n";
    assert Lines(["a", "b", "c"]) == "a\nb\nc\n";
    assert "H\n" + "a\nb\nc\n" + "T" == "H\na\nb\nc\nT";
    var r := GroupChunks("H\n", "T", posts, 3);
    assert r[0] == Chunk("H\n", "T", posts, 3, 0) == "H\n" + Lines(posts[0..3]) + "T";
    var c := GroupChunks("H\n", "T", posts, 4);
    assert c[0] == Chunk("H\n", "T", posts, 4, 0) == FullChunk("H\n", posts, 0) == "H\n" + Lines(posts[0..3]);
    assert c[1] == Chunk("H\n", "T", posts, 4, 1) == "" + Lines(posts[3..4]) + "T";
    assert "H\n" + "a\nb\nc\n" == "H\na\nb\nc\n";
    assert "" + "d\n" + "T" == "d\nT";
    assert |c| == 2;
  }

  // ---------------------------------------------------------------------
  // 2000-character budget

  /** The chunks `_reduce_message_spam` produces from the message being
      built `cur` and the posts still to place. */
  function Reduce(cur: string, posts: seq<string>): (r: seq<string>)
    ensures |r| >= 1
    decreases |posts|
  {
    if posts == [] then [cur]
    else
      var line := posts[0] + "\n";
      if |cur + line| > MessageBudget then [cur] + Reduce(line, posts[1..])
      else Reduce(cur + line, posts[1..])
  }

  /** `_reduce_message_spam(sub, new_posts)` with its header. */
  method ReduceMessageSpam(header: string, posts: seq<string>) returns (chunks: seq<string>)
    ensures chunks == Reduce(header, posts)
  {
    chunks := [];
    var message := header;
    var i := 0;
    while i < |posts|
      invariant i <= |posts|
      invariant chunks + Reduce(message, posts[i..]) == Reduce(header, posts)
    {
      var line := posts[i] + "\n";
      assert posts[i..][0] == posts[i] && posts[i..][1..] == posts[i + 1..];
      assert message + posts[i] + "\n" == message + line;
      if |message + line| > MessageBudget {
        assert Reduce(message, posts[i..]) == [message] + Reduce(line, posts[i + 1..]);
        assert chunks + Reduce(message, posts[i..]) == (chunks + [message]) + Reduce(line, posts[i + 1..]);
        chunks := chunks + [message];
        message := line;
      } else {
        assert Reduce(message, posts[i..]) == Reduce(message + line, posts[i + 1..]);
        message := message + line;
      }
      i := i + 1;
    }
    assert posts[i..] == [];
    chunks := chunks + [message];
  }

  /** Read one after another, the chunks are the header and one line per
      post, in order: nothing is dropped or reordered. */
  lemma {:induction false} ReduceConcat(cur: string, posts: seq<string>)
    ensures Concat(Reduce(cur, posts)) == cur + Lines(posts)
    decreases |posts|
  {
    if posts == [] {
      assert Concat([cur]) == cur + Concat([]);
    } else {
      var line := posts[0] + "\n";
      var rest := posts[1..];
      assert Lines(posts) == line + Lines(rest);
      if |cur + line| > MessageBudget {
        ReduceConcat(line, rest);
        ConcatAppend([cur], Reduce(line, rest));
        assert Concat([cur]) == cur + Concat([]);
        calc {
          Concat(Reduce(cur, posts));
          Concat([cur] + Reduce(line, rest));
          cur + Concat(Reduce(line, rest));
          cur + (line + Lines(rest));
        }
      } else {
        ReduceConcat(cur + line, rest);
        calc {
          Concat(Reduce(cur, posts));
          Concat(Reduce(cur + line, rest));
          (cur + line) + Lines(rest);
          cur + (line + Lines(rest));
        }
      }
    }
  }

  lemma {:induction false} ReduceFirstStartsWith(cur: string, posts: seq<string>)
    ensures StartsWith(Reduce(cur, posts)[0], cur)
    decreases |posts|
  {
    if posts != [] {
      var line := posts[0] + "\n";
      if |cur + line| <= MessageBudget {
        ReduceFirstStartsWith(cur + line, posts[1..]);
        assert (cur + line)[..|cur|] == cur;
      }
    }
  }

  /** Chunk `j` of `r` opens with the line of some post that does not fit
      after chunk `j - 1`. */
  predicate OpensWithOverflow(r: seq<string>, posts: seq<string>, j: nat)
    requires 0 < j < |r|
  {
    exists k :: 0 <= k < |posts| && StartsWith(r[j], posts[k] + "\n") &&
                |r[j - 1]| + |posts[k] + "\n"| > MessageBudget
  }

  /** A new chunk starts only when the next post line would push the
      current chunk past the budget: every chunk after the first opens
      with a post line that did not fit after the chunk before it. */
  lemma {:induction false} ReduceSplitsOnlyWhenFull(cur: string, posts: seq<string>)
    decreases |posts|
    ensures forall j :: 0 < j < |Reduce(cur, posts)| ==> OpensWithOverflow(Reduce(cur, posts), posts, j)
  {
    if posts != [] {
      var line := posts[0] + "\n";
      var rest := posts[1..];
      var r := Reduce(cur, posts);
      if |cur + line| > MessageBudget {
        ReduceSplitsOnlyWhenFull(line, rest);
        ReduceFirstStartsWith(line, rest);
        var q := Reduce(line, rest);
        assert r == [cur] + q;
        forall j | 0 < j < |r|
          ensures OpensWithOverflow(r, posts, j)
        {
          if j == 1 {
            assert StartsWith(r[1], posts[0] + "\n") && r[0] == cur;
          } else {
            assert r[j] == q[j - 1] && r[j - 1] == q[j - 2];
            assert OpensWithOverflow(q, rest, j - 1);
            var k :| 0 <= k < |rest| && StartsWith(q[j - 1], rest[k] + "\n") &&
                     |q[j - 2]| + |rest[k] + "\n"| > MessageBudget;
            assert rest[k] == posts[k + 1];
          }
        }
      } else {
        ReduceSplitsOnlyWhenFull(cur + line, rest);
        var q := Reduce(cur + line, rest);
        assert r == q;
        forall j | 0 < j < |r|
          ensures OpensWithOverflow(r, posts, j)
        {
          assert OpensWithOverflow(q, rest, j);
          var k :| 0 <= k < |rest| && StartsWith(q[j], rest[k] + "\n") &&
                   |q[j - 1]| + |rest[k] + "\n"| > MessageBudget;
          assert rest[k] == posts[k + 1];
        }
      }
    }
  }

  /** The budget holds for every chunk except an over-long header left on
      its own and an over-long single post line. */
  lemma {:induction false} ReduceWithinBudget(cur: string, posts: seq<string>)
    ensures var r := Reduce(cur, posts);
      && (|r[0]| <= MessageBudget || r[0] == cur)
      && forall j :: 0 < j < |r| ==>
           |r[j]| <= MessageBudget || exists k :: 0 <= k < |posts| && r[j] == posts[k] + "\n"
    decreases |posts|
  {
    if posts != [] {
      var line := posts[0] + "\n";
      var rest := posts[1..];
      var r := Reduce(cur, posts);
      if |cur + line| > MessageBudget {
        ReduceWithinBudget(line, rest);
        var q := Reduce(line, rest);
        assert r == [cur] + q;
        forall j | 0 < j < |r|
          ensures |r[j]| <= MessageBudget || exists k :: 0 <= k < |posts| && r[j] == posts[k] + "\n"
        {
          if j == 1 {
            if |r[1]| > MessageBudget {
              assert r[1] == posts[0] + "\n";
            }
          } else if |r[j]| > MessageBudget {
            assert 0 < j - 1 < |q| && q[j - 1] == r[j];
            var k :| 0 <= k < |rest| && q[j - 1] == rest[k] + "\n";
            assert rest[k] == posts[k + 1];
          }
        }
      } else {
        ReduceWithinBudget(cur + line, rest);
        var q := Reduce(cur + line, rest);
        forall j | 0 < j < |r|
          ensures |r[j]| <= MessageBudget || exists k :: 0 <= k < |posts| && r[j] == posts[k] + "\n"
        {
          if |r[j]| > MessageBudget {
            assert r == q;
            var k :| 0 <= k < |rest| && q[j] == rest[k] + "\n";
            assert rest[k] == posts[k + 1];
          }
        }
      }
    }
  }
}
