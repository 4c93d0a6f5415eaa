/** The small string builders of the danbooru cog: absolute file URLs, the
    blacklist appended to a search, and the reply to `dan`/`danr`. */
module DanHelper {
  import opened Strings
  import opened DanTypes

  /** `Helper.build_url(base_url, file_url)`. A relative URL that does not
      start with "http" is indexed at position 0, so it must not be empty. */
  function BuildUrl(baseUrl: string, fileUrl: string): (r: string)
    requires StartsWith(fileUrl, "http") || |fileUrl| > 0
    ensures StartsWith(fileUrl, "http") ==> r == fileUrl
    ensures !StartsWith(fileUrl, "http") ==>
      && StartsWith(r, baseUrl) && |r| > |baseUrl| && r[|baseUrl|] == '/'
      && EndsWith(r, fileUrl)
      && |r| == |baseUrl| + |fileUrl| + (if fileUrl[0] == '/' then 0 else 1)
  {
    if StartsWith(fileUrl, "http") then fileUrl
    else
      var path := if fileUrl[0] != '/' then "/" + fileUrl else fileUrl;
      assert EndsWith(path, fileUrl);
      var r := baseUrl + path;
      assert r[|baseUrl|..] == path;
      assert r[|r| - |fileUrl|..] == path[|path| - |fileUrl|..];
      r
  }

  /** With an absolute base, building again changes nothing: a URL the
      helper produced already starts with "http". */
  lemma BuildUrlIdempotent(baseUrl: string, fileUrl: string)
    requires StartsWith(baseUrl, "http")
    requires StartsWith(fileUrl, "http") || |fileUrl| > 0
    ensures BuildUrl(baseUrl, BuildUrl(baseUrl, fileUrl)) == BuildUrl(baseUrl, fileUrl)
  {
    var r := BuildUrl(baseUrl, fileUrl);
    if !StartsWith(fileUrl, "http") {
      assert r[..|baseUrl|] == baseUrl;
      assert r[..4] == baseUrl[..4];
    }
  }

  /** One ` -tag` term per blacklisted tag, in blacklist order. */
  function NegatedTerms(blacklist: seq<string>): string
  {
    if blacklist == [] then "" else " -" + blacklist[0] + NegatedTerms(blacklist[1..])
  }

  /** `_add_blacklist_to_tags(tags)` */
  function AddBlacklistToTags(tags: string, blacklist: seq<string>): string
  {
    if blacklist != [] then tags + (" -" + Join(" -", blacklist)) else tags
  }

  lemma {:induction false} JoinNegated(blacklist: seq<string>)
    requires blacklist != []
    ensures " -" + Join(" -", blacklist) == NegatedTerms(blacklist)
  {
    if |blacklist| > 1 {
      JoinNegated(blacklist[1..]);
      calc {
        " -" + Join(" -", blacklist);
        " -" + (blacklist[0] + " -" + Join(" -", blacklist[1..]));
        " -" + blacklist[0] + (" -" + Join(" -", blacklist[1..]));
      }
    } else {
      assert blacklist[1..] == [];
    }
  }

  /** The search keeps the user's tags and excludes each blacklisted tag
      with its own ` -tag` term; an empty blacklist leaves it unchanged. */
  lemma AddBlacklistSpec(tags: string, blacklist: seq<string>)
    ensures AddBlacklistToTags(tags, blacklist) == tags + NegatedTerms(blacklist)
  {
    if blacklist != [] {
      JoinNegated(blacklist);
    }
  }

  /** The link `build_message` shows: the post page for translated posts,
      otherwise the file itself. */
  function PostLink(post: Post): string
  {
    if Contains(post.tagStringMeta, "translated")
    then DanbooruBase + "/posts/" + ShowNat(post.id)
    else post.fileUrl
  }

  /** `build_message(image, channel, message)` for the first result. */
  function BuildMessage(post: Post, channelId: nat, messageChannelId: nat, authorMention: string): string
  {
    var link := PostLink(post);
    var shown := if Contains(post.tagStringMeta, "spoilers")
                 then "`(" + post.tagStringCopyright + ")`|| " + link + " ||"
                 else link;
    if channelId != messageChannelId then shown + "\n" + authorMention else shown
  }

  /** The message always carries the link; a spoiler is wrapped in
      `|| ... ||` after the copyright; a reply posted in another channel
      ends with the author's mention; otherwise it is the bare link. */
  lemma BuildMessageSpec(post: Post, channelId: nat, messageChannelId: nat, authorMention: string)
    ensures var m := BuildMessage(post, channelId, messageChannelId, authorMention);
      && Contains(m, PostLink(post))
      && (Contains(post.tagStringMeta, "spoilers") ==>
            StartsWith(m, "`(" + post.tagStringCopyright + ")`|| "))
      && (channelId != messageChannelId ==> EndsWith(m, "\n" + authorMention))
      && (!Contains(post.tagStringMeta, "spoilers") && channelId == messageChannelId ==>
            m == PostLink(post))
  {
    var link := PostLink(post);
    var m := BuildMessage(post, channelId, messageChannelId, authorMention);
    var pre := if Contains(post.tagStringMeta, "spoilers")
               then "`(" + post.tagStringCopyright + ")`|| " else "";
    var post' := if Contains(post.tagStringMeta, "spoilers") then " ||" else "";
    var suf := if channelId != messageChannelId then "\n" + authorMention else "";
    assert m == pre + link + (post' + suf);
    ContainsAffix(pre, link, post' + suf);
    assert m[..|pre|] == pre;
    assert m[|m| - |suf|..] == suf;
  }
}
