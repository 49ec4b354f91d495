/** `Vk2rss` of Vk2rss.php: the request for a wall of vk.com and the RSS feed built
    from the decoded answer. The HTTP request itself, JSON decoding and the feed
    writer's XML output are outside the model: the decoded answer is an input and the
    feed is returned as a value. */
module Vk2rssFeed {
  import opened Wrappers
  import opened Strings
  import opened Php

  // ---------------------------------------------------------------------------
  // The decoded wall

  /** An attachment of a post, by its `type`; any type other than the five handled
      ones is `Other`. */
  datatype Attachment =
    | Photo(srcBig: string)
    | Audio(performer: string, title: string)
    | Doc(url: string, title: string)
    | Link(url: string, title: string)
    | Video(ownerId: int, vid: int, imageBig: string)
    | Other(kind: string)

  /** A post of the wall; `attachments` is absent when the post has none. */
  datatype Post = Post(id: int, date: int, text: string, attachments: Option<seq<Attachment>>)

  /** An element of `response`: the API puts the total number of posts first and the
      posts after it. */
  datatype WallElement = Total(count: int) | Entry(post: Post)

  /** Every element after the first is a post. */
  predicate WellFormedWall(response: seq<WallElement>)
  {
    forall i :: 1 <= i < |response| ==> response[i].Entry?
  }

  // ---------------------------------------------------------------------------
  // The feed

  datatype FeedItem = FeedItem(link: string, date: int, description: string, guid: int)

  datatype Feed = Feed(title: string, link: string, description: string, language: string, items: seq<FeedItem>)

  /** The HTML one attachment adds to the description of post `postId`. The audio link
      interpolates `$owner_id`, a local variable `generateRSS` never assigns, which PHP
      renders as `''`. */
  function Fragment(a: Attachment, postId: int): string
  {
    match a
    case Photo(src) => "<br><img src='" + src + "'/>"
    case Audio(performer, title) =>
      "<br><a href='http://vk.com/wall_" + IntToDecimal(postId) + "'>" + performer + " &ndash; " + title + "</a>"
    case Doc(url, title) => "<br><a href='" + url + "'>" + title + "</a>"
    case Link(url, title) => "<br><a href='" + url + "'>" + title + "</a>"
    case Video(ownerId, vid, image) =>
      "<br><a href='http://vk.com/video" + IntToDecimal(ownerId) + "_" + IntToDecimal(vid) + "'><img src='" + image + "'/></a>"
    case Other(_) => ""
  }

  /** The fragment of each attachment of `atts`, in order. */
  function FragmentList(atts: seq<Attachment>, postId: int): (r: seq<string>)
    ensures |r| == |atts|
  {
    seq(|atts|, k requires 0 <= k < |atts| => Fragment(atts[k], postId))
  }

  /** The fragments of `atts`, one after the other. */
  function Fragments(atts: seq<Attachment>, postId: int): string
  {
    Concat(FragmentList(atts, postId))
  }

  /** The description of a post: its text followed by the fragments of its attachments. */
  function Description(post: Post): string
  {
    post.text + (if post.attachments.Some? then Fragments(post.attachments.value, post.id) else "")
  }

  /** The link of a post's item; as with the audio link, the owner part is `''`. */
  function ItemLink(postId: int): string
  {
    "http://vk.com/wall_" + IntToDecimal(postId)
  }

  /** The item of one post. */
  function ItemFor(post: Post): FeedItem
  {
    FeedItem(ItemLink(post.id), post.date, Description(post), post.id)
  }

  /** The item of every element after the first, in order. */
  function Items(response: seq<WallElement>): (items: seq<FeedItem>)
    requires WellFormedWall(response)
    ensures |items| == if |response| <= 1 then 0 else |response| - 1
  {
    if |response| <= 1 then [] else seq(|response| - 1, k requires 0 <= k < |response| - 1 => ItemFor(response[k + 1].post))
  }

  /** What the wall is named by: the domain when it is not empty, the owner id otherwise. */
  function WallName(domain: PhpValue, ownerId: PhpValue): string
  {
    if !Empty(domain) then ToString(domain) else ToString(ownerId)
  }

  /** The whole feed for a wall named by `domain` or `ownerId`. */
  function FeedFor(domain: PhpValue, ownerId: PhpValue, response: seq<WallElement>): Feed
    requires WellFormedWall(response)
  {
    var name := WallName(domain, ownerId);
    Feed("vk.com/" + name, "http://vk.com/" + name, "wall from vk.com/" + name, "ru-ru", Items(response))
  }

  /** The selection of the wall in the query: `domain=` when the domain is not empty,
      else `owner_id=` when the owner id is not empty, else nothing. */
  function WallSelector(domain: PhpValue, ownerId: PhpValue): string
  {
    if !Empty(domain) then "domain=" + ToString(domain)
    else if !Empty(ownerId) then "owner_id=" + ToString(ownerId)
    else ""
  }

  // ---------------------------------------------------------------------------
  // Properties of the descriptions

  /** Fragments of a concatenation are the concatenation of the fragments. */
  lemma FragmentsAppend(a: seq<Attachment>, b: seq<Attachment>, postId: int)
    ensures Fragments(a + b, postId) == Fragments(a, postId) + Fragments(b, postId)
  {
    assert FragmentList(a + b, postId) == FragmentList(a, postId) + FragmentList(b, postId);
    ConcatAppend(FragmentList(a, postId), FragmentList(b, postId));
  }

  /** Each of the five handled attachment types adds a fragment that begins with
      `<br>`; any other type adds nothing. */
  lemma FragmentShape(a: Attachment, postId: int)
    ensures !a.Other? ==> |Fragment(a, postId)| > 4 && Fragment(a, postId)[..4] == "<br>"
    ensures a.Other? ==> Fragment(a, postId) == ""
  {
  }

  /** Adding one attachment at the end appends exactly its fragment to the description. */
  lemma DescriptionAppend(post: Post, a: Attachment)
    requires post.attachments.Some?
    ensures Description(post.(attachments := Some(post.attachments.value + [a])))
      == Description(post) + Fragment(a, post.id)
  {
    var atts := post.attachments.value;
    var f := Fragment(a, post.id);
    assert Fragments(atts + [a], post.id) == Fragments(atts, post.id) + f by {
      FragmentsAppend(atts, [a], post.id);
      assert Fragments([a], post.id) == f by {
        assert FragmentList([a], post.id) == [f];
        assert [f][..0] == [];
        assert Concat([f]) == Concat([]) + f;
      }
    }
  }

  /** A post without attachments is described by its text alone. */
  lemma DescriptionWithoutAttachments(post: Post)
    requires post.attachments.None? || post.attachments == Some([])
    ensures Description(post) == post.text
  {
  }

  /** Attachments of an unhandled type leave the description as if they were absent. */
  lemma OtherAttachmentIgnored(a: seq<Attachment>, kind: string, b: seq<Attachment>, postId: int)
    ensures Fragments(a + [Other(kind)] + b, postId) == Fragments(a + b, postId)
  {
    FragmentsAppend(a + [Other(kind)], b, postId);
    FragmentsAppend(a, [Other(kind)], postId);
    FragmentsAppend(a, b, postId);
    assert FragmentList([Other(kind)], postId) == [""];
    assert [""][..0] == [];
    assert Concat([""]) == Concat([]) + "";
  }

  /** The description always begins with the text of the post. */
  lemma DescriptionStartsWithText(post: Post)
    ensures |Description(post)| >= |post.text|
    ensures Description(post)[..|post.text|] == post.text
  {
  }

  // ---------------------------------------------------------------------------
  // Properties of the feed and the request

  /** One item per element after the first, for that element's post, in order; the
      first element never becomes an item. */
  lemma ItemsOfWall(response: seq<WallElement>, first: WallElement)
    requires WellFormedWall(response) && response != []
    ensures |Items(response)| == |response| - 1
    ensures forall k :: 0 <= k < |response| - 1 ==>
      Items(response)[k] == ItemFor(response[k + 1].post)
    ensures WellFormedWall([first] + response[1..]) && Items([first] + response[1..]) == Items(response)
  {
    var other := [first] + response[1..];
    assert forall i :: 1 <= i < |response| ==> other[i] == response[i];
  }

  /** The feed names the domain when it is given, the owner id otherwise. */
  lemma FeedNamesWall(domain: PhpValue, ownerId: PhpValue, response: seq<WallElement>)
    requires WellFormedWall(response)
    ensures var feed := FeedFor(domain, ownerId, response);
      var name := if !Empty(domain) then ToString(domain) else ToString(ownerId);
      && feed.title == "vk.com/" + name
      && feed.link == "http://vk.com/" + name
      && feed.description == "wall from vk.com/" + name
      && feed.language == "ru-ru"
  {
  }

  /** A non-empty domain selects the wall whatever the owner id, and nothing selects it
      when both are empty. */
  lemma DomainWins(domain: PhpValue, ownerId: PhpValue, otherOwnerId: PhpValue)
    ensures !Empty(domain) ==>
      WallSelector(domain, ownerId) == WallSelector(domain, otherOwnerId) == "domain=" + ToString(domain)
    ensures Empty(domain) && !Empty(ownerId) ==> WallSelector(domain, ownerId) == "owner_id=" + ToString(ownerId)
    ensures Empty(domain) && Empty(ownerId) ==> WallSelector(domain, ownerId) == ""
  {
  }

  // ---------------------------------------------------------------------------
  // The object

  /** A wall to turn into RSS: the API method URL, the wall's owner id or domain, and
      the number of posts to ask for. */
  class Vk2rss {
    var url: string
    var ownerId: PhpValue
    var domain: PhpValue
    var count: PhpValue

    /** The property defaults: the `wall.get` method, no wall chosen, ten posts. */
    constructor ()
      ensures url == "http://api.vk.com/method/wall.get"
      ensures ownerId == Null && domain == Null && count == Int(10)
    {
      url := "http://api.vk.com/method/wall.get";
      ownerId := Null;
      domain := Null;
      count := Int(10);
    }

    /** The URL `getContent` requests: the method URL, the wall selection and the count. */
    method RequestUrl() returns (requestUrl: string)
      ensures requestUrl == url + "?" + WallSelector(domain, ownerId) + "&count=" + ToString(count)
    {
      requestUrl := url + "?";
      if !Empty(domain) {
        requestUrl := requestUrl + ("domain=" + ToString(domain));
      } else if !Empty(ownerId) {
        requestUrl := requestUrl + ("owner_id=" + ToString(ownerId));
      }
      requestUrl := requestUrl + ("&count=" + ToString(count));
    }

    /** `generateRSS` on the decoded `response` of the request: the channel elements
        and one item per post, in the order of the posts. */
    method GenerateRss(response: seq<WallElement>) returns (feed: Feed)
      requires WellFormedWall(response)
      ensures feed == FeedFor(domain, ownerId, response)
    {
      var title := if !Empty(domain) then domain else ownerId;
      feed := Feed("vk.com/" + ToString(title), "http://vk.com/" + ToString(title),
                   "wall from vk.com/" + ToString(title), "ru-ru", []);
      var i := 1;
      while i <= |response| - 1
        invariant 1 <= i <= if |response| <= 1 then 1 else |response|
        invariant feed.items == Items(response)[..i - 1]
        invariant feed.(items := []) == FeedFor(domain, ownerId, response).(items := [])
      {
        var post := response[i].post;
        var description := DescribePost(post);
        var item := FeedItem(ItemLink(post.id), post.date, description, post.id);
        assert item == Items(response)[i - 1];
        assert Items(response)[..i] == Items(response)[..i - 1] + [item];
        feed := feed.(items := feed.items + [item]);
        i := i + 1;
      }
      assert feed.items == Items(response);
    }

    /** The description of one item: the post's text, then one fragment per
        attachment, appended in the order of the attachments. */
    static method DescribePost(post: Post) returns (description: string)
      ensures description == Description(post)
    {
      description := post.text;
      if post.attachments.Some? {
        var atts := post.attachments.value;
        var j := 0;
        while j < |atts|
          invariant 0 <= j <= |atts|
          invariant description == post.text + Fragments(atts[..j], post.id)
        {
          assert FragmentList(atts[..j + 1], post.id)[..j] == FragmentList(atts[..j], post.id);
          description := description + Fragment(atts[j], post.id);
          j := j + 1;
        }
        assert atts[..j] == atts;
      }
    }
  }
}
