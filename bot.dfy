/** The bot itself: for each recent Stacker News post it skips posts it has handled
    before, looks for YouTube links, comments with privacy-friendly alternatives,
    announces the find on Nostr, and remembers the post. The Stacker News client is not
    modelled; what its requests gave back (the fetched posts, whether a comment went
    through) arrives as input. */
module Bot {
  import opened Util
  import YouTube
  import State
  import Nostr

  /** A fetched post. Title, text and url may be null. */
  datatype Post = Post(id: string, title: Option<string>, text: Option<string>, url: Option<string>)

  /** How a template literal renders a field that may be null. */
  function JsText(s: Option<string>): string
  {
    if s.Some? then s.value else "null"
  }

  /** `post.text || post.url`: the text, unless it is null or empty. */
  function BodyOf(post: Post): Option<string>
  {
    if post.text.Some? && post.text.value != "" then post.text else post.url
  }

  /** The links the detector finds in a post. */
  function PostLinks(post: Post): seq<YouTube.LinkInfo>
  {
    YouTube.Extract(JsText(post.title), JsText(BodyOf(post)))
  }

  /** The plural ending used for a link count. */
  function Plural(n: nat): string
  {
    if n > 1 then "s" else ""
  }

  // The comment
  //
  // Each fixed text is the source's literal written as a concatenation of short pieces,
  // and each piece has a one-line lemma below saying it holds no line break. The verifier
  // checks such character facts cheaply on a short literal and very slowly on a long one.

  const HeaderStart := "\U{1F916} **Privacy-Friendly"
  const HeaderWord := " YouTube Alternative"

  function CommentHeader(n: nat): string
  {
    HeaderStart + HeaderWord + Plural(n) + "**"
  }

  const AltPrefix := "\U{1F512} Privacy-friendly" + " alternative: "

  const FooterCredit := "*Powered by [YewTuBot]" + "(https://github.com/YewTuBot)"
  const FooterMotto := " - Protecting your privacy," + " one link at a time* \U{1F6E1}\U{FE0F}"
  const Footer := FooterCredit + FooterMotto

  /** One line per link, in order, each with the link's yewtu.be address. */
  function Alternatives(links: seq<YouTube.LinkInfo>): (r: seq<string>)
    ensures |r| == |links|
  {
    seq(|links|, k requires 0 <= k < |links| => AltPrefix + YouTube.ConvertToYewTube(links[k]))
  }

  /** `generateComment`. */
  function GenerateComment(links: seq<YouTube.LinkInfo>): string
  {
    CommentHeader(|links|) + "\n\n" + (Join(Alternatives(links), "\n\n") + "\n\n" + Footer)
  }

  lemma HeaderOneLine(n: nat)
    ensures '\n' !in CommentHeader(n)
  {
  }

  lemma AltPrefixOneLine()
    ensures '\n' !in AltPrefix
  {
  }

  lemma FooterCreditOneLine()
    ensures '\n' !in FooterCredit
  {
  }

  lemma FooterMottoOneLine()
    ensures '\n' !in FooterMotto
  {
  }

  /** The header says "Alternatives" exactly when there are several links. */
  lemma CommentHeaderPlural(n: nat)
    ensures |CommentHeader(n)| == |CommentHeader(1)| + (if n > 1 then 1 else 0)
    ensures CommentHeader(n)[|CommentHeader(n)| - 3] == 's' <==> n > 1
  {
    assert HeaderWord[|HeaderWord| - 1] == 'e';
  }

  /** A record with a valid id is rewritten to a one-line address. */
  lemma ConvertedIsOneLine(link: YouTube.LinkInfo)
    requires YouTube.IsValidVideoId(link.videoId)
    ensures '\n' !in YouTube.ConvertToYewTube(link)
  {
    var r := YouTube.ConvertToYewTube(link);
    assert r == "https://yewtu.be/watch?v=" + link.videoId;
    forall k | 0 <= k < |link.videoId| ensures link.videoId[k] != '\n' {
      assert YouTube.IsIdChar(link.videoId[k]);
    }
  }

  /** The comment's paragraphs: the header, one alternative per link, the footer. */
  function CommentParts(links: seq<YouTube.LinkInfo>): seq<string>
  {
    [CommentHeader(|links|)] + Alternatives(links) + [Footer]
  }

  /** The header, the joined alternatives and the footer make one join of all paragraphs. */
  lemma CommentIsJoin(links: seq<YouTube.LinkInfo>)
    requires |links| >= 1
    ensures GenerateComment(links) == Join(CommentParts(links), "\n\n")
  {
    var alts := Alternatives(links);
    JoinSnoc(alts, Footer, "\n\n");
    JoinCons(CommentHeader(|links|), alts + [Footer], "\n\n");
    assert [CommentHeader(|links|)] + (alts + [Footer]) == CommentParts(links);
  }

  /** No paragraph of the comment spans two lines. */
  lemma CommentPartsOneLine(links: seq<YouTube.LinkInfo>)
    requires forall k :: 0 <= k < |links| ==> YouTube.IsValidVideoId(links[k].videoId)
    ensures forall k :: 0 <= k < |CommentParts(links)| ==> '\n' !in CommentParts(links)[k]
  {
    var alts := Alternatives(links);
    var parts := CommentParts(links);
    HeaderOneLine(|links|);
    AltPrefixOneLine();
    FooterCreditOneLine();
    FooterMottoOneLine();
    forall k | 0 <= k < |parts| ensures '\n' !in parts[k] {
      if 0 < k <= |alts| {
        ConvertedIsOneLine(links[k - 1]);
        assert parts[k] == alts[k - 1] == AltPrefix + YouTube.ConvertToYewTube(links[k - 1]);
      }
    }
  }

  /** The comment is the header, one alternative per link, and the footer, as
      blank-line separated blocks. */
  lemma CommentLayout(links: seq<YouTube.LinkInfo>)
    requires |links| >= 1
    requires forall k :: 0 <= k < |links| ==> YouTube.IsValidVideoId(links[k].videoId)
    ensures Blocks(GenerateComment(links)) == [CommentHeader(|links|)] + Alternatives(links) + [Footer]
  {
    CommentIsJoin(links);
    CommentPartsOneLine(links);
    BlocksOfJoin(CommentParts(links));
  }

  /** A comment line offering the yewtu.be page of video `videoId`. */
  predicate PointsAt(line: string, videoId: string)
  {
    |AltPrefix| <= |line| && line[..|AltPrefix|] == AltPrefix &&
    YouTube.WatchedId(YouTube.YewTube, line[|AltPrefix|..]) == Some(videoId)
  }

  /** Alternative `k` points at link `k`'s video on yewtu.be. */
  lemma AlternativesPoint(links: seq<YouTube.LinkInfo>)
    requires forall k :: 0 <= k < |links| ==> YouTube.IsValidVideoId(links[k].videoId)
    ensures forall k :: 0 <= k < |links| ==> PointsAt(Alternatives(links)[k], links[k].videoId)
  {
    var alts := Alternatives(links);
    forall k | 0 <= k < |links| ensures PointsAt(alts[k], links[k].videoId) {
      assert alts[k] == AltPrefix + YouTube.ConvertToYewTube(links[k]);
      assert alts[k][|AltPrefix|..] == YouTube.ConvertToYewTube(links[k]);
    }
  }

  /** For links with valid ids, the comment has one block per link between the header
      and the footer, in order, and block `k + 1` points at link `k`'s video on yewtu.be. */
  /** The items between a first and a last one keep their places, shifted by one. */
  lemma Framed<T>(first: T, middle: seq<T>, last: T)
    ensures forall k :: 0 <= k < |middle| ==> ([first] + middle + [last])[k + 1] == middle[k]
  {
  }

  lemma CommentBlocks(links: seq<YouTube.LinkInfo>)
    requires |links| >= 1
    requires forall k :: 0 <= k < |links| ==> YouTube.IsValidVideoId(links[k].videoId)
    ensures var b := Blocks(GenerateComment(links));
            |b| == |links| + 2 && b[0] == CommentHeader(|links|) && b[|links| + 1] == Footer &&
            forall k :: 0 <= k < |links| ==> PointsAt(b[k + 1], links[k].videoId)
  {
    CommentLayout(links);
    AlternativesPoint(links);
    Framed(CommentHeader(|links|), Alternatives(links), Footer);
  }

  /** The same holds for the links the detector finds in any post. */
  lemma CommentForPost(post: Post)
    requires |PostLinks(post)| >= 1
    ensures var links := PostLinks(post);
            var b := Blocks(GenerateComment(links));
            |b| == |links| + 2 && b[0] == CommentHeader(|links|) && b[|links| + 1] == Footer &&
            forall k :: 0 <= k < |links| ==> PointsAt(b[k + 1], links[k].videoId)
  {
    ValidIdsInPost(post);
    CommentBlocks(PostLinks(post));
  }

  /** Every link found in a post has a valid id. */
  lemma ValidIdsInPost(post: Post)
    ensures forall k :: 0 <= k < |PostLinks(post)| ==> YouTube.IsValidVideoId(PostLinks(post)[k].videoId)
  {
    var links := PostLinks(post);
    YouTube.ExtractIdsValid(JsText(post.title), JsText(BodyOf(post)));
    forall k | 0 <= k < |links| ensures YouTube.IsValidVideoId(links[k].videoId) {
      assert links[k] in links;
    }
  }

  // The Nostr note
  //
  // As for the comment, the note's fixed texts are split into short pieces so that the
  // verifier can check each one for line breaks quickly.

  const FoundPrefix := "\U{1F3A5} Found "

  const LinkNoun := " YouTube link"
  const OnStackerNews := " on Stacker News!"

  /** What follows the count in the headline. */
  function LinkWord(n: nat): string
  {
    LinkNoun + Plural(n) + OnStackerNews
  }

  function Headline(n: nat): string
  {
    FoundPrefix + NatToString(n) + LinkWord(n)
  }

  function Quoted(title: Option<string>): string
  {
    "\"" + JsText(title) + "\""
  }

  const Teaser := "Privacy-friendly alternatives" + " available in the comments \U{1F512}"

  const ItemPrefix := "https://stacker.news/items/"
  const ReferralSuffix := "/r/YewTuBot"

  /** The post's page on Stacker News, with the bot's referral suffix. */
  function StackerNewsUrl(id: string): string
  {
    ItemPrefix + id + ReferralSuffix
  }

  /** Reads the post id back from a Stacker News referral url. */
  function ItemOfUrl(url: string): Option<string>
  {
    if |ItemPrefix| + |ReferralSuffix| <= |url| && url[..|ItemPrefix|] == ItemPrefix
       && url[|url| - |ReferralSuffix|..] == ReferralSuffix
    then Some(url[|ItemPrefix|..|url| - |ReferralSuffix|])
    else None
  }

  const Hashtags := "#videostr #privacy" + " #stackernews #yewtubot"

  /** The five paragraphs of the note `postToNostr` publishes for a post with `n` links. */
  function NoteParts(post: Post, n: nat): seq<string>
  {
    [Headline(n), Quoted(post.title), Teaser, StackerNewsUrl(post.id), Hashtags]
  }

  /** The note itself: the template literal puts a blank line between the paragraphs. */
  function NostrContent(post: Post, n: nat): string
  {
    Join(NoteParts(post, n), "\n\n")
  }

  lemma StackerNewsUrlRoundTrip(id: string)
    ensures ItemOfUrl(StackerNewsUrl(id)) == Some(id)
  {
    var url := StackerNewsUrl(id);
    assert url[..|ItemPrefix|] == ItemPrefix;
    assert url[|url| - |ReferralSuffix|..] == ReferralSuffix;
    assert url[|ItemPrefix|..|url| - |ReferralSuffix|] == id;
  }

  /** The digits at the head of `s`. */
  function LeadingDigits(s: string): (r: string)
    ensures |r| <= |s| && r == s[..|r|]
    ensures forall k :: 0 <= k < |r| ==> '0' <= r[k] <= '9'
  {
    if |s| > 0 && '0' <= s[0] <= '9' then [s[0]] + LeadingDigits(s[1..]) else []
  }

  /** A run of digits followed by a non-digit is read off whole. */
  lemma {:induction false} LeadingDigitsOf(d: string, rest: string)
    requires forall k :: 0 <= k < |d| ==> '0' <= d[k] <= '9'
    requires |rest| > 0 && !('0' <= rest[0] <= '9')
    ensures LeadingDigits(d + rest) == d
  {
    if |d| > 0 {
      assert (d + rest)[1..] == d[1..] + rest;
      LeadingDigitsOf(d[1..], rest);
      assert d == [d[0]] + d[1..];
    }
  }

  /** The headline gives the link count right after its prefix, and the count reads
      back as the number. */
  lemma HeadlineCount(n: nat)
    ensures var h := Headline(n);
            |FoundPrefix| <= |h| && DigitsValue(LeadingDigits(h[|FoundPrefix|..])) == n
  {
    var d := NatToString(n);
    var h := Headline(n);
    assert h == FoundPrefix + (d + LinkWord(n));
    assert h[|FoundPrefix|..] == d + LinkWord(n);
    assert LinkWord(n)[0] == ' ';
    LeadingDigitsOf(d, LinkWord(n));
    NatToStringRoundTrip(n);
  }

  /** The count is followed by "link", with an "s" exactly when there are several. */
  lemma HeadlinePlural(n: nat)
    ensures Headline(n)[|FoundPrefix| + |NatToString(n)|..] == LinkWord(n)
    ensures LinkWord(n)[..|LinkNoun|] == LinkNoun
    ensures LinkWord(n)[|LinkNoun|] == 's' <==> n > 1
  {
    assert Headline(n) == (FoundPrefix + NatToString(n)) + LinkWord(n);
    assert OnStackerNews[0] == ' ';
  }

  lemma HeadlineOneLine(n: nat)
    ensures '\n' !in Headline(n)
  {
    assert '\n' !in NatToString(n);
  }

  lemma TeaserOneLine()
    ensures '\n' !in Teaser
  {
  }

  lemma HashtagsOneLine()
    ensures '\n' !in Hashtags
  {
  }

  lemma UrlOneLine(id: string)
    requires '\n' !in id
    ensures '\n' !in StackerNewsUrl(id)
  {
  }

  /** The note is the headline, the quoted title, the teaser, the post's url and the
      hashtags, as blank-line separated blocks, and the post id reads back from the url. */
  lemma NoteLayout(post: Post, n: nat)
    requires '\n' !in JsText(post.title) && '\n' !in post.id
    ensures Blocks(NostrContent(post, n)) ==
              [Headline(n), Quoted(post.title), Teaser, StackerNewsUrl(post.id), Hashtags]
    ensures ItemOfUrl(Blocks(NostrContent(post, n))[3]) == Some(post.id)
  {
    HeadlineOneLine(n);
    TeaserOneLine();
    HashtagsOneLine();
    UrlOneLine(post.id);
    var parts := NoteParts(post, n);
    forall k | 0 <= k < |parts| ensures '\n' !in parts[k] {
    }
    BlocksOfJoin(parts);
    StackerNewsUrlRoundTrip(post.id);
  }

  // Per-post results and the run's counters

  datatype PostResult = PostResult(detected: bool, commented: bool, nostrPosted: bool)

  const NothingDone := PostResult(false, false, false)

  /** Each step needs the one before: nothing is announced on Nostr without a comment,
      and no comment is made without links. */
  predicate Consistent(r: PostResult)
  {
    (r.nostrPosted ==> r.commented) && (r.commented ==> r.detected)
  }

  /** What `postComment` did. */
  datatype CommentReply = Posted | NotPosted | CommentThrew

  /** What the outside world does while one post is handled: the comment request, the
      note's signing and each relay's outcome, and whether the state save succeeds. */
  datatype Replies = Replies(comment: CommentReply, signOk: bool, attempts: seq<Nostr.Attempt>, writeOk: bool)

  /** Whether `postToNostr` reports success, given the client's key and relays. */
  predicate Delivered(privateKey: Option<string>, relays: seq<string>, reply: Replies)
  {
    |reply.attempts| == |relays| &&
    privateKey.Some? && reply.signOk && Nostr.Decide(relays, reply.attempts)
  }

  /** The result of a post that was not processed before. */
  function Outcome(linkCount: nat, comment: CommentReply, delivered: bool): (r: PostResult)
    ensures Consistent(r)
    ensures r.detected <==> linkCount > 0
    ensures r.commented <==> linkCount > 0 && comment == Posted
    ensures r.nostrPosted <==> linkCount > 0 && comment == Posted && delivered
  {
    if linkCount == 0 then NothingDone
    else PostResult(true, comment == Posted, comment == Posted && delivered)
  }

  datatype Summary = Summary(processed: nat, detected: nat, commented: nat, nostrPosted: nat)

  function Count(b: bool): nat
  {
    if b then 1 else 0
  }

  /** The counters after one more result: `processedCount++`, and each other counter
      grows when its flag is set. */
  function Counted(s: Summary, r: PostResult): Summary
  {
    Summary(s.processed + 1, s.detected + Count(r.detected),
            s.commented + Count(r.commented), s.nostrPosted + Count(r.nostrPosted))
  }

  /** The four counters after the given results, counted in order. */
  function Tally(results: seq<PostResult>): (s: Summary)
    ensures s.processed == |results|
    ensures (forall k :: 0 <= k < |results| ==> Consistent(results[k])) ==>
              s.nostrPosted <= s.commented <= s.detected <= s.processed
  {
    if |results| == 0 then Summary(0, 0, 0, 0)
    else
      var before := results[..|results| - 1];
      var r := results[|results| - 1];
      assert forall k :: 0 <= k < |before| ==> before[k] == results[k];
      Counted(Tally(before), r)
  }

  /** The snapshot of the run's counters after one more result. */
  lemma TallySnoc(results: seq<PostResult>, r: PostResult)
    ensures Tally(results + [r]) == Counted(Tally(results), r)
  {
    assert (results + [r])[..|results|] == results;
  }

  /** Where `run` takes its posts from: the main query, or else the simpler one. */
  function Source(primary: Option<seq<Post>>, fallback: Option<seq<Post>>): Option<seq<Post>>
  {
    if primary.Some? then primary else fallback
  }

  /** What the environment gives the start-up: the Nostr keys with the key libraries,
      and the gist replies. */
  datatype Setup = Setup(nsec: Option<string>, npub: Option<string>,
                         decode: string -> Option<string>, derive: string -> Option<string>,
                         create: State.CreateReply, load: State.LoadReply)

  /** Whether start-up succeeds, given the configured gist id. */
  predicate StartsUp(setup: Setup, gistId: string)
  {
    Nostr.KeysAccepted(setup.nsec, setup.npub, setup.decode, setup.derive) &&
    (gistId != "" || setup.create.Created?)
  }

  /** The gist id after start-up: the created gist's when none was configured. */
  function GistIdAtStart(setup: Setup, gistId: string): string
  {
    if StartsUp(setup, gistId) && gistId == "" then setup.create.id else gistId
  }

  /** The set after start-up: loaded from the gist once the gist is there. */
  function SetAtStart(setup: Setup, gistId: string, posts: seq<string>): seq<string>
  {
    if StartsUp(setup, gistId) then State.Loaded(setup.load, posts) else posts
  }

  /** The document written during start-up: the empty one when a gist was created. */
  function WrittenAtStart(setup: Setup, gistId: string, written: Option<State.SavedDocument>)
    : Option<State.SavedDocument>
  {
    if Nostr.KeysAccepted(setup.nsec, setup.npub, setup.decode, setup.derive) &&
       gistId == "" && setup.create.Created?
    then Some(State.Document([]))
    else written
  }

  /** The ids of the posts, in order. */
  function PostIds(posts: seq<Post>): (r: seq<string>)
    ensures |r| == |posts| && forall k :: 0 <= k < |posts| ==> r[k] == posts[k].id
  {
    seq(|posts|, k requires 0 <= k < |posts| => posts[k].id)
  }

  /** Whether each post's gist write would succeed, in order. */
  function WriteOks(replies: seq<Replies>): (r: seq<bool>)
    ensures |r| == |replies| && forall k :: 0 <= k < |replies| ==> r[k] == replies[k].writeOk
  {
    seq(|replies|, k requires 0 <= k < |replies| => replies[k].writeOk)
  }

  /** The ids and write outcomes of the first `i + 1` posts extend those of the first `i`. */
  lemma PrefixSnoc(posts: seq<Post>, replies: seq<Replies>, i: nat)
    requires i < |posts| == |replies|
    ensures PostIds(posts[..i + 1]) == PostIds(posts[..i]) + [posts[i].id]
    ensures WriteOks(replies[..i + 1]) == WriteOks(replies[..i]) + [replies[i].writeOk]
  {
  }

  /** How a run ends: `process.exit(code)`, or normally with its counters. */
  datatype RunOutcome = Exit(code: int) | Completed(summary: Summary)

  class YewTuBot {
    const state: State.StateManager
    const nostr: Nostr.NostrClient

    constructor(gistId: string)
      ensures fresh(state) && fresh(nostr)
      ensures state.Valid() && state.gistId == gistId && state.processedPosts == []
      ensures nostr.relays == Nostr.DefaultRelays && nostr.privateKey.None? && nostr.publicKey.None?
      ensures state.written == None && state.saveAttempts == 0
    {
      state := new State.StateManager(gistId);
      nostr := new Nostr.NostrClient();
    }

    /** Sets up the Nostr client, then the state; fails as soon as either throws. */
    method Initialize(setup: Setup) returns (ok: bool)
      requires state.Valid()
      modifies state, nostr`privateKey, nostr`publicKey
      ensures state.Valid()
      ensures ok <==> StartsUp(setup, old(state.gistId))
      ensures ok ==> nostr.privateKey == Nostr.PrivateKeyOf(setup.nsec.value, setup.decode) &&
                     nostr.privateKey.Some? && nostr.publicKey == setup.derive(nostr.privateKey.value)
      ensures ok ==> state.gistId == (if old(state.gistId) == "" then setup.create.id else old(state.gistId)) &&
                     state.processedPosts == State.Loaded(setup.load, old(state.processedPosts))
      ensures !ok ==> state.gistId == old(state.gistId) && state.processedPosts == old(state.processedPosts)
      ensures state.written ==
                if Nostr.KeysAccepted(setup.nsec, setup.npub, setup.decode, setup.derive) &&
                   old(state.gistId) == "" && setup.create.Created?
                then Some(State.Document([]))
                else old(state.written)
      ensures !Nostr.KeysAccepted(setup.nsec, setup.npub, setup.decode, setup.derive) ==> unchanged(state)
      ensures nostr.privateKey == Nostr.StoredPrivateKey(setup.nsec, setup.decode, old(nostr.privateKey))
      ensures nostr.publicKey == Nostr.StoredPublicKey(setup.nsec, setup.decode, setup.derive, old(nostr.publicKey))
      ensures state.gistId == GistIdAtStart(setup, old(state.gistId))
      ensures state.processedPosts == SetAtStart(setup, old(state.gistId), old(state.processedPosts))
      ensures state.saveAttempts == old(state.saveAttempts)
    {
      var keys := nostr.Initialize(setup.nsec, setup.npub, setup.decode, setup.derive);
      if keys != Nostr.Initialized {
        return false;
      }
      ok := state.Initialize(setup.create, setup.load);
    }

    /** Publishes the note about a post; an exception (an uninitialised client, a
        failed signature) is reported as false. */
    method PostToNostr(post: Post, links: seq<YouTube.LinkInfo>, reply: Replies)
      returns (ok: bool, note: Option<Nostr.Event>)
      requires |reply.attempts| == |nostr.relays|
      ensures ok <==> Delivered(nostr.privateKey, nostr.relays, reply)
      ensures note.Some? <==> nostr.privateKey.Some? && reply.signOk
      ensures note.Some? ==> note.value == Nostr.BuildEvent(NostrContent(post, |links|), [], nostr.publicKey)
    {
      var r, sent := nostr.PublishNote(NostrContent(post, |links|), [], reply.signOk, reply.attempts);
      ok := r == Nostr.Published(true);
      note := sent;
    }

    /** Handles one post. `comment` is the comment text sent, if any, and `note` the
        Nostr note handed to the relays, if any. */
    method ProcessPost(post: Post, reply: Replies)
      returns (result: PostResult, comment: Option<string>, note: Option<Nostr.Event>)
      requires state.Valid()
      requires |reply.attempts| == |nostr.relays|
      modifies state
      ensures state.Valid()
      ensures post.id in state.processedPosts
      ensures forall x :: x in old(state.processedPosts) ==> x in state.processedPosts
      ensures Consistent(result)
      ensures old(post.id in state.processedPosts) ==>
                result == NothingDone && comment.None? && note.None? && unchanged(state)
      ensures !old(post.id in state.processedPosts) ==>
                state.processedPosts == old(state.processedPosts) + [post.id] &&
                result == Outcome(|PostLinks(post)|, reply.comment,
                                  Delivered(nostr.privateKey, nostr.relays, reply)) &&
                (comment.Some? <==> |PostLinks(post)| > 0) &&
                (comment.Some? ==> comment.value == GenerateComment(PostLinks(post))) &&
                state.saveAttempts ==
                  old(state.saveAttempts) + (if State.SavesOnMark(old(state.processedPosts), post.id) then 1 else 0) &&
                state.written ==
                  (if State.SavesOnMark(old(state.processedPosts), post.id) && reply.writeOk
                   then Some(State.Document(state.processedPosts)) else old(state.written))
      ensures state.gistId == old(state.gistId)
      ensures note.Some? <==>
                !old(post.id in state.processedPosts) && |PostLinks(post)| > 0 &&
                reply.comment == Posted && nostr.privateKey.Some? && reply.signOk
      ensures note.Some? ==>
                result.commented &&
                note.value == Nostr.BuildEvent(NostrContent(post, |PostLinks(post)|), [], nostr.publicKey)
    {
      result := NothingDone;
      comment := None;
      note := None;
      var seen := state.HasProcessedPost(post.id);
      if seen {
        return;
      }
      var links := YouTube.ExtractYouTubeLinks(JsText(post.title), JsText(BodyOf(post)));
      result, comment, note := Respond(post, links, reply);
      // Marked whether or not links were found and whatever the comment request did.
      state.MarkPostAsProcessed(post.id, reply.writeOk);
    }

    /** What `processPost` does with the links found in a fresh post: with links, it
        comments and, once the comment is posted, announces the post on Nostr. */
    method Respond(post: Post, links: seq<YouTube.LinkInfo>, reply: Replies)
      returns (result: PostResult, comment: Option<string>, note: Option<Nostr.Event>)
      requires |reply.attempts| == |nostr.relays|
      ensures result == Outcome(|links|, reply.comment, Delivered(nostr.privateKey, nostr.relays, reply))
      ensures comment.Some? <==> |links| > 0
      ensures comment.Some? ==> comment.value == GenerateComment(links)
      ensures note.Some? <==> |links| > 0 && reply.comment == Posted && nostr.privateKey.Some? && reply.signOk
      ensures note.Some? ==> note.value == Nostr.BuildEvent(NostrContent(post, |links|), [], nostr.publicKey)
    {
      result := NothingDone;
      comment := None;
      note := None;
      if |links| == 0 {
        return;
      }
      result := result.(detected := true);
      comment := Some(GenerateComment(links));
      if reply.comment == Posted {
        result := result.(commented := true);
        var delivered;
        delivered, note := PostToNostr(post, links, reply);
        if delivered {
          result := result.(nostrPosted := true);
        }
      }
    }

    /** One turn of `run`'s loop: `processPost`, seen only through what the counters
        and the state need. */
    method Step(post: Post, reply: Replies) returns (result: PostResult)
      requires state.Valid()
      requires |reply.attempts| == |nostr.relays|
      modifies state
      ensures state.Valid()
      ensures Consistent(result)
      ensures post.id in state.processedPosts
      ensures forall x :: x in old(state.processedPosts) ==> x in state.processedPosts
      ensures state.gistId == old(state.gistId)
      ensures state.processedPosts ==
                if old(post.id in state.processedPosts) then old(state.processedPosts)
                else old(state.processedPosts) + [post.id]
      ensures state.saveAttempts ==
                old(state.saveAttempts) + if State.SavesOnMark(old(state.processedPosts), post.id) then 1 else 0
      ensures state.written ==
                if State.SavesOnMark(old(state.processedPosts), post.id) && reply.writeOk
                then Some(State.Document(old(state.processedPosts) + [post.id]))
                else old(state.written)
    {
      var comment, note;
      result, comment, note := ProcessPost(post, reply);
    }

    /** One turn of `run`'s loop: `processPost`, then the counters. Seen against the run
        so far: if the set, the save count and the written document are those after
        marking `ids` (with write outcomes `oks`), then afterwards they are those after
        marking `ids` and this post. */
    method Turn(post: Post, reply: Replies, counts: Summary, ghost results: seq<PostResult>,
                ghost start: seq<string>, ghost ids: seq<string>, ghost oks: seq<bool>,
                ghost saves: nat, ghost before: Option<State.SavedDocument>)
      returns (result: PostResult, next: Summary)
      requires state.Valid()
      requires |reply.attempts| == |nostr.relays|
      requires counts == Tally(results)
      requires |oks| == |ids|
      requires state.processedPosts == State.MarkedAll(start, ids)
      requires state.saveAttempts == saves + State.SavesFor(start, ids)
      requires state.written == State.WrittenAfter(start, ids, oks, before)
      modifies state
      ensures state.Valid()
      ensures Consistent(result)
      ensures next == Tally(results + [result])
      ensures state.gistId == old(state.gistId)
      ensures state.processedPosts == State.MarkedAll(start, ids + [post.id])
      ensures state.saveAttempts == saves + State.SavesFor(start, ids + [post.id])
      ensures state.written == State.WrittenAfter(start, ids + [post.id], oks + [reply.writeOk], before)
    {
      State.MarkedAllSnoc(start, ids, post.id);
      State.SavesForSnoc(start, ids, post.id);
      State.WrittenAfterSnoc(start, ids, post.id, oks, reply.writeOk, before);
      result := Step(post, reply);
      next := Counted(counts, result);
      TallySnoc(results, result);
    }

    /** The loop of `run`: handles the posts in order and counts the results. */
    method ProcessPosts(posts: seq<Post>, replies: seq<Replies>)
      returns (summary: Summary, results: seq<PostResult>)
      requires state.Valid()
      requires |replies| == |posts|
      requires forall k :: 0 <= k < |replies| ==> |replies[k].attempts| == |nostr.relays|
      modifies state
      ensures state.Valid()
      ensures |results| == |posts| && summary == Tally(results)
      ensures forall k :: 0 <= k < |results| ==> Consistent(results[k])
      ensures forall p :: p in posts ==> p.id in state.processedPosts
      ensures state.gistId == old(state.gistId)
      ensures state.processedPosts == State.MarkedAll(old(state.processedPosts), PostIds(posts))
      ensures state.saveAttempts == old(state.saveAttempts) + State.SavesFor(old(state.processedPosts), PostIds(posts))
      ensures state.written ==
                State.WrittenAfter(old(state.processedPosts), PostIds(posts), WriteOks(replies), old(state.written))
    {
      results := [];
      summary := Summary(0, 0, 0, 0);
      for i := 0 to |posts|
        invariant |results| == i
        invariant state.Valid()
        invariant nostr.relays == old(nostr.relays)
        invariant summary == Tally(results)
        invariant forall k :: 0 <= k < i ==> Consistent(results[k])
        invariant state.gistId == old(state.gistId)
        invariant state.processedPosts == State.MarkedAll(old(state.processedPosts), PostIds(posts[..i]))
        invariant state.saveAttempts == old(state.saveAttempts) + State.SavesFor(old(state.processedPosts), PostIds(posts[..i]))
        invariant state.written == State.WrittenAfter(old(state.processedPosts), PostIds(posts[..i]), WriteOks(replies[..i]), old(state.written))
      {
        PrefixSnoc(posts, replies, i);
        var result;
        result, summary := Turn(posts[i], replies[i], summary, results, old(state.processedPosts),
                                PostIds(posts[..i]), WriteOks(replies[..i]), old(state.saveAttempts), old(state.written));
        results := results + [result];
      }
      assert posts[..|posts|] == posts && replies[..|replies|] == replies;
      State.MarkedAllContents(old(state.processedPosts), PostIds(posts));
      forall p | p in posts ensures p.id in state.processedPosts {
        var k :| 0 <= k < |posts| && posts[k] == p;
        assert PostIds(posts)[k] == p.id;
      }
    }

    /** One run: start up (exit 1 on failure), fetch posts from the main query or, if
        that throws, once from the simpler one (exit 1 if that throws too), then handle
        every post and count. The state is never flushed at the end. */
    method Run(setup: Setup, primary: Option<seq<Post>>, fallback: Option<seq<Post>>,
               replies: seq<Replies>)
      returns (outcome: RunOutcome, results: seq<PostResult>)
      requires state.Valid()
      requires forall k :: 0 <= k < |replies| ==> |replies[k].attempts| == |nostr.relays|
      requires Source(primary, fallback).Some? ==> |replies| == |Source(primary, fallback).value|
      modifies state, nostr`privateKey, nostr`publicKey
      ensures state.Valid()
      ensures outcome.Completed? <==> StartsUp(setup, old(state.gistId)) && Source(primary, fallback).Some?
      ensures outcome.Exit? ==> outcome.code == 1
      ensures outcome.Completed? ==>
                |results| == |Source(primary, fallback).value| && outcome.summary == Tally(results) &&
                (forall k :: 0 <= k < |results| ==> Consistent(results[k]))
      ensures outcome.Completed? ==>
                outcome.summary.processed == |Source(primary, fallback).value| &&
                outcome.summary.nostrPosted <= outcome.summary.commented <=
                outcome.summary.detected <= outcome.summary.processed
      ensures outcome.Completed? ==>
                forall p :: p in Source(primary, fallback).value ==> p.id in state.processedPosts
      ensures state.gistId == GistIdAtStart(setup, old(state.gistId))
      ensures nostr.privateKey == Nostr.StoredPrivateKey(setup.nsec, setup.decode, old(nostr.privateKey))
      ensures nostr.publicKey == Nostr.StoredPublicKey(setup.nsec, setup.decode, setup.derive, old(nostr.publicKey))
      ensures outcome.Exit? ==>
                state.processedPosts == SetAtStart(setup, old(state.gistId), old(state.processedPosts)) &&
                state.saveAttempts == old(state.saveAttempts) &&
                state.written == WrittenAtStart(setup, old(state.gistId), old(state.written))
      ensures outcome.Completed? ==>
                var start := SetAtStart(setup, old(state.gistId), old(state.processedPosts));
                var ids := PostIds(Source(primary, fallback).value);
                state.processedPosts == State.MarkedAll(start, ids) &&
                state.saveAttempts == old(state.saveAttempts) + State.SavesFor(start, ids) &&
                state.written == State.WrittenAfter(start, ids, WriteOks(replies),
                                                    WrittenAtStart(setup, old(state.gistId), old(state.written)))
    {
      results := [];
      var ok := Initialize(setup);
      if !ok {
        return Exit(1), results;
      }
      var posts;
      if primary.Some? {
        posts := primary.value;
      } else if fallback.Some? {
        posts := fallback.value;
      } else {
        return Exit(1), results;
      }
      var summary;
      summary, results := ProcessPosts(posts, replies);
      outcome := Completed(summary);
    }
  }
}
